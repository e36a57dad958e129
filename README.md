# egg-carton CLI: login and token bookkeeping, in Dafny

A model of the client side of the EggCarton secrets vault. The CLI logs in
with the OAuth 2.0 authorization-code grant and PKCE against an Amazon
Cognito domain. It keeps the resulting tokens in a credentials file and
refreshes them when they are about to expire. It reads the owner (the JWT
`sub` claim) out of the access token and calls the secrets API with the
access token as a bearer token. The `get` and `hatch` (alias `run`)
commands are built on this.

The project has one module per source file, plus three modules that model
the parts of Go's standard library those files rely on:

| module | file | models |
|---|---|---|
| `Wrappers` | wrappers.dfy | `Option` and `Result` |
| `Text` | text.dfy | `strings.Split`/`Join`, ASCII `strings.ToUpper`, `[]byte(s)` (UTF-8), byte-wise string order |
| `Base64Url` | base64url.dfy | `base64.RawURLEncoding` (section 5 of RFC 4648, without padding) |
| `Url` | url.dfy | `url.Values` (`Set`, `Encode`), `url.QueryEscape`, and a reference form decoder |
| `Config` | config.dfy | config/config.go |
| `Pkce` | login.dfy | auth/login.go |
| `Callback` | server.dfy | auth/server.go |
| `TokenExchange` | token.dfy | auth/token.go |
| `Api` | client.dfy | api/client.go |
| `Session` | session.dfy | commands/token.go, the token file of config/config.go, and the shared prelude of get.go and run.go |
| `RunCommand` | run.dfy | commands/run.go |
| `GetCommand` | get.dfy | commands/get.go |

Everything the CLI takes from its environment is a parameter of the model:
- the clock (`now`, `refreshedAt`);
- the random bytes, as an `Option` (None is a failed read);
- SHA-256;
- JSON decoding (`parseClaims`, `parse`, `parseEggs`);
- the HTTP round trips (`post` for the token endpoint, `send` for the API);
- the current environment and the command-line arguments.

Three things are stateful:
- The credentials file is a class, `Session.CredentialStore`. Its `Save`
  replaces the stored record only when the file is writable.
- The network is a class, `Session.Network`. It logs every call in order,
  so "the refresh happens before the fetch, with the refreshed token" can be
  stated.
- The callback listener is a state machine, `Callback.CallbackServer`. It
  holds the channel's one-slot buffer, the login context's deadline and
  whether the function has returned.

The loops of the commands are methods. Four are proved equal to a
specification function:
- the environment map;
- the search for `--`;
- the key lookup;
- the listing.

The merge of the environment cannot be pinned to one result, because Go
leaves the order of a map's iteration unspecified. It is proved to be the
current environment followed by the assignments of the secrets in some
order that lists each secret exactly once.

## Model

| member | source | states |
|---|---|---|
| Config.IsTokenValid | config/config.go:116-122 | a token is valid exactly while `now + 300 <= issuedAt + expiresIn` |
| Config.ValidityBoundary | config/config.go:118 | the last second before the 300-second margin is still valid, and the next one is not |
| Config.ValidityMonotone | config/config.go:116-122 | once a token is invalid it stays invalid: valid now implies valid at every earlier time |
| Config.ShortLivedNeverValid | config/config.go:118 | a token whose lifetime is under 300 seconds is never valid from its issue time on |
| Config.ValidityAroundExpiry | config/config.go:116-122 | valid until 301 seconds before the nominal expiry; never valid at or after it |
| Config.RedirectUri | config/config.go:125-127 | the redirect URI is `http://localhost` followed by the listener's address `:8080` and route `/callback` |
| Config.AuthorizationUrl | config/config.go:130-133 | `https://`, then the configured domain (recoverable from the URL), then `/oauth2/authorize` |
| Config.TokenUrl | config/config.go:136-138 | `https://`, then the configured domain (recoverable from the URL), then `/oauth2/token` |
| Config.EndpointsShareHost | config/config.go:130-138 | the authorize and token endpoints differ only in their final path |
| Config.OwnerOfPayload | config/config.go:164-181 | a payload that does not decode gives the decode error, exactly; decoded claims that do not parse give the parse error, exactly; parsed claims with an empty `sub` give the missing-claim error, exactly; otherwise the owner is the claims' `sub`, never empty |
| Config.ExtractOwnerFromToken | config/config.go:157-182 | the format error occurs exactly when the token does not hold exactly two dots; a returned owner is non-empty |
| Config.OwnerIgnoresHeaderAndSignature | config/config.go:158-164 | for a dot-free header, payload and signature, the owner depends only on the payload |
| Config.PayloadOutsideAlphabetRejected | config/config.go:164-167 | a payload with padding or any character outside the base64url alphabet, line breaks excepted, fails to decode |
| Config.OwnerOfEncodedClaims | config/config.go:157-182 | a token whose payload is the unpadded base64url encoding of claims with a non-empty `sub` yields exactly that `sub` |
| Text.Count | config/config.go:158 | the count is at most the length, and zero exactly when the character is absent |
| Text.Split | config/config.go:158 | splitting yields at least one piece |
| Text.SplitCount | config/config.go:158-160 | `Split` gives one more piece than there are separators |
| Text.SplitPiecesHaveNoSeparator | config/config.go:158 | no piece holds the separator |
| Text.JoinSplit | config/config.go:158 | joining the pieces with the separator rebuilds the string |
| Text.SplitJoin | config/config.go:158 | splitting a join of separator-free pieces gives the pieces back |
| Text.SplitFirstPiece | config/config.go:158 | a separator-free prefix followed by the separator splits off as the first piece |
| Text.SplitWithoutSeparator | config/config.go:158 | a string without the separator is a single piece |
| Text.SplitThree | config/config.go:158-164 | `a.b.c` with dot-free parts splits into exactly `[a, b, c]` |
| Text.UpperChar | commands/run.go:74 | ASCII lower-case letters move up by 32; every other character is kept; the result is never lower-case |
| Text.Upper | commands/run.go:74 | the same length, upper-cased character by character |
| Text.Utf8Char | auth/login.go:29 | one to four bytes; an ASCII character is its own code; other characters give only bytes of 128 or more |
| Text.Utf8OfAscii | auth/login.go:29 | on ASCII text the bytes are the character codes, one for one |
| Text.LessIrreflexive | auth/login.go:56 | the key order used by `Encode` is irreflexive |
| Text.LessTransitive | auth/login.go:56 | the key order is transitive |
| Text.LessAsymmetric | auth/login.go:56 | the key order is asymmetric |
| Text.LessTotal | auth/login.go:56 | any two distinct keys are ordered |
| Base64Url.Symbol | auth/login.go:26 | `Value` inverts `Symbol`; every symbol is ASCII |
| Base64Url.Quantum | auth/login.go:26 | one to three bytes give two to four symbols |
| Base64Url.Encode | auth/login.go:26 | the output is `ceil(4n/3)` symbols of the URL-safe alphabet |
| Base64Url.QuantumRoundTrip | auth/login.go:26 | the symbols of one quantum decode back to its bytes |
| Base64Url.StripNewlines | config/config.go:164 | line breaks are removed; every other character is kept as often as it occurs, so the length left is the input's minus its line breaks |
| Base64Url.Bytes | config/config.go:164 | a group of k symbols yields k - 1 bytes |
| Base64Url.Values | config/config.go:164 | one value per symbol, in order |
| Base64Url.Decode | config/config.go:164 | after line breaks are skipped, accepted exactly when alphabet-only with a length not 1 mod 4; then three bytes per four symbols |
| Base64Url.DecodeSymbolsAccepts | config/config.go:164-167 | decoding succeeds exactly on alphabet-only text whose length is not 1 mod 4, and yields `3n/4` bytes |
| Base64Url.DecodeSymbolsEncode | config/config.go:164 | decoding the encoder's output gives the bytes back, before newline stripping |
| Base64Url.StripNewlinesKeeps | config/config.go:164 | text without line breaks is unchanged by stripping |
| Base64Url.DecodeEncode | config/config.go:164 | round trip: `Decode(Encode(b)) == Ok(b)` for every byte string |
| Base64Url.EncodeUnpadded | auth/login.go:25-26 | the encoding never holds `=` |
| Base64Url.ForeignCharacterRejected | config/config.go:164-167 | any character outside the alphabet, other than a line break, makes decoding fail |
| Base64Url.PaddingRejected | config/config.go:164-167 | padded text is refused |
| Url.Set | auth/login.go:46-51 | the key holds exactly `[x]` afterwards, whatever it held before; every other key keeps its values |
| Url.LookupAbsent | auth/login.go:45 | a key below every stored key is absent |
| Url.SetAbove | auth/login.go:46-51 | `Set` keeps every key above a lower bound below the new key |
| Url.SetSpec | auth/login.go:46-51 | `Set` keeps keys sorted and distinct, stores exactly `[x]` under the key, and leaves every other key unchanged |
| Url.SetInsert | auth/login.go:46-51 | setting a new key places it between its neighbours |
| Url.SetAllSpec | auth/token.go:28-32 | after any run of `Set`s the keys are sorted and distinct, and the last key set holds exactly its value |
| Url.ChainSorted | auth/login.go:56 | keys that ascend pairwise ascend throughout |
| Url.PairsOfSingletons | auth/login.go:56 | with one value per key, the encoded pairs are the entries themselves |
| Url.HexDigit | auth/login.go:56 | an upper-case hexadecimal digit whose value is `n` |
| Url.EscapeBytes | auth/login.go:56 | escaped text uses only unreserved characters, `+`, `%` and hexadecimal digits |
| Url.QueryEscape | auth/login.go:56 | an escaped component never holds `&` or `=` |
| Url.Unescape | auth/login.go:56 | the inverse of the escaper, as `url.QueryUnescape`: text without `%` never fails, and text without `%` or `+` unescapes to its UTF-8 bytes |
| Url.UnescapeAccepts | auth/login.go:56 | unescaping fails exactly when some `%` is not followed by two hex digits |
| Url.UnescapeEscapeByte | auth/login.go:56 | unescaping one escaped byte followed by more text yields that byte first |
| Url.UnescapeEscapeBytes | auth/login.go:56 | unescaping escaped bytes gives the bytes back |
| Url.UnescapeQueryEscape | auth/login.go:56 | round trip: unescaping an escaped component gives its UTF-8 bytes |
| Url.Piece | auth/login.go:56 | a `key=value` piece never holds `&` |
| Url.Pieces | auth/login.go:56 | one piece per pair, in order |
| Url.Encode | auth/login.go:56 | no parameters encode as the empty string; otherwise form-decoding the encoding gives back every pair in stored order, which is ascending key order for every value built by `Set` (`Url.SetSpec`) |
| Url.Utf8Pairs | auth/token.go:35 | each pair becomes the UTF-8 bytes of its key and value, in order |
| Url.DecodePieceOfPiece | auth/login.go:56 | one encoded piece decodes to its key and value |
| Url.DecodePiecesOfPairs | auth/login.go:56 | the pieces decode to the pairs, in order |
| Url.DecodeEncodedPairs | auth/token.go:35 | round trip: a non-empty encoded form decodes back to every pair, in order |
| Pkce.Verifier | auth/login.go:20-26 | for 32 random bytes the verifier is 43 URL-safe symbols that decode back to those bytes |
| Pkce.Challenge | auth/login.go:28-31 | 43 characters decoding to SHA-256 of the verifier's bytes (the S256 method of section 4.2 of RFC 7636) |
| Pkce.GeneratePkceChallenge | auth/login.go:18-38 | fails exactly when the random source fails; the verifier is the unpadded encoding of the random bytes, 43 characters without `=`; the challenge is S256 of the verifier |
| Pkce.VerifierBytes | auth/login.go:29 | the hashed bytes are the verifier's 43 characters, one byte each |
| Pkce.KeysAscending | auth/login.go:46-51 | the six parameter names in ascending order |
| Pkce.SixSets | auth/login.go:46-51 | six `Set`s in the source's order leave six ascending keys with one value each |
| Pkce.AuthorizationParamsContents | auth/login.go:45-56 | the parameters are exactly client_id, code_challenge, code_challenge_method=S256, redirect_uri, response_type=code and scope=`openid email profile`, sorted, one value each, and the query encodes those six pairs |
| Pkce.BuildAuthorizationUrl | auth/login.go:41-57 | the URL is the endpoint then `?`; its query decodes to exactly the six pairs, so no value can add or alter a parameter |
| Callback.Get | auth/server.go:23-24 | the first value of the key, or "" when the key is absent |
| Callback.ResultOf | auth/server.go:23-24 | the published result carries the `code` and `error` parameters verbatim |
| Callback.Classify | auth/server.go:83-93 | a provider error wins over a code; an empty code is a failure; otherwise the code is the result; a timeout never comes from here |
| Callback.PageFor | auth/server.go:27-49 | the success page exactly when a code is present; the failure page shows the error parameter |
| Callback.PageIgnoresError | auth/server.go:28-93 | a response with both a code and an error shows the success page while the login fails |
| Callback.FirstOutcome | auth/server.go:67-81 | the first event decides: a deadline times out, a request is classified |
| Callback.CallbackServer.HandleCallback | auth/server.go:21-53 | the result is published exactly when the server is listening and the slot is empty, and then the slot holds the query's result; the page reaches the browser exactly when it is published, and it is the page for that result; the state and the deadline never change |
| Callback.CallbackServer.ExpireContext | auth/server.go:77 | the deadline passes; nothing else changes |
| Callback.CallbackServer.Select | auth/server.go:67-81 | with nothing ready it keeps waiting; a ready callback is classified and consumed; a passed deadline times out; a choice ends the function |
| Callback.CallbackServer.Await | auth/server.go:67-93 | the function's result is decided by the first event alone; with no event it is still waiting |
| TokenExchange.FiveSets | auth/token.go:28-32 | five `Set`s in the source's order leave five ascending keys with one value each |
| TokenExchange.ThreeSets | auth/token.go:82-84 | three `Set`s in the source's order leave three ascending keys with one value each |
| TokenExchange.CodeExchangeFormContents | auth/token.go:27-35 | the form is exactly client_id, code, code_verifier, grant_type=authorization_code and redirect_uri, one value each, and its body decodes back to those pairs |
| TokenExchange.RefreshFormContents | auth/token.go:81-87 | the form is exactly client_id, grant_type=refresh_token and refresh_token, one value each, and its body decodes back to those pairs |
| TokenExchange.FormRequest | auth/token.go:35-40 | a POST to the token URL with the form content type, whose body is the encoded form |
| TokenExchange.ToTokenData | auth/token.go:68-75 | every field is copied from the response; the issue time is the clock reading |
| TokenExchange.HandleTokenResponse | auth/token.go:57-75 | any status but 200 is a rejection with status and body; an unparsable body is an error; otherwise the parsed record |
| TokenExchange.CreatedIsRejected | auth/token.go:57-59 | status 201 is refused |
| TokenExchange.ExchangeCodeForTokens | auth/token.go:25-76 | a failed round trip is the request error, exactly; otherwise the shared handling of the response to the code-exchange form; a record is stamped with `now` |
| TokenExchange.RefreshAccessToken | auth/token.go:79-128 | the same, for the refresh form |
| TokenExchange.GrantsShareResponseHandling | auth/token.go:109-127 | on the same response both grants give the same result |
| Api.Request | api/client.go:154-170 | the URL is the base URL followed by the path; `Authorization: Bearer <token>` and a JSON content type are set |
| Api.PutEgg | api/client.go:50-73 | success exactly on status 200 or 201; a failed round trip is the request error |
| Api.PutEggIgnoresOwner | api/client.go:50-61 | the owner argument does not affect the request or the result; the body holds only id and value |
| Api.GetEgg | api/client.go:76-95 | success exactly on status 200 with a decodable body, returning the decoded eggs |
| Api.BreakEgg | api/client.go:98-111 | success exactly on status 200 |
| Api.CreatedAcceptedOnlyByPut | api/client.go:67-105 | status 201 is a success for `PutEgg` and an error for `GetEgg` and `BreakEgg` |
| Api.RequestPaths | api/client.go:61-99 | the paths are `/eggs`, `/eggs/<owner>` and `/eggs/<owner>/<secret id>` after the base URL |
| Api.ListEggs | api/client.go:116-122 | always fails |
| Api.ExtractOwnerFromToken | api/client.go:125-151 | a returned owner is non-empty |
| Api.ExtractOwnerAgrees | api/client.go:125-151 | this copy agrees with the configuration package's extraction on every token and decoder |
| Session.CredentialStore.Load | config/config.go:100-113 | yields the stored record, or None |
| Session.CredentialStore.Save | config/config.go:78-97 | succeeds exactly when the file is writable, and then holds exactly the new record; a failed save keeps the old record |
| Session.CredentialStore.Owner | config/config.go:146-154 | re-reads the file: no record gives the load error; otherwise the owner of the stored access token, never empty |
| Session.OwnerOfRecord | config/config.go:146-154 | the owner of a record's access token, with the extraction error kept |
| Session.Network.Refresh | auth/token.go:79-128 | logs one refresh call and returns the refresh grant's result |
| Session.Network.FetchEggs | api/client.go:76-95 | logs one API call and returns `GetEgg`'s result |
| Session.RefreshCalls | commands/token.go:21-25 | one refresh call, with the token URL, client id and stored refresh token, exactly when a stored record is no longer valid |
| Session.ValidTokenOutcomeCases | commands/token.go:13-33 | not logged in exactly when nothing is stored; a valid record is returned as stored; otherwise refresh failure, save failure or the refreshed record stamped at refresh time |
| Session.OutcomeIsValid | commands/token.go:13-33 | a returned record is valid at the check, unless it is a refreshed one whose lifetime is under the margin |
| Session.EnsureValidToken | commands/token.go:13-33 | the outcome above; at most one refresh call logged; the file changes only to a refreshed record that is returned; on success the file holds the returned record |
| Session.FetchUsesCheckedToken | commands/run.go:38-68 | the fetch follows any refresh, carries the checked access token as bearer token and goes to `/eggs/<owner>`; it happens exactly when the token check and owner lookup succeed |
| Session.FetchOwnEggs | commands/get.go:28-60 | the fetch outcome, the calls logged and the credentials left are those of the token check, owner lookup and `GetEgg`, in that order |
| RunCommand.EnvOfKeys | commands/run.go:71-76 | the variable names are exactly the upper-cased secret ids |
| RunCommand.EnvOfLastWins | commands/run.go:71-76 | a variable holds the plaintext of the last egg naming it |
| RunCommand.SecretEnvVars | commands/run.go:71-76 | the loop builds exactly the specified map |
| RunCommand.Separator | commands/run.go:79-85 | -1 exactly when there is no `--`; otherwise the index of the first `--` |
| RunCommand.FindSeparator | commands/run.go:79-85 | the loop with `break` returns the first `--`, or -1 |
| RunCommand.SeparatorAt | commands/run.go:79-85 | a `--` with none before it is the one found |
| RunCommand.SplitCommand | commands/run.go:87-98 | a usage error exactly when `--` is missing or last; otherwise the next argument is the command and the rest are its arguments; the "no command" error cannot occur |
| RunCommand.Assignments | commands/run.go:106 | one `NAME=value` line per entry, in order |
| RunCommand.MergeContents | commands/run.go:101-107 | the merged environment is the current one unchanged, then one assignment per secret, every secret included |
| RunCommand.Entries | commands/run.go:105 | ranging over the map visits every (name, value) pair exactly once |
| RunCommand.MergeEnv | commands/run.go:101-107 | the merged environment is the current one followed by the assignments of the map in some iteration order |
| RunCommand.UsageCheckedAfterFetch | commands/run.go:58-89 | a usage error exactly when the fetch succeeded and `--` is missing or its first occurrence is last; a failed fetch is reported first |
| RunCommand.PlanContents | commands/run.go:63-98 | a plan's command follows the first `--` and its secrets are the fetched eggs' map; "no command" never occurs |
| RunCommand.Run | commands/run.go:38-117 | the plan's errors, or a launch of the planned command with the merged environment and the count of secrets; the log and credentials are the fetch's |
| GetCommand.FirstMatch | commands/get.go:63-76 | None exactly when no egg has the key; otherwise the first matching egg's plaintext |
| GetCommand.FindSecret | commands/get.go:63-76 | the loop finds exactly the first match |
| GetCommand.Listing | commands/get.go:84-90 | four lines per egg, egg i's lines at 4i to 4i+3 |
| GetCommand.ListingNamesEveryEgg | commands/get.go:84-90 | egg i's `Key:` line is at 4i and its `---` at 4i+3 |
| GetCommand.ListSecrets | commands/get.go:84-90 | the loop prints exactly the listing |
| GetCommand.Show | commands/get.go:62-91 | with a key: not found exactly when no egg has it, else the first match; without: no secrets exactly when there are no eggs, else the count and the listing |
| GetCommand.GetOutcomeCases | commands/get.go:17-91 | too many arguments exactly when there are more than one; a failed fetch is reported; with a key, success exactly when fetched and found, not found exactly when fetched and absent |
| GetCommand.Get | commands/get.go:21-94 | the outcome above; too many arguments touch nothing; otherwise the log and credentials are the fetch's |

## Left out

- HTTP itself: timeouts, request construction failures, and reading bodies are folded into the `post`/`send` round trip returning None.
- The HTTP server, its goroutine, `Shutdown` and `Close`: the listener is a sequential state machine. A request that arrives after the function has decided, or between the decision and the shutdown, is simply not served.
- Go's random choice in `select` when both cases are ready: it is the `preferCallback` parameter.
- The callback's query string is taken as already-decoded pairs. URL parsing of the request is not modelled.
- The HTML pages: only which page is shown, and the error it names, are modelled.
- JSON encoding and decoding: parameters (`parseClaims`, `parse`, `parseEggs`). `SaveTokens`'s marshalling cannot fail for this record and is not modelled.
- SHA-256 and the random source: parameters.
- Url.Encode: writes the pairs in stored order and does not sort the keys itself as Go's `Values.Encode` does. Every value in the model is built by `Set`, which keeps the keys sorted (`Url.SetSpec`), so the two encodings agree.
- Session.CredentialStore.Save: a failed save is treated as all-or-nothing, keeping the old record. `os.WriteFile` truncates the file when it opens it, so a write that fails after the open can leave an empty or partial file that the next load rejects. The claim of `Session.EnsureValidToken` that a failed save keeps the stored record rests on the same simplification.
- File I/O: the credentials file is a stored record plus a writable flag. Directory creation, permissions and the path are not modelled. `LoadConfig` and the environment variables behind it are left out; the configuration is an input.
- Config.IsTokenValid: does not model the `int64` overflow of `IssuedAt + ExpiresIn`. Unbounded integers are used because realistic timestamps and lifetimes are far from the limit.
- Text.Upper: upper-cases ASCII letters only. `strings.ToUpper`'s full Unicode case mapping is not modelled.
- The printed messages: "Session expired…", the hatch count line and the list of injected names, the error message texts, and the `os.Exit` with the child's exit code.
- Running the subprocess (`exec.Command`, stdin/stdout/stderr wiring): `Run` returns the launch as a value.
- `runGet` and `runRun` repeat the token check inline instead of calling `ensureValidToken`. Both are modelled by the shared `Session.FetchOwnEggs`, which calls `EnsureValidToken`. The two differ only in error texts.
- `GetCommand.Get`: cobra's `MaximumNArgs(1)` check is modelled as a `TooManyArgs` error returned before anything else happens.
- Url.DecodeEncodedPairs: stated for non-empty forms only. Every form the CLI encodes has at least three pairs.
- commands/login.go, commands/add.go, commands/break.go and main.go are not part of this model. They are callers of the modelled core.
