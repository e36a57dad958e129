/**
  config/config.go: the stored token record, its lifetime policy, the
  provider endpoints derived from the configured domain, and the owner (the
  `sub` claim) read out of a JWT access token.
*/
module Config {
  import opened Wrappers
  import opened Text
  import Base64Url

  datatype CognitoConfig = CognitoConfig(userPoolId: string, clientId: string, domain: string, region: string)

  datatype Config = Config(apiEndpoint: string, cognito: CognitoConfig)

  /** The persisted token record; `issuedAt` is a Unix time in seconds taken from the local clock. */
  datatype TokenData = TokenData(
    accessToken: string,
    idToken: string,
    refreshToken: string,
    expiresIn: int,
    tokenType: string,
    issuedAt: int)

  /** Safety margin, in seconds, taken off a token's lifetime. */
  const Skew: int := 300

  /** The last second at which the token still counts as valid. */
  function LastValidSecond(t: TokenData): int
  {
    t.issuedAt + t.expiresIn - Skew
  }

  /** `IsTokenValid` with the clock reading `now` passed in: invalid exactly once `now` is past the skewed expiry. */
  function IsTokenValid(t: TokenData, now: int): (valid: bool)
    ensures valid <==> now + Skew <= t.issuedAt + t.expiresIn
  {
    !(now > LastValidSecond(t))
  }

  /** The boundary second itself is still valid, the next one is not. */
  lemma ValidityBoundary(t: TokenData)
    ensures IsTokenValid(t, LastValidSecond(t))
    ensures !IsTokenValid(t, LastValidSecond(t) + 1)
  {
  }

  /** Validity only ever ends: valid now means valid at every earlier time. */
  lemma ValidityMonotone(t: TokenData, now: int, earlier: int)
    requires earlier <= now && IsTokenValid(t, now)
    ensures IsTokenValid(t, earlier)
  {
  }

  /** A token whose lifetime is shorter than the margin is never valid from its issue time on. */
  lemma ShortLivedNeverValid(t: TokenData, now: int)
    requires t.expiresIn < Skew && now >= t.issuedAt
    ensures !IsTokenValid(t, now)
  {
  }

  /** Valid at least until 301 seconds before the nominal expiry, and never at or after it, whatever the lifetime. */
  lemma ValidityAroundExpiry(t: TokenData, now: int)
    ensures now <= t.issuedAt + t.expiresIn - 301 ==> IsTokenValid(t, now)
    ensures now >= t.issuedAt + t.expiresIn ==> !IsTokenValid(t, now)
  {
  }

  const AuthorizePath: string := "/oauth2/authorize"
  const TokenPath: string := "/oauth2/token"

  /** Address and route the callback listener serves. */
  const CallbackAddress: string := ":8080"
  const CallbackPath: string := "/callback"

  /** `GetRedirectURI`: the loopback address and route of the callback listener, over plain http. */
  function RedirectUri(c: Config): (uri: string)
    ensures uri == "http://localhost" + CallbackAddress + CallbackPath
  {
    "http://localhost:8080/callback"
  }

  /** `GetAuthorizationURL`: the configured domain, over https, with the authorize path; the domain can be read back. */
  function AuthorizationUrl(c: Config): (url: string)
    ensures |url| == 8 + |c.cognito.domain| + |AuthorizePath|
    ensures url[..8] == "https://" && url[8..|url| - |AuthorizePath|] == c.cognito.domain
    ensures url[|url| - |AuthorizePath|..] == AuthorizePath
  {
    "https://" + c.cognito.domain + AuthorizePath
  }

  /** `GetTokenURL`: the configured domain, over https, with the token path; the domain can be read back. */
  function TokenUrl(c: Config): (url: string)
    ensures |url| == 8 + |c.cognito.domain| + |TokenPath|
    ensures url[..8] == "https://" && url[8..|url| - |TokenPath|] == c.cognito.domain
    ensures url[|url| - |TokenPath|..] == TokenPath
  {
    "https://" + c.cognito.domain + TokenPath
  }

  /** The two provider endpoints name the same host: they differ only in the final path. */
  lemma EndpointsShareHost(c: Config)
    ensures AuthorizationUrl(c)[..|AuthorizationUrl(c)| - |AuthorizePath|]
         == TokenUrl(c)[..|TokenUrl(c)| - |TokenPath|]
  {
    var a, t := AuthorizationUrl(c), TokenUrl(c);
    assert a[..|a| - |AuthorizePath|] == "https://" + c.cognito.domain;
    assert t[..|t| - |TokenPath|] == "https://" + c.cognito.domain;
  }

  /** The claims of a JWT payload that the CLI reads; a missing `sub` decodes to "". */
  datatype Claims = Claims(sub: string)

  datatype OwnerError = InvalidJwtFormat | PayloadDecodeFailed | ClaimsParseFailed | SubClaimMissing

  /** Owner from the middle segment of a token: unpadded base64url, then the claims, then a non-empty `sub`. */
  function OwnerOfPayload(payload: string, parseClaims: seq<byte> -> Option<Claims>): (r: Result<string, OwnerError>)
    ensures Base64Url.Decode(payload).Err? <==> r == Err(PayloadDecodeFailed)
    ensures Base64Url.Decode(payload).Ok? && parseClaims(Base64Url.Decode(payload).value).None?
            <==> r == Err(ClaimsParseFailed)
    ensures Base64Url.Decode(payload).Ok? && parseClaims(Base64Url.Decode(payload).value).Some?
            && parseClaims(Base64Url.Decode(payload).value).value.sub == ""
            <==> r == Err(SubClaimMissing)
    ensures r.Ok? ==> r.value == parseClaims(Base64Url.Decode(payload).value).value.sub
    ensures r.Ok? ==> r.value != ""
  {
    match Base64Url.Decode(payload)
      case Err(_) => Err(PayloadDecodeFailed)
      case Ok(bytes) =>
        match parseClaims(bytes)
        case None => Err(ClaimsParseFailed)
        case Some(claims) => if claims.sub == "" then Err(SubClaimMissing) else Ok(claims.sub)
  }

  /**
    `extractOwnerFromToken`: split the JWS compact serialisation on `.`, refuse
    anything but three segments, and read the owner from the middle one.
  */
  function ExtractOwnerFromToken(accessToken: string, parseClaims: seq<byte> -> Option<Claims>): (r: Result<string, OwnerError>)
    ensures Count(accessToken, '.') != 2 <==> r == Err(InvalidJwtFormat)
    ensures r.Ok? ==> r.value != ""
  {
    var parts := Split(accessToken, '.');
    SplitCount(accessToken, '.');
    if |parts| != 3 then Err(InvalidJwtFormat) else OwnerOfPayload(parts[1], parseClaims)
  }

  /** Only the middle segment matters: header and signature never change the owner. */
  lemma OwnerIgnoresHeaderAndSignature(header: string, payload: string, signature: string,
                                       parseClaims: seq<byte> -> Option<Claims>)
    requires '.' !in header && '.' !in payload && '.' !in signature
    ensures ExtractOwnerFromToken(header + "." + payload + "." + signature, parseClaims)
         == OwnerOfPayload(payload, parseClaims)
  {
    SplitThree(header, payload, signature, '.');
  }

  /** A padded middle segment, or one with any character outside the alphabet, is a decoding error. */
  lemma PayloadOutsideAlphabetRejected(payload: string, c: char, parseClaims: seq<byte> -> Option<Claims>)
    requires c in payload && !Base64Url.IsSymbol(c) && c != '\n' && c != '\r'
    ensures OwnerOfPayload(payload, parseClaims) == Err(PayloadDecodeFailed)
  {
    Base64Url.ForeignCharacterRejected(payload, c);
  }

  /** A token whose middle segment is the unpadded base64url encoding of claims with a non-empty `sub` yields that `sub`. */
  lemma OwnerOfEncodedClaims(header: string, claimBytes: seq<byte>, signature: string,
                             parseClaims: seq<byte> -> Option<Claims>)
    requires '.' !in header && '.' !in signature
    requires parseClaims(claimBytes).Some? && parseClaims(claimBytes).value.sub != ""
    ensures ExtractOwnerFromToken(header + "." + Base64Url.Encode(claimBytes) + "." + signature, parseClaims)
         == Ok(parseClaims(claimBytes).value.sub)
  {
    var payload := Base64Url.Encode(claimBytes);
    assert !Base64Url.IsSymbol('.') && !Base64Url.IsSymbol('=');
    assert '.' !in payload && '=' !in payload;
    Base64Url.DecodeEncode(claimBytes);
    OwnerIgnoresHeaderAndSignature(header, payload, signature, parseClaims);
  }
}
