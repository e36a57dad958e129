/**
  commands/token.go and the token-file side of config/config.go: the stored
  credentials, the refresh-if-expired decision taken before every API call,
  and reading the owner out of the stored access token.
*/
module Session {
  import opened Wrappers
  import opened Text
  import Config
  import TokenExchange
  import Api

  /**
    The credentials file. `file` is what `LoadTokens` yields: None when the
    file is missing, unreadable or not valid JSON. `writable` says whether
    `SaveTokens` would succeed.
  */
  class CredentialStore {
    var file: Option<Config.TokenData>
    var writable: bool

    constructor (file: Option<Config.TokenData>, writable: bool)
      ensures this.file == file && this.writable == writable
    {
      this.file := file;
      this.writable := writable;
    }

    /** `LoadTokens`. */
    method Load() returns (t: Option<Config.TokenData>)
      ensures t == file
    {
      t := file;
    }

    /** `SaveTokens`: replaces the stored record when the file can be written, and leaves it as it was otherwise. */
    method Save(t: Config.TokenData) returns (ok: bool)
      modifies this
      ensures ok == writable && writable == old(writable)
      ensures file == (if ok then Some(t) else old(file))
    {
      ok := writable;
      if writable {
        file := Some(t);
      }
    }

    /**
      `GetOwner`: the stored record is read again and the owner taken from its
      access token.
    */
    method Owner(parseClaims: seq<byte> -> Option<Config.Claims>) returns (r: Result<string, OwnerLookupError>)
      ensures file.None? <==> r == Err(TokensUnavailable)
      ensures file.Some? ==> r == OwnerOfRecord(file.value, parseClaims)
      ensures r.Ok? ==> r.value != ""
    {
      var tokens := Load();
      if tokens.None? {
        return Err(TokensUnavailable);
      }
      r := OwnerOfRecord(tokens.value, parseClaims);
    }
  }

  datatype OwnerLookupError = TokensUnavailable | InvalidToken(reason: Config.OwnerError)

  /** The owner of a loaded record, with the extraction error wrapped. */
  function OwnerOfRecord(t: Config.TokenData, parseClaims: seq<byte> -> Option<Config.Claims>)
    : (r: Result<string, OwnerLookupError>)
    ensures r.Ok? <==> Config.ExtractOwnerFromToken(t.accessToken, parseClaims).Ok?
    ensures r.Ok? ==> r.value == Config.ExtractOwnerFromToken(t.accessToken, parseClaims).value
    ensures r.Err? ==> r.error == InvalidToken(Config.ExtractOwnerFromToken(t.accessToken, parseClaims).error)
  {
    match Config.ExtractOwnerFromToken(t.accessToken, parseClaims)
    case Ok(owner) => Ok(owner)
    case Err(e) => Err(InvalidToken(e))
  }

  /** A call the CLI makes over the network, in the order it makes them. */
  datatype Call =
    | RefreshCall(tokenUrl: string, clientId: string, refreshToken: string)
    | ApiCall(request: Api.ApiRequest)

  /**
    The token endpoint and the secrets API as the CLI sees them: how each
    answers, and the log of the calls made to them.
  */
  class Network {
    const post: TokenExchange.TokenRequest -> Option<TokenExchange.HttpResponse>
    const parse: seq<byte> -> Option<TokenExchange.TokenResponse>
    const send: Api.Transport
    var log: seq<Call>

    constructor (post: TokenExchange.TokenRequest -> Option<TokenExchange.HttpResponse>,
                 parse: seq<byte> -> Option<TokenExchange.TokenResponse>, send: Api.Transport)
      ensures this.post == post && this.parse == parse && this.send == send && log == []
    {
      this.post := post;
      this.parse := parse;
      this.send := send;
      log := [];
    }

    /** `auth.RefreshAccessToken`, logging the (token URL, client id, refresh token) it is called with. */
    method Refresh(tokenUrl: string, clientId: string, refreshToken: string, now: int)
      returns (r: Result<Config.TokenData, TokenExchange.TokenError>)
      modifies this
      ensures log == old(log) + [RefreshCall(tokenUrl, clientId, refreshToken)]
      ensures r == TokenExchange.RefreshAccessToken(tokenUrl, clientId, refreshToken, post, parse, now)
    {
      log := log + [RefreshCall(tokenUrl, clientId, refreshToken)];
      r := TokenExchange.RefreshAccessToken(tokenUrl, clientId, refreshToken, post, parse, now);
    }

    /** `client.GetEgg(owner)`, logging the request it sends. */
    method FetchEggs(c: Api.Client, owner: string, parseEggs: seq<byte> -> Option<seq<Api.Egg>>)
      returns (r: Result<seq<Api.Egg>, Api.ApiError>)
      modifies this
      ensures log == old(log) + [ApiCall(Api.GetEggRequest(c, owner))]
      ensures r == Api.GetEgg(c, owner, send, parseEggs)
    {
      log := log + [ApiCall(Api.GetEggRequest(c, owner))];
      r := Api.GetEgg(c, owner, send, parseEggs);
    }
  }

  datatype SessionError = NotLoggedIn | RefreshFailed | SaveFailed

  /** Whether the stored record has to be refreshed at time `now`. */
  predicate NeedsRefresh(stored: Option<Config.TokenData>, now: int)
  {
    stored.Some? && !Config.IsTokenValid(stored.value, now)
  }

  /** The refresh call `ensureValidToken` makes: one when the stored record needs refreshing, none otherwise. */
  function RefreshCalls(cfg: Config.Config, stored: Option<Config.TokenData>, now: int): (calls: seq<Call>)
    ensures |calls| <= 1
    ensures |calls| == 1 <==> NeedsRefresh(stored, now)
    ensures |calls| == 1 ==> calls[0] == RefreshCall(Config.TokenUrl(cfg), cfg.cognito.clientId, stored.value.refreshToken)
  {
    if NeedsRefresh(stored, now) then [RefreshCall(Config.TokenUrl(cfg), cfg.cognito.clientId, stored.value.refreshToken)] else []
  }

  /**
    What `ensureValidToken` returns, from the stored record, whether saving
    works, the token endpoint's behaviour, the clock at the validity check
    (`now`) and the clock when the refreshed record is stamped (`refreshedAt`).
  */
  function ValidTokenOutcome(stored: Option<Config.TokenData>, writable: bool, cfg: Config.Config,
                             post: TokenExchange.TokenRequest -> Option<TokenExchange.HttpResponse>,
                             parse: seq<byte> -> Option<TokenExchange.TokenResponse>,
                             now: int, refreshedAt: int): Result<Config.TokenData, SessionError>
  {
    if stored.None? then Err(NotLoggedIn)
    else if Config.IsTokenValid(stored.value, now) then Ok(stored.value)
    else
      match TokenExchange.RefreshAccessToken(Config.TokenUrl(cfg), cfg.cognito.clientId, stored.value.refreshToken,
                                             post, parse, refreshedAt)
      case Err(_) => Err(RefreshFailed)
      case Ok(renewed) => if writable then Ok(renewed) else Err(SaveFailed)
  }

  /**
    The outcome's cases: not logged in exactly when nothing is stored; a
    valid record comes back as stored; otherwise the result is the refreshed
    record when the refresh and the save succeed, and an error naming the
    step that failed when not.
  */
  lemma ValidTokenOutcomeCases(stored: Option<Config.TokenData>, writable: bool, cfg: Config.Config,
                               post: TokenExchange.TokenRequest -> Option<TokenExchange.HttpResponse>,
                               parse: seq<byte> -> Option<TokenExchange.TokenResponse>,
                               now: int, refreshedAt: int)
    ensures var r := ValidTokenOutcome(stored, writable, cfg, post, parse, now, refreshedAt);
      var refreshed := TokenExchange.RefreshAccessToken(Config.TokenUrl(cfg), cfg.cognito.clientId,
                                                        if stored.Some? then stored.value.refreshToken else "",
                                                        post, parse, refreshedAt);
      && (r == Err(NotLoggedIn) <==> stored.None?)
      && (stored.Some? && !NeedsRefresh(stored, now) ==> r == Ok(stored.value))
      && (NeedsRefresh(stored, now) ==> (r == Err(RefreshFailed) <==> refreshed.Err?))
      && (NeedsRefresh(stored, now) ==> (r == Err(SaveFailed) <==> refreshed.Ok? && !writable))
      && (NeedsRefresh(stored, now) && r.Ok? ==> refreshed.Ok? && r.value == refreshed.value && r.value.issuedAt == refreshedAt)
  {
  }

  /**
    Whatever is returned is valid at the time of the check, unless it is a
    freshly refreshed record whose lifetime is below the safety margin
    (provided the clock does not run backwards between the check and the
    refresh).
  */
  lemma OutcomeIsValid(stored: Option<Config.TokenData>, writable: bool, cfg: Config.Config,
                       post: TokenExchange.TokenRequest -> Option<TokenExchange.HttpResponse>,
                       parse: seq<byte> -> Option<TokenExchange.TokenResponse>,
                       now: int, refreshedAt: int)
    requires now <= refreshedAt
    ensures var r := ValidTokenOutcome(stored, writable, cfg, post, parse, now, refreshedAt);
      r.Ok? ==> Config.IsTokenValid(r.value, now) || r.value.expiresIn < Config.Skew
  {
  }

  /**
    `ensureValidToken`. A load failure returns "not logged in" and touches
    nothing. A valid record is returned without a refresh or a save.
    Otherwise exactly one refresh is requested, with the configured token
    URL, the client id and the stored refresh token; a failed refresh leaves
    the store as it was; a refreshed record is saved before it is returned,
    and on success the store holds exactly the record returned.
  */
  method EnsureValidToken(cfg: Config.Config, store: CredentialStore, net: Network, now: int, refreshedAt: int)
    returns (r: Result<Config.TokenData, SessionError>)
    modifies store, net
    ensures r == ValidTokenOutcome(old(store.file), old(store.writable), cfg, net.post, net.parse, now, refreshedAt)
    ensures net.log == old(net.log) + RefreshCalls(cfg, old(store.file), now)
    ensures store.writable == old(store.writable)
    ensures store.file == (if NeedsRefresh(old(store.file), now) && r.Ok? then Some(r.value) else old(store.file))
    ensures r.Ok? ==> store.file == Some(r.value)
  {
    var tokens := store.Load();
    if tokens.None? {
      return Err(NotLoggedIn);
    }
    if Config.IsTokenValid(tokens.value, now) {
      return Ok(tokens.value);
    }
    var refreshed := net.Refresh(Config.TokenUrl(cfg), cfg.cognito.clientId, tokens.value.refreshToken, refreshedAt);
    if refreshed.Err? {
      return Err(RefreshFailed);
    }
    var saved := store.Save(refreshed.value);
    if !saved {
      return Err(SaveFailed);
    }
    r := Ok(refreshed.value);
  }

  datatype FetchError =
    | TokenFailed(tokenError: SessionError)
    | OwnerFailed(ownerError: OwnerLookupError)
    | FetchFailed(apiError: Api.ApiError)

  /**
    The secrets every reading command starts from: the token check, the
    owner read back from the record then on file, and that owner's eggs
    fetched with the checked access token.
  */
  function FetchOutcome(stored: Option<Config.TokenData>, writable: bool, cfg: Config.Config,
                        post: TokenExchange.TokenRequest -> Option<TokenExchange.HttpResponse>,
                        parse: seq<byte> -> Option<TokenExchange.TokenResponse>, send: Api.Transport,
                        now: int, refreshedAt: int, parseClaims: seq<byte> -> Option<Config.Claims>,
                        parseEggs: seq<byte> -> Option<seq<Api.Egg>>): Result<seq<Api.Egg>, FetchError>
  {
    match ValidTokenOutcome(stored, writable, cfg, post, parse, now, refreshedAt)
    case Err(e) => Err(TokenFailed(e))
    case Ok(tokens) =>
      match OwnerOfRecord(tokens, parseClaims)
      case Err(e) => Err(OwnerFailed(e))
      case Ok(owner) =>
        match Api.GetEgg(Api.Client(cfg.apiEndpoint, tokens.accessToken), owner, send, parseEggs)
        case Err(e) => Err(FetchFailed(e))
        case Ok(eggs) => Ok(eggs)
  }

  /** The calls made on the way: the refresh if one is needed, then the fetch once an owner is known. */
  function FetchCalls(stored: Option<Config.TokenData>, writable: bool, cfg: Config.Config,
                      post: TokenExchange.TokenRequest -> Option<TokenExchange.HttpResponse>,
                      parse: seq<byte> -> Option<TokenExchange.TokenResponse>,
                      now: int, refreshedAt: int, parseClaims: seq<byte> -> Option<Config.Claims>): seq<Call>
  {
    RefreshCalls(cfg, stored, now)
    + match ValidTokenOutcome(stored, writable, cfg, post, parse, now, refreshedAt)
      case Err(_) => []
      case Ok(tokens) =>
        match OwnerOfRecord(tokens, parseClaims)
        case Err(_) => []
        case Ok(owner) => [ApiCall(Api.GetEggRequest(Api.Client(cfg.apiEndpoint, tokens.accessToken), owner))]
  }

  /**
    The fetch comes after any refresh, goes to the owner's path and carries
    the access token the token check returned; it is made exactly when the
    token check and the owner lookup succeed, and its answer decides the
    outcome from there.
  */
  lemma FetchUsesCheckedToken(stored: Option<Config.TokenData>, writable: bool, cfg: Config.Config,
                              post: TokenExchange.TokenRequest -> Option<TokenExchange.HttpResponse>,
                              parse: seq<byte> -> Option<TokenExchange.TokenResponse>, send: Api.Transport,
                              now: int, refreshedAt: int, parseClaims: seq<byte> -> Option<Config.Claims>,
                              parseEggs: seq<byte> -> Option<seq<Api.Egg>>)
    ensures var t := ValidTokenOutcome(stored, writable, cfg, post, parse, now, refreshedAt);
      var calls := FetchCalls(stored, writable, cfg, post, parse, now, refreshedAt, parseClaims);
      var out := FetchOutcome(stored, writable, cfg, post, parse, send, now, refreshedAt, parseClaims, parseEggs);
      var fetched := t.Ok? && OwnerOfRecord(t.value, parseClaims).Ok?;
      && calls[..|RefreshCalls(cfg, stored, now)|] == RefreshCalls(cfg, stored, now)
      && (fetched <==> |calls| == |RefreshCalls(cfg, stored, now)| + 1)
      && (!fetched ==> calls == RefreshCalls(cfg, stored, now) && out.Err? && !out.error.FetchFailed?)
      && (fetched ==>
            var req := calls[|calls| - 1].request;
            var owner := OwnerOfRecord(t.value, parseClaims).value;
            && calls[|calls| - 1].ApiCall?
            && Api.Header(req.headers, "Authorization") == "Bearer " + t.value.accessToken
            && req.url == cfg.apiEndpoint + "/eggs/" + owner
            && (out.Ok? <==> Api.GetEgg(Api.Client(cfg.apiEndpoint, t.value.accessToken), owner, send, parseEggs).Ok?))
  {
  }

  /**
    Steps 2 to 5 of `runGet` and of `runRun`, which repeat
    `ensureValidToken` inline, then `GetOwner` and `GetEgg`.
  */
  method FetchOwnEggs(cfg: Config.Config, store: CredentialStore, net: Network, now: int, refreshedAt: int,
                      parseClaims: seq<byte> -> Option<Config.Claims>, parseEggs: seq<byte> -> Option<seq<Api.Egg>>)
    returns (r: Result<seq<Api.Egg>, FetchError>)
    modifies store, net
    ensures r == FetchOutcome(old(store.file), old(store.writable), cfg, net.post, net.parse, net.send,
                              now, refreshedAt, parseClaims, parseEggs)
    ensures net.log == old(net.log) + FetchCalls(old(store.file), old(store.writable), cfg, net.post, net.parse,
                                                 now, refreshedAt, parseClaims)
    ensures store.writable == old(store.writable)
    ensures var t := ValidTokenOutcome(old(store.file), old(store.writable), cfg, net.post, net.parse, now, refreshedAt);
      store.file == (if NeedsRefresh(old(store.file), now) && t.Ok? then Some(t.value) else old(store.file))
  {
    var tokens := EnsureValidToken(cfg, store, net, now, refreshedAt);
    if tokens.Err? {
      return Err(TokenFailed(tokens.error));
    }
    var owner := store.Owner(parseClaims);
    if owner.Err? {
      return Err(OwnerFailed(owner.error));
    }
    var eggs := net.FetchEggs(Api.Client(cfg.apiEndpoint, tokens.value.accessToken), owner.value, parseEggs);
    if eggs.Err? {
      return Err(FetchFailed(eggs.error));
    }
    r := Ok(eggs.value);
  }
}
