/**
  api/client.go: the client of the secrets API. Every request goes to the
  base URL followed by a path, carries the access token as a bearer token
  (section 2.1 of RFC 6750) and a JSON content type; each call accepts only
  its own success statuses. The HTTP round trip and JSON decoding are
  parameters. The file also repeats the owner extraction of config/config.go.
*/
module Api {
  import opened Wrappers
  import opened Text
  import Base64Url
  import Config
  import TokenExchange

  /** `Client`: the base URL and the access token, set once by `NewClient`. */
  datatype Client = Client(baseUrl: string, token: string)

  /** A stored secret as the API returns it. */
  datatype Egg = Egg(owner: string, secretId: string, plaintext: string, createdAt: string)

  /** A request body: nothing, or the JSON object of `PutEggRequest`. */
  datatype Body = NoBody | PutEggBody(secretId: string, plaintext: string)

  datatype ApiRequest = ApiRequest(verb: string, url: string, headers: seq<(string, string)>, body: Body)

  datatype ApiError =
    | RequestFailed
    | UnexpectedStatus(status: int, body: seq<byte>)
    | DecodeFailed
    | NotImplemented

  /** The HTTP round trip: None when the request cannot be built or sent. */
  type Transport = ApiRequest -> Option<TokenExchange.HttpResponse>

  /** The value of the first header named `name`, or "". */
  function Header(headers: seq<(string, string)>, name: string): string
  {
    if |headers| == 0 then "" else if headers[0].0 == name then headers[0].1 else Header(headers[1..], name)
  }

  /** `doRequest`: the URL is the base URL and the path concatenated, unescaped; two headers are set. */
  function Request(c: Client, verb: string, path: string, body: Body): (req: ApiRequest)
    ensures req.verb == verb && req.body == body
    ensures |req.url| == |c.baseUrl| + |path| && req.url[..|c.baseUrl|] == c.baseUrl && req.url[|c.baseUrl|..] == path
    ensures Header(req.headers, "Authorization") == "Bearer " + c.token
    ensures Header(req.headers, "Content-Type") == "application/json"
    ensures |req.headers| == 2
  {
    ApiRequest(verb, c.baseUrl + path, [("Authorization", "Bearer " + c.token), ("Content-Type", "application/json")], body)
  }

  /** The request `PutEgg` sends: the owner is not part of it. */
  function PutEggRequest(c: Client, key: string, value: string): ApiRequest
  {
    Request(c, "POST", "/eggs", PutEggBody(key, value))
  }

  /** `PutEgg`: succeeds exactly on status 200 or 201; the owner argument is not used. */
  function PutEgg(c: Client, owner: string, key: string, value: string, send: Transport): (r: Result<(), ApiError>)
    ensures send(PutEggRequest(c, key, value)).None? <==> r == Err(RequestFailed)
    ensures r.Ok? <==> send(PutEggRequest(c, key, value)).Some?
                       && send(PutEggRequest(c, key, value)).value.status in {200, 201}
  {
    match send(PutEggRequest(c, key, value))
    case None => Err(RequestFailed)
    case Some(resp) =>
      if resp.status != 200 && resp.status != 201 then Err(UnexpectedStatus(resp.status, resp.body)) else Ok(())
  }

  /** The request body holds only the secret's id and value, whoever the owner is. */
  lemma PutEggIgnoresOwner(c: Client, owner1: string, owner2: string, key: string, value: string, send: Transport)
    ensures PutEgg(c, owner1, key, value, send) == PutEgg(c, owner2, key, value, send)
    ensures PutEggRequest(c, key, value).body == PutEggBody(key, value)
  {
  }

  function GetEggRequest(c: Client, owner: string): ApiRequest
  {
    Request(c, "GET", "/eggs/" + owner, NoBody)
  }

  /** `GetEgg`: every secret of `owner`; only status 200 is accepted, and the body must decode. */
  function GetEgg(c: Client, owner: string, send: Transport, parseEggs: seq<byte> -> Option<seq<Egg>>)
    : (r: Result<seq<Egg>, ApiError>)
    ensures send(GetEggRequest(c, owner)).None? <==> r == Err(RequestFailed)
    ensures r.Ok? <==> send(GetEggRequest(c, owner)).Some? && send(GetEggRequest(c, owner)).value.status == 200
                       && parseEggs(send(GetEggRequest(c, owner)).value.body).Some?
    ensures r.Ok? ==> r.value == parseEggs(send(GetEggRequest(c, owner)).value.body).value
  {
    match send(GetEggRequest(c, owner))
    case None => Err(RequestFailed)
    case Some(resp) =>
      if resp.status != 200 then Err(UnexpectedStatus(resp.status, resp.body))
      else match parseEggs(resp.body)
        case None => Err(DecodeFailed)
        case Some(eggs) => Ok(eggs)
  }

  function BreakEggRequest(c: Client, owner: string, secretId: string): ApiRequest
  {
    Request(c, "DELETE", "/eggs/" + owner + "/" + secretId, NoBody)
  }

  /** `BreakEgg`: deletes one secret; only status 200 is accepted. */
  function BreakEgg(c: Client, owner: string, secretId: string, send: Transport): (r: Result<(), ApiError>)
    ensures send(BreakEggRequest(c, owner, secretId)).None? <==> r == Err(RequestFailed)
    ensures r.Ok? <==> send(BreakEggRequest(c, owner, secretId)).Some?
                       && send(BreakEggRequest(c, owner, secretId)).value.status == 200
  {
    match send(BreakEggRequest(c, owner, secretId))
    case None => Err(RequestFailed)
    case Some(resp) => if resp.status != 200 then Err(UnexpectedStatus(resp.status, resp.body)) else Ok(())
  }

  /** Status 201 is a success for `PutEgg` only. */
  lemma CreatedAcceptedOnlyByPut(c: Client, owner: string, key: string, value: string, body: seq<byte>,
                                 parseEggs: seq<byte> -> Option<seq<Egg>>)
    ensures var send: Transport := _ => Some(TokenExchange.HttpResponse(201, body));
      && PutEgg(c, owner, key, value, send).Ok?
      && GetEgg(c, owner, send, parseEggs) == Err(UnexpectedStatus(201, body))
      && BreakEgg(c, owner, key, send) == Err(UnexpectedStatus(201, body))
  {
  }

  /** The three paths: `/eggs`, `/eggs/<owner>` and `/eggs/<owner>/<secret id>`, after the base URL. */
  lemma RequestPaths(c: Client, owner: string, key: string, value: string, secretId: string)
    ensures PutEggRequest(c, key, value).url == c.baseUrl + "/eggs"
    ensures GetEggRequest(c, owner).url == c.baseUrl + "/eggs/" + owner
    ensures BreakEggRequest(c, owner, secretId).url == c.baseUrl + "/eggs/" + owner + "/" + secretId
  {
  }

  /** `ListEggs` is a stub: it always fails. */
  function ListEggs(c: Client, owner: string): (r: Result<map<string, string>, ApiError>)
    ensures r.Err?
  {
    Err(NotImplemented)
  }

  /** `ExtractOwnerFromToken`, this file's own copy of the JWT owner extraction. */
  function ExtractOwnerFromToken(accessToken: string, parseClaims: seq<byte> -> Option<Config.Claims>)
    : (r: Result<string, Config.OwnerError>)
    ensures r.Ok? ==> r.value != ""
  {
    var parts := Split(accessToken, '.');
    if |parts| != 3 then Err(Config.InvalidJwtFormat)
    else match Base64Url.Decode(parts[1])
      case Err(_) => Err(Config.PayloadDecodeFailed)
      case Ok(payload) =>
        match parseClaims(payload)
        case None => Err(Config.ClaimsParseFailed)
        case Some(claims) => if claims.sub == "" then Err(Config.SubClaimMissing) else Ok(claims.sub)
  }

  /** The copy agrees with the configuration package's extraction on every token. */
  lemma ExtractOwnerAgrees(accessToken: string, parseClaims: seq<byte> -> Option<Config.Claims>)
    ensures ExtractOwnerFromToken(accessToken, parseClaims) == Config.ExtractOwnerFromToken(accessToken, parseClaims)
  {
  }
}
