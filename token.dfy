/**
  auth/token.go: requests to the token endpoint. The authorization-code grant
  of section 4.1.3 of RFC 6749, with the `code_verifier` of section 4.5 of
  RFC 7636, and the refresh grant of section 6 of RFC 6749. Both post a
  form-encoded body, accept only status 200, and turn the response into a
  fresh `TokenData` stamped with the local clock. The HTTP round trip is a
  parameter: it either fails or yields a status and a body; JSON decoding of
  the body is a parameter as well.
*/
module TokenExchange {
  import opened Wrappers
  import opened Text
  import Url
  import Config

  /** The fields of the token endpoint's JSON response that the CLI reads. */
  datatype TokenResponse = TokenResponse(
    accessToken: string,
    idToken: string,
    refreshToken: string,
    expiresIn: int,
    tokenType: string)

  /** A request to the token endpoint. */
  datatype TokenRequest = TokenRequest(verb: string, url: string, contentType: string, body: string)

  datatype HttpResponse = HttpResponse(status: int, body: seq<byte>)

  datatype TokenError =
    | RequestFailed
    | Rejected(status: int, body: seq<byte>)
    | MalformedResponse

  const FormContentType: string := "application/x-www-form-urlencoded"
  const StatusOk: int := 200

  /** The `Set` calls of the code exchange, in the source's order. */
  function CodeExchangeSettings(clientId: string, code: string, redirectUri: string, codeVerifier: string): seq<(string, string)>
  {
    [("grant_type", "authorization_code"), ("client_id", clientId), ("code", code),
     ("redirect_uri", redirectUri), ("code_verifier", codeVerifier)]
  }

  function CodeExchangeForm(clientId: string, code: string, redirectUri: string, codeVerifier: string): Url.Values
  {
    Url.SetAll([], CodeExchangeSettings(clientId, code, redirectUri, codeVerifier))
  }

  /** The `Set` calls of the refresh, in the source's order. */
  function RefreshSettings(clientId: string, refreshToken: string): seq<(string, string)>
  {
    [("grant_type", "refresh_token"), ("client_id", clientId), ("refresh_token", refreshToken)]
  }

  function RefreshForm(clientId: string, refreshToken: string): Url.Values
  {
    Url.SetAll([], RefreshSettings(clientId, refreshToken))
  }

  /** Five `Set`s of keys a < b < c < d < e made in the order d, a, b, e, c. */
  lemma FiveSets(a: string, b: string, c: string, d: string, e: string,
                 xa: string, xb: string, xc: string, xd: string, xe: string)
    requires Less(a, b) && Less(b, c) && Less(c, d) && Less(d, e)
    ensures Url.SetAll([], [(d, xd), (a, xa), (b, xb), (e, xe), (c, xc)])
         == [(a, [xa]), (b, [xb]), (c, [xc]), (d, [xd]), (e, [xe])]
    ensures Url.Sorted([(a, [xa]), (b, [xb]), (c, [xc]), (d, [xd]), (e, [xe])])
    ensures Url.Pairs([(a, [xa]), (b, [xb]), (c, [xc]), (d, [xd]), (e, [xe])])
         == [(a, xa), (b, xb), (c, xc), (d, xd), (e, xe)]
  {
    var A, B, C, D, E := (a, [xa]), (b, [xb]), (c, [xc]), (d, [xd]), (e, [xe]);
    LessTransitive(a, b, c);
    LessTransitive(a, c, d);
    LessTransitive(b, c, d);
    LessTransitive(a, d, e);
    LessTransitive(b, d, e);
    assert [(d, xd), (a, xa), (b, xb), (e, xe), (c, xc)] == [(d, xd), (a, xa)] + [(b, xb), (e, xe), (c, xc)];
    FirstTwoSets(a, d, xa, xd, [(b, xb), (e, xe), (c, xc)]);
    LastThreeOfFive(A, B, C, D, E, xb, xc, xe);
    Url.ChainSorted([A, B, C, D, E]);
    Url.PairsOfSingletons([A, B, C, D, E]);
  }

  /** The first two `Set`s of the code-exchange form: a key after the one already set. */
  lemma FirstTwoSets(a: string, d: string, xa: string, xd: string, rest: seq<(string, string)>)
    requires Less(a, d)
    ensures Url.SetAll([], [(d, xd), (a, xa)] + rest) == Url.SetAll([(a, [xa]), (d, [xd])], rest)
  {
    var A, D := (a, [xa]), (d, [xd]);
    assert [(d, xd), (a, xa)] + rest == [(d, xd)] + ([(a, xa)] + rest);
    assert Url.SetAll([], [(d, xd)] + ([(a, xa)] + rest)) == Url.SetAll([D], [(a, xa)] + rest) by {
      Url.SetAllInsert([], 0, d, xd, [(a, xa)] + rest);
      assert [][..0] + [D] + [][0..] == [D];
    }
    assert Url.SetAll([D], [(a, xa)] + rest) == Url.SetAll([A, D], rest) by {
      Url.SetAllInsert([D], 0, a, xa, rest);
      assert [D][..0] + [A] + [D][0..] == [A, D];
    }
  }

  /** The last three `Set`s of the code-exchange form, each placing its key among those present. */
  lemma LastThreeOfFive(A: (string, seq<string>), B: (string, seq<string>), C: (string, seq<string>),
                        D: (string, seq<string>), E: (string, seq<string>), xb: string, xc: string, xe: string)
    requires B.1 == [xb] && C.1 == [xc] && E.1 == [xe]
    requires Less(A.0, B.0) && Less(B.0, C.0) && Less(C.0, D.0) && Less(D.0, E.0)
    requires Less(A.0, C.0) && Less(A.0, D.0) && Less(A.0, E.0) && Less(B.0, D.0) && Less(B.0, E.0)
    ensures Url.SetAll([A, D], [(B.0, xb), (E.0, xe), (C.0, xc)]) == [A, B, C, D, E]
  {
    assert [(B.0, xb), (E.0, xe), (C.0, xc)] == [(B.0, xb)] + ([(E.0, xe)] + ([(C.0, xc)] + []));
    assert Url.SetAll([A, D], [(B.0, xb)] + ([(E.0, xe)] + ([(C.0, xc)] + [])))
        == Url.SetAll([A, B, D], [(E.0, xe)] + ([(C.0, xc)] + [])) by {
      Url.SetAllInsert([A, D], 1, B.0, xb, [(E.0, xe)] + ([(C.0, xc)] + []));
      assert [A, D][..1] + [B] + [A, D][1..] == [A, B, D];
    }
    assert Url.SetAll([A, B, D], [(E.0, xe)] + ([(C.0, xc)] + [])) == Url.SetAll([A, B, D, E], [(C.0, xc)] + []) by {
      Url.SetAllInsert([A, B, D], 3, E.0, xe, [(C.0, xc)] + []);
      assert [A, B, D][..3] + [E] + [A, B, D][3..] == [A, B, D, E];
    }
    assert Url.SetAll([A, B, D, E], [(C.0, xc)] + []) == [A, B, C, D, E] by {
      Url.SetAllInsert([A, B, D, E], 2, C.0, xc, []);
      assert [A, B, D, E][..2] + [C] + [A, B, D, E][2..] == [A, B, C, D, E];
    }
  }

  /** Three `Set`s of keys a < b < c made in the order b, a, c. */
  lemma ThreeSets(a: string, b: string, c: string, xa: string, xb: string, xc: string)
    requires Less(a, b) && Less(b, c)
    ensures Url.SetAll([], [(b, xb), (a, xa), (c, xc)]) == [(a, [xa]), (b, [xb]), (c, [xc])]
    ensures Url.Sorted([(a, [xa]), (b, [xb]), (c, [xc])])
    ensures Url.Pairs([(a, [xa]), (b, [xb]), (c, [xc])]) == [(a, xa), (b, xb), (c, xc)]
  {
    var A, B, C := (a, [xa]), (b, [xb]), (c, [xc]);
    LessTransitive(a, b, c);
    assert [(b, xb), (a, xa), (c, xc)] == [(b, xb)] + ([(a, xa)] + ([(c, xc)] + []));
    assert Url.SetAll([], [(b, xb)] + ([(a, xa)] + ([(c, xc)] + []))) == Url.SetAll([B], [(a, xa)] + ([(c, xc)] + [])) by {
      Url.SetAllInsert([], 0, b, xb, [(a, xa)] + ([(c, xc)] + []));
      assert [][..0] + [B] + [][0..] == [B];
    }
    assert Url.SetAll([B], [(a, xa)] + ([(c, xc)] + [])) == Url.SetAll([A, B], [(c, xc)] + []) by {
      Url.SetAllInsert([B], 0, a, xa, [(c, xc)] + []);
      assert [B][..0] + [A] + [B][0..] == [A, B];
    }
    assert Url.SetAll([A, B], [(c, xc)] + []) == [A, B, C] by {
      Url.SetAllInsert([A, B], 2, c, xc, []);
      assert [A, B][..2] + [C] + [A, B][2..] == [A, B, C];
    }
    Url.ChainSorted([A, B, C]);
    Url.PairsOfSingletons([A, B, C]);
  }

  /** The code-exchange form's pairs in the order `Encode` writes them. */
  function CodeExchangePairs(clientId: string, code: string, redirectUri: string, codeVerifier: string): seq<(string, string)>
  {
    [("client_id", clientId), ("code", code), ("code_verifier", codeVerifier),
     ("grant_type", "authorization_code"), ("redirect_uri", redirectUri)]
  }

  /**
    The code-exchange form holds exactly `client_id`, `code`, `code_verifier`,
    `grant_type=authorization_code` and `redirect_uri`, one value each, and
    its encoding decodes back to exactly those pairs.
  */
  lemma CodeExchangeFormContents(clientId: string, code: string, redirectUri: string, codeVerifier: string)
    ensures CodeExchangeForm(clientId, code, redirectUri, codeVerifier)
         == [("client_id", [clientId]), ("code", [code]), ("code_verifier", [codeVerifier]),
             ("grant_type", ["authorization_code"]), ("redirect_uri", [redirectUri])]
    ensures Url.Sorted(CodeExchangeForm(clientId, code, redirectUri, codeVerifier))
    ensures Url.DecodeForm(Url.Encode(CodeExchangeForm(clientId, code, redirectUri, codeVerifier)))
         == Some(Url.Utf8Pairs(CodeExchangePairs(clientId, code, redirectUri, codeVerifier)))
  {
    assert Less("client_id", "code") && Less("code", "code_verifier");
    assert Less("code_verifier", "grant_type") && Less("grant_type", "redirect_uri");
    FiveSets("client_id", "code", "code_verifier", "grant_type", "redirect_uri",
             clientId, code, codeVerifier, "authorization_code", redirectUri);
    Url.DecodeEncodedPairs(CodeExchangePairs(clientId, code, redirectUri, codeVerifier));
  }

  /** The refresh form holds exactly `client_id`, `grant_type=refresh_token` and `refresh_token`, one value each. */
  lemma RefreshFormContents(clientId: string, refreshToken: string)
    ensures RefreshForm(clientId, refreshToken)
         == [("client_id", [clientId]), ("grant_type", ["refresh_token"]), ("refresh_token", [refreshToken])]
    ensures Url.Sorted(RefreshForm(clientId, refreshToken))
    ensures Url.DecodeForm(Url.Encode(RefreshForm(clientId, refreshToken)))
         == Some(Url.Utf8Pairs([("client_id", clientId), ("grant_type", "refresh_token"), ("refresh_token", refreshToken)]))
  {
    assert Less("client_id", "grant_type") && Less("grant_type", "refresh_token");
    ThreeSets("client_id", "grant_type", "refresh_token", clientId, "refresh_token", refreshToken);
    Url.DecodeEncodedPairs([("client_id", clientId), ("grant_type", "refresh_token"), ("refresh_token", refreshToken)]);
  }

  /** The request both grants send: a form-encoded POST to the token endpoint. */
  function FormRequest(tokenUrl: string, form: Url.Values): (req: TokenRequest)
    ensures req.verb == "POST" && req.url == tokenUrl && req.contentType == FormContentType
    ensures req.body == Url.Encode(form)
  {
    TokenRequest("POST", tokenUrl, FormContentType, Url.Encode(form))
  }

  /** The new record: every field copied from the response, the issue time read from the local clock. */
  function ToTokenData(resp: TokenResponse, now: int): (t: Config.TokenData)
    ensures t.accessToken == resp.accessToken && t.idToken == resp.idToken
    ensures t.refreshToken == resp.refreshToken && t.expiresIn == resp.expiresIn
    ensures t.tokenType == resp.tokenType && t.issuedAt == now
  {
    Config.TokenData(resp.accessToken, resp.idToken, resp.refreshToken, resp.expiresIn, resp.tokenType, now)
  }

  /**
    The response handling both grants share: any status but 200 is a
    rejection carrying the status and body, an unparsable body is an error,
    and otherwise the parsed response becomes the new record.
  */
  function HandleTokenResponse(response: HttpResponse, parse: seq<byte> -> Option<TokenResponse>, now: int)
    : (r: Result<Config.TokenData, TokenError>)
    ensures response.status != StatusOk <==> r == Err(Rejected(response.status, response.body))
    ensures response.status == StatusOk && parse(response.body).None? <==> r == Err(MalformedResponse)
    ensures r.Ok? <==> response.status == StatusOk && parse(response.body).Some?
    ensures r.Ok? ==> r.value == ToTokenData(parse(response.body).value, now)
  {
    if response.status != StatusOk then Err(Rejected(response.status, response.body))
    else match parse(response.body)
      case None => Err(MalformedResponse)
      case Some(resp) => Ok(ToTokenData(resp, now))
  }

  /** Status 201, though a success status, is refused like any other status but 200. */
  lemma CreatedIsRejected(body: seq<byte>, parse: seq<byte> -> Option<TokenResponse>, now: int)
    ensures HandleTokenResponse(HttpResponse(201, body), parse, now).Err?
  {
  }

  /**
    `ExchangeCodeForTokens`. `post` is the HTTP round trip: None when the
    request cannot be built, sent or its body read.
  */
  function ExchangeCodeForTokens(tokenUrl: string, clientId: string, code: string, redirectUri: string,
                                 codeVerifier: string, post: TokenRequest -> Option<HttpResponse>,
                                 parse: seq<byte> -> Option<TokenResponse>, now: int)
    : (r: Result<Config.TokenData, TokenError>)
    ensures var req := FormRequest(tokenUrl, CodeExchangeForm(clientId, code, redirectUri, codeVerifier));
      && (post(req).None? <==> r == Err(RequestFailed))
      && (post(req).Some? ==> r == HandleTokenResponse(post(req).value, parse, now))
    ensures r.Ok? ==> r.value.issuedAt == now
  {
    var req := FormRequest(tokenUrl, CodeExchangeForm(clientId, code, redirectUri, codeVerifier));
    match post(req)
    case None => Err(RequestFailed)
    case Some(response) => HandleTokenResponse(response, parse, now)
  }

  /** `RefreshAccessToken`: the same round trip and handling with the refresh form. */
  function RefreshAccessToken(tokenUrl: string, clientId: string, refreshToken: string,
                              post: TokenRequest -> Option<HttpResponse>,
                              parse: seq<byte> -> Option<TokenResponse>, now: int)
    : (r: Result<Config.TokenData, TokenError>)
    ensures var req := FormRequest(tokenUrl, RefreshForm(clientId, refreshToken));
      && (post(req).None? <==> r == Err(RequestFailed))
      && (post(req).Some? ==> r == HandleTokenResponse(post(req).value, parse, now))
    ensures r.Ok? ==> r.value.issuedAt == now
  {
    var req := FormRequest(tokenUrl, RefreshForm(clientId, refreshToken));
    match post(req)
    case None => Err(RequestFailed)
    case Some(response) => HandleTokenResponse(response, parse, now)
  }

  /** The two grants differ only in the form they send: on the same response they give the same result. */
  lemma GrantsShareResponseHandling(tokenUrl: string, clientId: string, code: string, redirectUri: string,
                                    codeVerifier: string, refreshToken: string,
                                    post: TokenRequest -> Option<HttpResponse>,
                                    parse: seq<byte> -> Option<TokenResponse>, now: int)
    requires post(FormRequest(tokenUrl, CodeExchangeForm(clientId, code, redirectUri, codeVerifier)))
          == post(FormRequest(tokenUrl, RefreshForm(clientId, refreshToken)))
    ensures ExchangeCodeForTokens(tokenUrl, clientId, code, redirectUri, codeVerifier, post, parse, now)
         == RefreshAccessToken(tokenUrl, clientId, refreshToken, post, parse, now)
  {
  }
}
