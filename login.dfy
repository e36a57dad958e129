/**
  auth/login.go: the PKCE verifier and S256 challenge (sections 4.1 and 4.2
  of RFC 7636) and the authorization request URL (section 4.1.1 of RFC 6749
  with the parameters of section 4.3 of RFC 7636).
*/
module Pkce {
  import opened Wrappers
  import opened Text
  import Base64Url
  import Url

  /** A SHA-256 digest: 32 bytes. SHA-256 itself is a parameter of the model. */
  type Digest = d: seq<byte> | |d| == 32 witness seq(32, i => 0)

  /** Number of random bytes behind a verifier. */
  const EntropyBytes: nat := 32

  datatype PkceChallenge = PkceChallenge(verifier: string, challenge: string)

  datatype PkceError = EntropyUnavailable

  /** The verifier: the random bytes in unpadded base64url, 43 characters of the URL-safe alphabet for 32 bytes. */
  function Verifier(random: seq<byte>): (v: string)
    requires |random| == EntropyBytes
    ensures |v| == 43
    ensures forall i :: 0 <= i < |v| ==> Base64Url.IsSymbol(v[i])
    ensures Base64Url.Decode(v) == Ok(random)
  {
    Base64Url.DecodeEncode(random);
    Base64Url.Encode(random)
  }

  /** The S256 challenge: unpadded base64url of SHA-256 over the verifier's bytes; 43 characters. */
  function Challenge(verifier: string, sha256: seq<byte> -> Digest): (c: string)
    ensures |c| == 43
    ensures Base64Url.Decode(c) == Ok(sha256(Utf8(verifier)))
  {
    Base64Url.DecodeEncode(sha256(Utf8(verifier)));
    Base64Url.Encode(sha256(Utf8(verifier)))
  }

  /**
    `GeneratePKCEChallenge`. `random` is what the randomness source produced
    for the 32-byte buffer: None when it reported an error.
  */
  method GeneratePkceChallenge(random: Option<seq<byte>>, sha256: seq<byte> -> Digest)
    returns (r: Result<PkceChallenge, PkceError>)
    requires random.Some? ==> |random.value| == EntropyBytes
    ensures random.None? <==> r == Err(EntropyUnavailable)
    ensures r.Ok? ==> r.value.verifier == Base64Url.Encode(random.value)
    ensures r.Ok? ==> |r.value.verifier| == 43 && '=' !in r.value.verifier
    ensures r.Ok? ==> Base64Url.Decode(r.value.verifier) == Ok(random.value)
    ensures r.Ok? ==> r.value.challenge == Challenge(r.value.verifier, sha256)
  {
    if random.None? {
      return Err(EntropyUnavailable);
    }
    var verifier := Verifier(random.value);
    assert !Base64Url.IsSymbol('=');
    var challenge := Challenge(verifier, sha256);
    r := Ok(PkceChallenge(verifier, challenge));
  }

  /** The verifier is ASCII, so the bytes that are hashed are its characters one for one. */
  lemma VerifierBytes(random: seq<byte>)
    requires |random| == EntropyBytes
    ensures |Utf8(Verifier(random))| == 43
    ensures forall i :: 0 <= i < 43 ==> Utf8(Verifier(random))[i] == Verifier(random)[i] as int
  {
    var v := Verifier(random);
    forall i | 0 <= i < |v| ensures v[i] as int < 128 {
      assert Base64Url.Symbol(Base64Url.Value(v[i]).value) == v[i];
    }
    Utf8OfAscii(v);
  }

  /** The `Set` calls that build the authorization request's query, in the order the source makes them. */
  function AuthorizationSettings(clientId: string, redirectUri: string, codeChallenge: string): seq<(string, string)>
  {
    [("client_id", clientId), ("response_type", "code"), ("scope", "openid email profile"),
     ("redirect_uri", redirectUri), ("code_challenge", codeChallenge), ("code_challenge_method", "S256")]
  }

  function AuthorizationParams(clientId: string, redirectUri: string, codeChallenge: string): Url.Values
  {
    Url.SetAll([], AuthorizationSettings(clientId, redirectUri, codeChallenge))
  }

  /**
    `BuildAuthorizationURL`: the endpoint, `?`, and the form-encoded
    parameters. Form-decoding the query recovers exactly the caller's client
    id, redirect URI and challenge and the three fixed values
    `response_type=code`, `scope=openid email profile` and
    `code_challenge_method=S256`, in ascending key order; since escaped values
    hold no `&` or `=`, no value can add or alter a parameter.
  */
  function BuildAuthorizationUrl(authUrl: string, clientId: string, redirectUri: string, codeChallenge: string)
    : (url: string)
    ensures |url| > |authUrl| && url[..|authUrl| + 1] == authUrl + "?"
    ensures Url.DecodeForm(url[|authUrl| + 1..]) == Some(Url.Utf8Pairs(AuthorizationPairs(clientId, redirectUri, codeChallenge)))
  {
    var query := Url.Encode(AuthorizationParams(clientId, redirectUri, codeChallenge));
    QueryDecodes(clientId, redirectUri, codeChallenge);
    assert (authUrl + "?" + query)[|authUrl| + 1..] == query;
    authUrl + "?" + query
  }

  /** The encoded parameters decode to the six pairs in ascending key order. */
  lemma QueryDecodes(clientId: string, redirectUri: string, codeChallenge: string)
    ensures Url.DecodeForm(Url.Encode(AuthorizationParams(clientId, redirectUri, codeChallenge)))
         == Some(Url.Utf8Pairs(AuthorizationPairs(clientId, redirectUri, codeChallenge)))
  {
    AuthorizationParamsContents(clientId, redirectUri, codeChallenge);
    Url.DecodeEncodedPairs(AuthorizationPairs(clientId, redirectUri, codeChallenge));
  }

  /** The six parameters in the order `Encode` writes them: keys ascending, one value each. */
  function AuthorizationPairs(clientId: string, redirectUri: string, codeChallenge: string): seq<(string, string)>
  {
    [("client_id", clientId), ("code_challenge", codeChallenge), ("code_challenge_method", "S256"),
     ("redirect_uri", redirectUri), ("response_type", "code"), ("scope", "openid email profile")]
  }

  /** The six parameter names in ascending order. */
  lemma KeysAscending()
    ensures Less("client_id", "code_challenge") && Less("code_challenge", "code_challenge_method")
    ensures Less("code_challenge_method", "redirect_uri") && Less("redirect_uri", "response_type")
    ensures Less("response_type", "scope")
  {
    ChallengeBeforeMethod();
  }

  /** A name sorts before its own extensions. */
  lemma ChallengeBeforeMethod()
    ensures Less("code_challenge", "code_challenge_method")
  {
  }

  /**
    Six `Set`s of distinct keys a < b < c < d < e < f, made in the order
    a, e, f, d, b, c, leave the six keys in ascending order with one value
    each, and encode as those six pairs.
  */
  lemma SixSets(a: string, b: string, c: string, d: string, e: string, f: string,
                xa: string, xb: string, xc: string, xd: string, xe: string, xf: string)
    requires Less(a, b) && Less(b, c) && Less(c, d) && Less(d, e) && Less(e, f)
    ensures Url.SetAll([], [(a, xa), (e, xe), (f, xf), (d, xd), (b, xb), (c, xc)])
         == [(a, [xa]), (b, [xb]), (c, [xc]), (d, [xd]), (e, [xe]), (f, [xf])]
    ensures Url.Sorted([(a, [xa]), (b, [xb]), (c, [xc]), (d, [xd]), (e, [xe]), (f, [xf])])
    ensures Url.Pairs([(a, [xa]), (b, [xb]), (c, [xc]), (d, [xd]), (e, [xe]), (f, [xf])])
         == [(a, xa), (b, xb), (c, xc), (d, xd), (e, xe), (f, xf)]
  {
    var A, B, C, D, E, F := (a, [xa]), (b, [xb]), (c, [xc]), (d, [xd]), (e, [xe]), (f, [xf]);
    var tail := [(d, xd), (b, xb), (c, xc)];
    LessTransitive(a, b, c);
    LessTransitive(a, c, d);
    LessTransitive(b, c, d);
    LessTransitive(a, d, e);
    LessTransitive(a, e, f);
    assert [(a, xa), (e, xe), (f, xf), (d, xd), (b, xb), (c, xc)] == [(a, xa), (e, xe), (f, xf)] + tail;
    FirstThreeSets(a, e, f, xa, xe, xf, tail);
    LastThreeSets(A, B, C, D, E, F, xb, xc, xd);
    Url.ChainSorted([A, B, C, D, E, F]);
    Url.PairsOfSingletons([A, B, C, D, E, F]);
  }

  /** The first three `Set`s, of keys that arrive in ascending order. */
  lemma FirstThreeSets(a: string, e: string, f: string, xa: string, xe: string, xf: string, rest: seq<(string, string)>)
    requires Less(a, e) && Less(e, f)
    ensures Url.SetAll([], [(a, xa), (e, xe), (f, xf)] + rest) == Url.SetAll([(a, [xa]), (e, [xe]), (f, [xf])], rest)
  {
    var A, E, F := (a, [xa]), (e, [xe]), (f, [xf]);
    LessTransitive(a, e, f);
    assert [(a, xa), (e, xe), (f, xf)] + rest == [(a, xa)] + ([(e, xe)] + ([(f, xf)] + rest));
    assert Url.SetAll([], [(a, xa)] + ([(e, xe)] + ([(f, xf)] + rest))) == Url.SetAll([A], [(e, xe)] + ([(f, xf)] + rest)) by {
      Url.SetAllInsert([], 0, a, xa, [(e, xe)] + ([(f, xf)] + rest));
      assert [][..0] + [A] + [][0..] == [A];
    }
    assert Url.SetAll([A], [(e, xe)] + ([(f, xf)] + rest)) == Url.SetAll([A, E], [(f, xf)] + rest) by {
      Url.SetAllInsert([A], 1, e, xe, [(f, xf)] + rest);
      assert [A][..1] + [E] + [A][1..] == [A, E];
    }
    assert Url.SetAll([A, E], [(f, xf)] + rest) == Url.SetAll([A, E, F], rest) by {
      Url.SetAllInsert([A, E], 2, f, xf, rest);
      assert [A, E][..2] + [F] + [A, E][2..] == [A, E, F];
    }
  }

  /** The last three `Set`s, each of a key that goes between two already present. */
  lemma LastThreeSets(A: (string, seq<string>), B: (string, seq<string>), C: (string, seq<string>),
                      D: (string, seq<string>), E: (string, seq<string>), F: (string, seq<string>),
                      xb: string, xc: string, xd: string)
    requires B.1 == [xb] && C.1 == [xc] && D.1 == [xd]
    requires Less(A.0, B.0) && Less(B.0, C.0) && Less(C.0, D.0) && Less(D.0, E.0)
    requires Less(A.0, C.0) && Less(A.0, D.0) && Less(B.0, D.0)
    ensures Url.SetAll([A, E, F], [(D.0, xd), (B.0, xb), (C.0, xc)]) == [A, B, C, D, E, F]
  {
    assert [(D.0, xd), (B.0, xb), (C.0, xc)] == [(D.0, xd)] + ([(B.0, xb)] + ([(C.0, xc)] + []));
    assert Url.SetAll([A, E, F], [(D.0, xd)] + ([(B.0, xb)] + ([(C.0, xc)] + [])))
        == Url.SetAll([A, D, E, F], [(B.0, xb)] + ([(C.0, xc)] + [])) by {
      Url.SetAllInsert([A, E, F], 1, D.0, xd, [(B.0, xb)] + ([(C.0, xc)] + []));
      assert [A, E, F][..1] + [D] + [A, E, F][1..] == [A, D, E, F];
    }
    assert Url.SetAll([A, D, E, F], [(B.0, xb)] + ([(C.0, xc)] + [])) == Url.SetAll([A, B, D, E, F], [(C.0, xc)] + []) by {
      Url.SetAllInsert([A, D, E, F], 1, B.0, xb, [(C.0, xc)] + []);
      assert [A, D, E, F][..1] + [B] + [A, D, E, F][1..] == [A, B, D, E, F];
    }
    assert Url.SetAll([A, B, D, E, F], [(C.0, xc)] + []) == [A, B, C, D, E, F] by {
      Url.SetAllInsert([A, B, D, E, F], 2, C.0, xc, []);
      assert [A, B, D, E, F][..2] + [C] + [A, B, D, E, F][2..] == [A, B, C, D, E, F];
    }
  }

  /**
    After the six `Set`s the parameters hold exactly six distinct keys in
    ascending order, each with exactly one value, and the query is the
    encoding of those six pairs.
  */
  lemma AuthorizationParamsContents(clientId: string, redirectUri: string, codeChallenge: string)
    ensures AuthorizationParams(clientId, redirectUri, codeChallenge)
         == [("client_id", [clientId]), ("code_challenge", [codeChallenge]), ("code_challenge_method", ["S256"]),
             ("redirect_uri", [redirectUri]), ("response_type", ["code"]), ("scope", ["openid email profile"])]
    ensures Url.Sorted(AuthorizationParams(clientId, redirectUri, codeChallenge))
    ensures Url.Encode(AuthorizationParams(clientId, redirectUri, codeChallenge))
         == Join(Url.Pieces(AuthorizationPairs(clientId, redirectUri, codeChallenge)), '&')
  {
    KeysAscending();
    SixSets("client_id", "code_challenge", "code_challenge_method", "redirect_uri", "response_type", "scope",
            clientId, codeChallenge, "S256", redirectUri, "code", "openid email profile");
  }
}
