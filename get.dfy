/**
  commands/get.go: prints one secret, or every secret of the owner. At most
  one argument is accepted; with a key, the first egg with that secret id is
  shown, and a key no egg has is an error; without one, every egg is listed
  in the order the API returned them. Printed text is returned as lines.
*/
module GetCommand {
  import opened Wrappers
  import opened Text
  import Config
  import TokenExchange
  import Api
  import Session

  /** The plaintext of the first egg whose secret id is `key`, if there is one. */
  function FirstMatch(eggs: seq<Api.Egg>, key: string): (v: Option<string>)
    ensures v.None? <==> forall i :: 0 <= i < |eggs| ==> eggs[i].secretId != key
    ensures forall i :: 0 <= i < |eggs| && eggs[i].secretId == key && (forall j :: 0 <= j < i ==> eggs[j].secretId != key)
              ==> v == Some(eggs[i].plaintext)
  {
    if |eggs| == 0 then None
    else if eggs[0].secretId == key then Some(eggs[0].plaintext)
    else
      var v := FirstMatch(eggs[1..], key);
      assert forall i :: 1 <= i < |eggs| ==> eggs[1..][i - 1] == eggs[i];
      v
  }

  /** The search of step 7: stops at the first egg with the key. */
  method FindSecret(eggs: seq<Api.Egg>, key: string) returns (found: bool, value: string)
    ensures found <==> FirstMatch(eggs, key).Some?
    ensures found ==> value == FirstMatch(eggs, key).value
  {
    found, value := false, "";
    var i := 0;
    while i < |eggs|
      invariant 0 <= i <= |eggs|
      invariant forall j :: 0 <= j < i ==> eggs[j].secretId != key
    {
      if eggs[i].secretId == key {
        value := eggs[i].plaintext;
        found := true;
        break;
      }
      i := i + 1;
    }
  }

  /** The four lines printed for one egg. */
  function EggLines(e: Api.Egg): seq<string>
  {
    ["Key: " + e.secretId, "Value: " + e.plaintext, "Created: " + e.createdAt, "---"]
  }

  /** The listing: the lines of every egg, in the order given. */
  function Listing(eggs: seq<Api.Egg>): (lines: seq<string>)
    ensures |lines| == 4 * |eggs|
    ensures forall i :: 0 <= i < |eggs| ==> lines[4 * i..4 * i + 4] == EggLines(eggs[i])
  {
    if |eggs| == 0 then []
    else
      var init := Listing(eggs[..|eggs| - 1]);
      var lines := init + EggLines(eggs[|eggs| - 1]);
      assert forall i :: 0 <= i < |eggs| - 1 ==> lines[4 * i..4 * i + 4] == init[4 * i..4 * i + 4];
      lines
  }

  /** Egg i is announced by its "Key:" line at 4i and closed by the separator at 4i + 3. */
  lemma {:induction false} ListingNamesEveryEgg(eggs: seq<Api.Egg>)
    ensures forall i :: 0 <= i < |eggs| ==> Listing(eggs)[4 * i] == "Key: " + eggs[i].secretId
    ensures forall i :: 0 <= i < |eggs| ==> Listing(eggs)[4 * i + 3] == "---"
  {
    forall i | 0 <= i < |eggs|
      ensures Listing(eggs)[4 * i] == "Key: " + eggs[i].secretId && Listing(eggs)[4 * i + 3] == "---"
    {
      assert Listing(eggs)[4 * i..4 * i + 4] == EggLines(eggs[i]);
      assert Listing(eggs)[4 * i] == Listing(eggs)[4 * i..4 * i + 4][0];
      assert Listing(eggs)[4 * i + 3] == Listing(eggs)[4 * i..4 * i + 4][3];
    }
  }

  /** The loop that prints the listing, one egg after another. */
  method ListSecrets(eggs: seq<Api.Egg>) returns (lines: seq<string>)
    ensures lines == Listing(eggs)
  {
    lines := [];
    for i := 0 to |eggs|
      invariant lines == Listing(eggs[..i])
    {
      assert eggs[..i + 1][..i] == eggs[..i];
      lines := lines + EggLines(eggs[i]);
    }
    assert eggs[..|eggs|] == eggs;
  }

  /** What `runGet` prints on success. */
  datatype Output =
    | Secret(key: string, value: string)
    | Secrets(count: nat, lines: seq<string>)
    | NoSecrets

  datatype GetError = TooManyArgs | FetchFailed(reason: Session.FetchError) | NotFound(key: string)

  /** What is printed for the fetched eggs and the arguments, once there is at most one argument. */
  function Show(eggs: seq<Api.Egg>, args: seq<string>): (r: Result<Output, GetError>)
    requires |args| <= 1
    ensures |args| == 1 ==> (r == Err(NotFound(args[0])) <==> forall i :: 0 <= i < |eggs| ==> eggs[i].secretId != args[0])
    ensures |args| == 1 && r.Ok? ==> r.value == Secret(args[0], FirstMatch(eggs, args[0]).value)
    ensures |args| == 0 ==> r.Ok? && (r.value == NoSecrets <==> |eggs| == 0)
    ensures |args| == 0 && |eggs| > 0 ==> r.value == Secrets(|eggs|, Listing(eggs))
  {
    if |args| == 1 then
      match FirstMatch(eggs, args[0])
      case None => Err(NotFound(args[0]))
      case Some(v) => Ok(Secret(args[0], v))
    else if |eggs| == 0 then Ok(NoSecrets)
    else Ok(Secrets(|eggs|, Listing(eggs)))
  }

  /**
    The outcome of `runGet`: more than one argument is refused before
    anything else happens; then the secrets are fetched and shown.
  */
  function GetOutcome(stored: Option<Config.TokenData>, writable: bool, cfg: Config.Config,
                      post: TokenExchange.TokenRequest -> Option<TokenExchange.HttpResponse>,
                      parse: seq<byte> -> Option<TokenExchange.TokenResponse>, send: Api.Transport,
                      now: int, refreshedAt: int, parseClaims: seq<byte> -> Option<Config.Claims>,
                      parseEggs: seq<byte> -> Option<seq<Api.Egg>>, args: seq<string>): Result<Output, GetError>
  {
    if |args| > 1 then Err(TooManyArgs)
    else
      match Session.FetchOutcome(stored, writable, cfg, post, parse, send, now, refreshedAt, parseClaims, parseEggs)
      case Err(e) => Err(FetchFailed(e))
      case Ok(eggs) => Show(eggs, args)
  }

  /**
    The shown value is the first match among the fetched eggs; a key no
    egg has fails only after a successful fetch; listing nothing is not an
    error.
  */
  lemma GetOutcomeCases(stored: Option<Config.TokenData>, writable: bool, cfg: Config.Config,
                        post: TokenExchange.TokenRequest -> Option<TokenExchange.HttpResponse>,
                        parse: seq<byte> -> Option<TokenExchange.TokenResponse>, send: Api.Transport,
                        now: int, refreshedAt: int, parseClaims: seq<byte> -> Option<Config.Claims>,
                        parseEggs: seq<byte> -> Option<seq<Api.Egg>>, args: seq<string>)
    ensures var out := Session.FetchOutcome(stored, writable, cfg, post, parse, send, now, refreshedAt, parseClaims, parseEggs);
      var r := GetOutcome(stored, writable, cfg, post, parse, send, now, refreshedAt, parseClaims, parseEggs, args);
      && (r == Err(TooManyArgs) <==> |args| > 1)
      && (|args| <= 1 && out.Err? ==> r == Err(FetchFailed(out.error)))
      && (|args| == 1 ==> (r.Ok? <==> out.Ok? && FirstMatch(out.value, args[0]).Some?))
      && (|args| == 1 && r.Ok? ==> r.value == Secret(args[0], FirstMatch(out.value, args[0]).value))
      && (|args| == 1 ==> (r == Err(NotFound(args[0])) <==> out.Ok? && FirstMatch(out.value, args[0]).None?))
      && (|args| == 0 ==> (r.Ok? <==> out.Ok?))
  {
  }

  /**
    `runGet` after argument parsing and configuration loading. Too many
    arguments touch nothing; otherwise the credentials and the log change as
    the token check, the owner lookup and the fetch change them.
  */
  method Get(cfg: Config.Config, store: Session.CredentialStore, net: Session.Network, now: int, refreshedAt: int,
             parseClaims: seq<byte> -> Option<Config.Claims>, parseEggs: seq<byte> -> Option<seq<Api.Egg>>,
             args: seq<string>)
    returns (r: Result<Output, GetError>)
    modifies store, net
    ensures r == GetOutcome(old(store.file), old(store.writable), cfg, net.post, net.parse, net.send,
                            now, refreshedAt, parseClaims, parseEggs, args)
    ensures |args| > 1 ==> net.log == old(net.log) && store.file == old(store.file)
    ensures |args| <= 1 ==> net.log == old(net.log) + Session.FetchCalls(old(store.file), old(store.writable), cfg,
                                                                          net.post, net.parse, now, refreshedAt, parseClaims)
    ensures store.writable == old(store.writable)
    ensures var t := Session.ValidTokenOutcome(old(store.file), old(store.writable), cfg, net.post, net.parse, now, refreshedAt);
      |args| <= 1 ==>
      store.file == (if Session.NeedsRefresh(old(store.file), now) && t.Ok? then Some(t.value) else old(store.file))
  {
    if |args| > 1 {
      return Err(TooManyArgs);
    }
    var eggs := Session.FetchOwnEggs(cfg, store, net, now, refreshedAt, parseClaims, parseEggs);
    if eggs.Err? {
      return Err(FetchFailed(eggs.error));
    }
    if |args| == 1 {
      var key := args[0];
      var found, value := FindSecret(eggs.value, key);
      if !found {
        return Err(NotFound(key));
      }
      return Ok(Secret(key, value));
    }
    if |eggs.value| == 0 {
      return Ok(NoSecrets);
    }
    var lines := ListSecrets(eggs.value);
    r := Ok(Secrets(|eggs.value|, lines));
  }
}
