/**
  commands/run.go, the `hatch` command: after the usual token check it
  fetches every secret of the owner, turns them into environment variables
  named by the upper-cased secret id, finds the command after the first
  "--" and launches it with the current environment followed by the
  secrets. The launch itself is returned as a value.
*/
module RunCommand {
  import opened Wrappers
  import opened Text
  import Config
  import TokenExchange
  import Api
  import Session

  /**
    The variables the secrets define: each egg's upper-cased secret id is
    bound to its plaintext, a later egg overriding an earlier one.
  */
  function EnvOf(eggs: seq<Api.Egg>): map<string, string>
  {
    if |eggs| == 0 then map[]
    else EnvOf(eggs[..|eggs| - 1])[Upper(eggs[|eggs| - 1].secretId) := eggs[|eggs| - 1].plaintext]
  }

  /** The variable names are exactly the upper-cased secret ids. */
  lemma {:induction false} EnvOfKeys(eggs: seq<Api.Egg>)
    ensures EnvOf(eggs).Keys == set i | 0 <= i < |eggs| :: Upper(eggs[i].secretId)
  {
    if |eggs| > 0 {
      EnvOfKeys(eggs[..|eggs| - 1]);
      NamesOfLonger(eggs);
    }
  }

  /** The names of a list are those of all but its last egg, and the last egg's. */
  lemma NamesOfLonger(eggs: seq<Api.Egg>)
    requires |eggs| > 0
    ensures var n := |eggs| - 1;
      (set i | 0 <= i < |eggs| :: Upper(eggs[i].secretId))
      == (set i | 0 <= i < n :: Upper(eggs[..n][i].secretId)) + {Upper(eggs[n].secretId)}
  {
    var n := |eggs| - 1;
    var init := eggs[..n];
    var names := set i | 0 <= i < |eggs| :: Upper(eggs[i].secretId);
    var earlier := set i | 0 <= i < n :: Upper(init[i].secretId);
    forall x | x in names
      ensures x in earlier + {Upper(eggs[n].secretId)}
    {
      var i :| 0 <= i < |eggs| && x == Upper(eggs[i].secretId);
      if i < n {
        assert init[i] == eggs[i];
      }
    }
    forall x | x in earlier
      ensures x in names
    {
      var i :| 0 <= i < n && x == Upper(init[i].secretId);
      assert init[i] == eggs[i];
    }
  }

  /** A variable holds the plaintext of the last egg that names it. */
  lemma {:induction false} EnvOfLastWins(eggs: seq<Api.Egg>, i: int)
    requires 0 <= i < |eggs|
    requires forall j :: i < j < |eggs| ==> Upper(eggs[j].secretId) != Upper(eggs[i].secretId)
    ensures Upper(eggs[i].secretId) in EnvOf(eggs)
    ensures EnvOf(eggs)[Upper(eggs[i].secretId)] == eggs[i].plaintext
  {
    var n := |eggs| - 1;
    if i < n {
      var init := eggs[..n];
      assert init[i] == eggs[i];
      forall j | i < j < |init|
        ensures Upper(init[j].secretId) != Upper(init[i].secretId)
      {
        assert init[j] == eggs[j];
      }
      EnvOfLastWins(init, i);
    }
  }

  /** The loop of step 6: one assignment per egg, in order. */
  method SecretEnvVars(eggs: seq<Api.Egg>) returns (env: map<string, string>)
    ensures env == EnvOf(eggs)
  {
    env := map[];
    for i := 0 to |eggs|
      invariant env == EnvOf(eggs[..i])
    {
      assert eggs[..i + 1][..i] == eggs[..i];
      env := env[Upper(eggs[i].secretId) := eggs[i].plaintext];
    }
    assert eggs[..|eggs|] == eggs;
  }

  /** The index of the first "--" among the arguments, or -1. */
  function Separator(args: seq<string>): (idx: int)
    ensures -1 <= idx < |args|
    ensures idx == -1 <==> "--" !in args
    ensures idx >= 0 ==> args[idx] == "--" && "--" !in args[..idx]
  {
    if |args| == 0 then -1
    else if args[0] == "--" then 0
    else
      var rest := Separator(args[1..]);
      if rest == -1 then -1
      else
        assert args[..rest + 1] == [args[0]] + args[1..][..rest];
        rest + 1
  }

  /** The loop of step 7: stops at the first "--". */
  method FindSeparator(args: seq<string>) returns (dashIndex: int)
    ensures dashIndex == Separator(args)
  {
    dashIndex := -1;
    var i := 0;
    while i < |args|
      invariant 0 <= i <= |args|
      invariant "--" !in args[..i]
    {
      if args[i] == "--" {
        dashIndex := i;
        break;
      }
      assert args[..i + 1] == args[..i] + [args[i]];
      i := i + 1;
    }
    if dashIndex == -1 {
      assert args[..i] == args;
    } else {
      SeparatorAt(args, dashIndex);
    }
  }

  /** A "--" with none before it is the one `Separator` finds. */
  lemma {:induction false} SeparatorAt(args: seq<string>, idx: int)
    requires 0 <= idx < |args| && args[idx] == "--" && "--" !in args[..idx]
    ensures Separator(args) == idx
  {
    if idx > 0 {
      assert args[0] != "--" by {
        assert args[..idx][0] == args[0];
      }
      assert args[1..][..idx - 1] == args[1..idx];
      assert "--" !in args[1..idx] by {
        assert args[1..idx] == args[..idx][1..];
      }
      SeparatorAt(args[1..], idx - 1);
    }
  }

  /** The command to launch: its name and its own arguments. */
  datatype Command = Command(name: string, arguments: seq<string>)

  datatype RunError = FetchFailed(reason: Session.FetchError) | Usage | NoCommand

  /**
    Steps 7 and 8: a missing "--" or one in last place is a usage error;
    otherwise the command is the argument after the first "--" and its
    arguments are all that follow. The "no command" error cannot arise.
  */
  function SplitCommand(args: seq<string>, dashIndex: int): (r: Result<Command, RunError>)
    requires -1 <= dashIndex < |args|
    ensures r.Err? <==> dashIndex == -1 || dashIndex == |args| - 1
    ensures r.Err? ==> r.error == Usage
    ensures r.Ok? ==> r.value.name == args[dashIndex + 1] && r.value.arguments == args[dashIndex + 2..]
  {
    if dashIndex == -1 || dashIndex == |args| - 1 then Err(Usage)
    else
      var commandArgs := args[dashIndex + 1..];
      if |commandArgs| == 0 then Err(NoCommand)
      else Ok(Command(commandArgs[0], commandArgs[1..]))
  }

  /** The "NAME=value" lines for the entries, in that order. */
  function Assignments(entries: seq<(string, string)>): (lines: seq<string>)
    ensures |lines| == |entries|
    ensures forall i :: 0 <= i < |entries| ==> lines[i] == entries[i].0 + "=" + entries[i].1
  {
    if |entries| == 0 then []
    else Assignments(entries[..|entries| - 1]) + [entries[|entries| - 1].0 + "=" + entries[|entries| - 1].1]
  }

  /** `entries` lists every (name, value) pair of the map exactly once, in some order. */
  predicate Enumerates(entries: seq<(string, string)>, secrets: map<string, string>)
  {
    && (forall i :: 0 <= i < |entries| ==> entries[i].0 in secrets && secrets[entries[i].0] == entries[i].1)
    && (forall k :: k in secrets ==> (k, secrets[k]) in entries)
    && (forall i, j :: 0 <= i < j < |entries| ==> entries[i].0 != entries[j].0)
    && |entries| == |secrets|
  }

  /**
    A merged environment: the current one, then one assignment per secret in
    the map's iteration order, which Go leaves unspecified.
  */
  ghost predicate IsMerge(merged: seq<string>, current: seq<string>, secrets: map<string, string>)
  {
    exists entries :: Enumerates(entries, secrets) && merged == current + Assignments(entries)
  }

  /**
    The current environment comes first and unchanged, one entry follows per
    secret, and every secret's assignment is among them.
  */
  lemma MergeContents(merged: seq<string>, current: seq<string>, secrets: map<string, string>)
    requires IsMerge(merged, current, secrets)
    ensures |merged| == |current| + |secrets|
    ensures merged[..|current|] == current
    ensures forall k :: k in secrets ==> k + "=" + secrets[k] in merged[|current|..]
  {
    var entries :| Enumerates(entries, secrets) && merged == current + Assignments(entries);
    assert merged[|current|..] == Assignments(entries);
    forall k | k in secrets
      ensures k + "=" + secrets[k] in merged[|current|..]
    {
      var i :| 0 <= i < |entries| && entries[i] == (k, secrets[k]);
      assert Assignments(entries)[i] == k + "=" + secrets[k];
    }
  }

  /** Midway through a walk over the map: `entries` were visited, the keys in `remaining` are still to come. */
  ghost predicate VisitedSoFar(entries: seq<(string, string)>, remaining: set<string>, secrets: map<string, string>)
  {
    && remaining <= secrets.Keys
    && (forall i :: 0 <= i < |entries| ==>
          entries[i].0 in secrets && secrets[entries[i].0] == entries[i].1 && entries[i].0 !in remaining)
    && (forall k :: k in secrets ==> k in remaining || (k, secrets[k]) in entries)
    && (forall i, j :: 0 <= i < j < |entries| ==> entries[i].0 != entries[j].0)
    && |entries| + |remaining| == |secrets|
  }

  lemma VisitStep(entries: seq<(string, string)>, remaining: set<string>, secrets: map<string, string>, k: string)
    requires VisitedSoFar(entries, remaining, secrets) && k in remaining
    ensures VisitedSoFar(entries + [(k, secrets[k])], remaining - {k}, secrets)
  {
  }

  /** `range` over the map: every (key, value) pair once, in an order Go leaves unspecified. */
  method Entries(secrets: map<string, string>) returns (entries: seq<(string, string)>)
    ensures Enumerates(entries, secrets)
  {
    entries := [];
    var remaining := secrets.Keys;
    assert |remaining| == |secrets|;
    while remaining != {}
      invariant VisitedSoFar(entries, remaining, secrets)
      decreases |remaining|
    {
      var k :| k in remaining;
      VisitStep(entries, remaining, secrets, k);
      entries := entries + [(k, secrets[k])];
      remaining := remaining - {k};
    }
  }

  /** Step 10: the secrets are appended to a copy of the environment, one per key. */
  method MergeEnv(current: seq<string>, secrets: map<string, string>) returns (merged: seq<string>)
    ensures IsMerge(merged, current, secrets)
  {
    var entries := Entries(secrets);
    merged := current;
    for i := 0 to |entries|
      invariant merged == current + Assignments(entries[..i])
    {
      assert entries[..i + 1][..i] == entries[..i];
      merged := merged + [entries[i].0 + "=" + entries[i].1];
    }
    assert entries[..|entries|] == entries;
  }

  /** What `runRun` decides before launching: the command and the secrets to inject. */
  datatype Plan = Plan(command: Command, secrets: map<string, string>)

  /** Steps 6 to 8 once the fetch is over: a failed fetch is reported before the arguments are looked at. */
  function PlanFrom(fetched: Result<seq<Api.Egg>, Session.FetchError>, args: seq<string>): Result<Plan, RunError>
  {
    match fetched
    case Err(e) => Err(FetchFailed(e))
    case Ok(eggs) =>
      match SplitCommand(args, Separator(args))
      case Err(e) => Err(e)
      case Ok(command) => Ok(Plan(command, EnvOf(eggs)))
  }

  /** The outcome of steps 2 to 8: the secrets are fetched first, and only then are the arguments looked at. */
  function RunPlan(stored: Option<Config.TokenData>, writable: bool, cfg: Config.Config,
                   post: TokenExchange.TokenRequest -> Option<TokenExchange.HttpResponse>,
                   parse: seq<byte> -> Option<TokenExchange.TokenResponse>, send: Api.Transport,
                   now: int, refreshedAt: int, parseClaims: seq<byte> -> Option<Config.Claims>,
                   parseEggs: seq<byte> -> Option<seq<Api.Egg>>, args: seq<string>): Result<Plan, RunError>
  {
    PlanFrom(Session.FetchOutcome(stored, writable, cfg, post, parse, send, now, refreshedAt, parseClaims, parseEggs), args)
  }

  /**
    A malformed command line is reported only after the secrets were
    fetched: it is a usage error exactly when the fetch succeeded and the
    arguments hold no "--" or end with their first one.
  */
  lemma UsageCheckedAfterFetch(fetched: Result<seq<Api.Egg>, Session.FetchError>, args: seq<string>)
    ensures PlanFrom(fetched, args) == Err(Usage)
        <==> fetched.Ok? && ("--" !in args || (args[|args| - 1] == "--" && "--" !in args[..|args| - 1]))
    ensures fetched.Err? ==> PlanFrom(fetched, args) == Err(FetchFailed(fetched.error))
  {
    var d := Separator(args);
    if d >= 0 && args[|args| - 1] == "--" && "--" !in args[..|args| - 1] {
      SeparatorAt(args, |args| - 1);
    }
  }

  /**
    When a plan is made, the command follows the first "--", the secrets are
    those of the fetched eggs, and the "no command" error never occurs.
  */
  lemma PlanContents(fetched: Result<seq<Api.Egg>, Session.FetchError>, args: seq<string>)
    ensures PlanFrom(fetched, args) != Err(NoCommand)
    ensures PlanFrom(fetched, args).Ok? ==> fetched.Ok? && PlanFrom(fetched, args).value.secrets == EnvOf(fetched.value)
    ensures PlanFrom(fetched, args).Ok? ==>
              var d := Separator(args);
              && 0 <= d < |args| - 1 && args[d] == "--" && "--" !in args[..d]
              && PlanFrom(fetched, args).value.command == Command(args[d + 1], args[d + 2..])
  {
  }

  /** The process `runRun` starts: the command and its environment. */
  datatype Launch = Launch(command: Command, env: seq<string>, secretCount: nat)

  /**
    `runRun` up to the start of the subprocess. It leaves the credentials and
    the log as the token check, the owner lookup and the fetch leave them,
    and on success launches the planned command with the current environment
    followed by the secrets, announcing how many secrets it injects.
  */
  method Run(cfg: Config.Config, store: Session.CredentialStore, net: Session.Network, now: int, refreshedAt: int,
             parseClaims: seq<byte> -> Option<Config.Claims>, parseEggs: seq<byte> -> Option<seq<Api.Egg>>,
             args: seq<string>, currentEnv: seq<string>)
    returns (r: Result<Launch, RunError>)
    modifies store, net
    ensures var plan := RunPlan(old(store.file), old(store.writable), cfg, net.post, net.parse, net.send,
                                now, refreshedAt, parseClaims, parseEggs, args);
      && (r.Err? <==> plan.Err?)
      && (r.Err? ==> r.error == plan.error)
      && (r.Ok? ==> r.value.command == plan.value.command && r.value.secretCount == |plan.value.secrets|
                    && IsMerge(r.value.env, currentEnv, plan.value.secrets))
    ensures net.log == old(net.log) + Session.FetchCalls(old(store.file), old(store.writable), cfg, net.post, net.parse,
                                                         now, refreshedAt, parseClaims)
    ensures store.writable == old(store.writable)
    ensures var t := Session.ValidTokenOutcome(old(store.file), old(store.writable), cfg, net.post, net.parse, now, refreshedAt);
      store.file == (if Session.NeedsRefresh(old(store.file), now) && t.Ok? then Some(t.value) else old(store.file))
  {
    var eggs := Session.FetchOwnEggs(cfg, store, net, now, refreshedAt, parseClaims, parseEggs);
    if eggs.Err? {
      return Err(FetchFailed(eggs.error));
    }
    var secrets := SecretEnvVars(eggs.value);
    var dashIndex := FindSeparator(args);
    var command := SplitCommand(args, dashIndex);
    if command.Err? {
      return Err(command.error);
    }
    var merged := MergeEnv(currentEnv, secrets);
    r := Ok(Launch(command.value, merged, |secrets|));
  }
}
