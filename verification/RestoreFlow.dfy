/** The restore flow: install every protocol on the local endpoint, then push it to the remote one. */
module RestoreFlow {
  import opened Wrappers
  import opened DidDocument
  import opened KeyDerivation
  import opened Protocols
  import opened Injection

  /** The protocols an endpoint serves, by tenant and protocol. */
  type Served = map<(string, string), Definition>

  datatype Agent = Agent(kdf: Kdf, keys: Keys, rootKeyId: Option<string>, tenant: string)

  datatype FlowError = EndpointFailed | KeyFailed(error: KeyError)

  datatype InstallResult = InstallResult(protocol: string, installed: bool, encryptionActive: bool)

  /** How an endpoint answers one install: whether the query works and how the configure ends. */
  datatype Answer = Answer(query: bool, configure: Commit)

  datatype Installed<+T> = Installed(served: Served, result: Result<T, FlowError>)

  function Prepared(a: Agent, d: Definition): Result<Definition, KeyError> {
    if RequiresEncryption(d) then Inject(a.kdf, a.keys, a.rootKeyId, d) else Ok(d)
  }

  function Install(a: Agent, served: Served, d: Definition, answer: Answer): Installed<InstallResult> {
    var key := (a.tenant, d.protocol);
    if !answer.query then Installed(served, Err(EndpointFailed))
    else if key in served then
      Installed(served, Ok(InstallResult(d.protocol, false, RequiresEncryption(d) && HasEncryption(served[key]))))
    else
      match Prepared(a, d)
      case Err(e) => Installed(served, Err(KeyFailed(e)))
      case Ok(definition) =>
        Installed(if answer.configure.Refused? then served else served[(a.tenant, definition.protocol) := definition],
                  if answer.configure.Applied? then Ok(InstallResult(definition.protocol, true, RequiresEncryption(d)))
                  else Err(EndpointFailed))
  }

  /** Install a list, stopping at the first failure; `answers` gives the endpoint's answer at each position. */
  function InstallAll(a: Agent, served: Served, defs: seq<Definition>, answers: nat -> Answer, at: nat,
                      done: seq<InstallResult>): Installed<seq<InstallResult>>
    decreases |defs|
  {
    if defs == [] then Installed(served, Ok(done))
    else
      var one := Install(a, served, defs[0], answers(at));
      if one.result.Err? then Installed(one.served, Err(one.result.error))
      else InstallAll(a, one.served, defs[1..], answers, at + 1, done + [one.result.value])
  }

  datatype Flow =
    Flow(local: Served, remote: Served, result: Result<(seq<InstallResult>, seq<InstallResult>), FlowError>)

  function RunFlow(a: Agent, local: Served, remote: Served, defs: seq<Definition>, localAnswers: nat -> Answer,
                   remoteAnswers: nat -> Answer): Flow {
    var l := InstallAll(a, local, defs, localAnswers, 0, []);
    if l.result.Err? then Flow(l.served, remote, Err(l.result.error))
    else
      var r := InstallAll(a, remote, defs, remoteAnswers, 0, []);
      Flow(l.served, r.served, if r.result.Ok? then Ok((l.result.value, r.result.value)) else Err(r.result.error))
  }

  // ------------------------------------------------------------------ the endpoints as objects

  class MemoryProtocolEndpoint {
    var protocols: Served

    method QueryProtocol(tenant: string, protocol: string,
                         works: bool) returns (r: Result<Option<Definition>, FlowError>)
      ensures r == if !works then Err(EndpointFailed)
                   else Ok(if (tenant, protocol) in protocols then Some(protocols[(tenant, protocol)]) else None)
    {
      if !works {
        return Err(EndpointFailed);
      }
      return Ok(if (tenant, protocol) in protocols then Some(protocols[(tenant, protocol)]) else None);
    }

    method ConfigureProtocol(tenant: string, d: Definition, commit: Commit) returns (ok: bool)
      modifies this
      ensures protocols == if commit.Refused? then old(protocols) else old(protocols)[(tenant, d.protocol) := d]
      ensures ok == commit.Applied?
    {
      if commit.Refused? {
        return false;
      }
      protocols := protocols[(tenant, d.protocol) := d];
      return commit.Applied?;
    }

    method InstallProtocolIfNeeded(a: Agent, d: Definition,
                                   answer: Answer) returns (r: Result<InstallResult, FlowError>)
      modifies this
      ensures Installed(protocols, r) == Install(a, old(protocols), d, answer)
    {
      hide Inject, RequiresEncryption, HasEncryption;
      var installed := QueryProtocol(a.tenant, d.protocol, answer.query);
      if installed.Err? {
        return Err(installed.error);
      }
      if installed.value.Some? {
        return Ok(InstallResult(d.protocol, false, RequiresEncryption(d) && HasEncryption(installed.value.value)));
      }
      var definition := d;
      if RequiresEncryption(d) {
        var injected := InjectProtocolEncryption(a.kdf, a.keys, a.rootKeyId, d);
        if injected.Err? {
          return Err(KeyFailed(injected.error));
        }
        definition := injected.value;
      }
      var written := ConfigureProtocol(a.tenant, definition, answer.configure);
      if !written {
        return Err(EndpointFailed);
      }
      return Ok(InstallResult(definition.protocol, true, RequiresEncryption(d)));
    }

    method InstallEach(a: Agent, defs: seq<Definition>,
                       answers: nat -> Answer) returns (r: Result<seq<InstallResult>, FlowError>)
      modifies this
      ensures Installed(protocols, r) == InstallAll(a, old(protocols), defs, answers, 0, [])
    {
      hide Install;
      var results: seq<InstallResult> := [];
      var i := 0;
      while i < |defs|
        invariant 0 <= i <= |defs|
        invariant InstallAll(a, protocols, defs[i..], answers, i, results)
                  == InstallAll(a, old(protocols), defs, answers, 0, [])
      {
        var one := InstallProtocolIfNeeded(a, defs[i], answers(i));
        if one.Err? {
          return Err(one.error);
        }
        results := results + [one.value];
        assert defs[i..][1..] == defs[i + 1..];
        i := i + 1;
      }
      assert defs[i..] == [];
      return Ok(results);
    }
  }

  /** When both roles are played by one endpoint, the push starts from what the install left. */
  method RunRestoreFlow(a: Agent, local: MemoryProtocolEndpoint, remote: MemoryProtocolEndpoint,
                        defs: seq<Definition>, localAnswers: nat -> Answer, remoteAnswers: nat -> Answer)
    returns (r: Result<(seq<InstallResult>, seq<InstallResult>), FlowError>)
    modifies local, remote
    ensures local != remote ==>
              Flow(local.protocols, remote.protocols, r)
                == RunFlow(a, old(local.protocols), old(remote.protocols), defs, localAnswers, remoteAnswers)
    ensures local == remote ==>
              var l := InstallAll(a, old(local.protocols), defs, localAnswers, 0, []);
              if l.result.Err? then local.protocols == l.served && r == Err(l.result.error)
              else
                var flow := RunFlow(a, old(local.protocols), l.served, defs, localAnswers, remoteAnswers);
                local.protocols == flow.remote && r == flow.result
  {
    hide InstallAll;
    var installs := local.InstallEach(a, defs, localAnswers);
    if installs.Err? {
      return Err(installs.error);
    }
    var pushes := remote.InstallEach(a, defs, remoteAnswers);
    if pushes.Err? {
      return Err(pushes.error);
    }
    return Ok((installs.value, pushes.value));
  }

  // ------------------------------------------------------------------ what a run of installs does

  lemma PreparedKeepsName(a: Agent, d: Definition)
    requires Prepared(a, d).Ok?
    ensures Prepared(a, d).value.protocol == d.protocol
  {
  }

  predicate Lists(defs: seq<Definition>, protocol: string) {
    exists d <- defs :: d.protocol == protocol
  }

  lemma ListsCons(defs: seq<Definition>, protocol: string)
    ensures Lists(defs, protocol) <==> defs != [] && (defs[0].protocol == protocol || Lists(defs[1..], protocol))
  {
  }

  /** Failed or not, a run of installs leaves every served definition untouched, serves nothing new but
      listed protocols of this tenant, and when it completes serves all of them. */
  lemma {:induction false} InstallsOnlyAdd(a: Agent, served: Served, defs: seq<Definition>, answers: nat -> Answer,
                                           at: nat, done: seq<InstallResult>, key: (string, string))
    ensures var r := InstallAll(a, served, defs, answers, at, done);
            && (key in served ==> key in r.served && r.served[key] == served[key])
            && (key in r.served && key !in served ==> key.0 == a.tenant && Lists(defs, key.1))
            && (r.result.Ok? && key.0 == a.tenant && Lists(defs, key.1) ==> key in r.served)
    decreases |defs|
  {
    hide Inject, RequiresEncryption, HasEncryption, Lists;
    ListsCons(defs, key.1);
    if defs != [] {
      if Prepared(a, defs[0]).Ok? {
        PreparedKeepsName(a, defs[0]);
      }
      var one := Install(a, served, defs[0], answers(at));
      if one.result.Ok? {
        InstallsOnlyAdd(a, one.served, defs[1..], answers, at + 1, done + [one.result.value], key);
      }
    }
  }

  /** The definition at `i` is the first of its protocol, and that was not served before. */
  predicate IsNew(a: Agent, served: Served, defs: seq<Definition>, i: nat)
    requires i < |defs|
  {
    (a.tenant, defs[i].protocol) !in served && !Lists(defs[..i], defs[i].protocol)
  }

  /** What the result for the definition at `i` says, when `later` is served in the end; the results for the list
      start at `from`. */
  predicate ResultSays(a: Agent, served: Served, defs: seq<Definition>, i: nat, later: Served,
                       results: seq<InstallResult>, from: nat)
    requires i < |defs| && from + i < |results|
  {
    var r := results[from + i];
    && r.protocol == defs[i].protocol
    && (r.installed <==> IsNew(a, served, defs, i))
    && (a.tenant, defs[i].protocol) in later
    && (r.encryptionActive
        <==> RequiresEncryption(defs[i]) && (r.installed || HasEncryption(later[(a.tenant, defs[i].protocol)])))
  }

  lemma IsNewCons(a: Agent, served: Served, defs: seq<Definition>, i: nat)
    requires 0 < i < |defs|
    ensures IsNew(a, served, defs, i)
            <==> (a.tenant, defs[i].protocol) !in served && defs[0].protocol != defs[i].protocol
                 && !Lists(defs[1..][..i - 1], defs[i].protocol)
  {
    ListsCons(defs[..i], defs[i].protocol);
    assert defs[..i][1..] == defs[1..][..i - 1];
  }

  /** The first listed definition of a protocol. */
  function First(defs: seq<Definition>, protocol: string): Definition
    requires Lists(defs, protocol)
    decreases |defs|
  {
    ListsCons(defs, protocol);
    if defs[0].protocol == protocol then defs[0] else First(defs[1..], protocol)
  }

  /** What is newly served is the first listed definition of that protocol, with its keys injected when it
      requires encryption. */
  lemma {:induction false} NewlyServed(a: Agent, served: Served, defs: seq<Definition>, answers: nat -> Answer,
                                       at: nat, done: seq<InstallResult>, key: (string, string))
    requires key !in served && key in InstallAll(a, served, defs, answers, at, done).served
    ensures Lists(defs, key.1)
    ensures var d, now := First(defs, key.1), InstallAll(a, served, defs, answers, at, done).served[key];
            if RequiresEncryption(d) then Inject(a.kdf, a.keys, a.rootKeyId, d) == Ok(now) else now == d
    decreases |defs|
  {
    hide Inject, RequiresEncryption, HasEncryption, Lists;
    InstallsOnlyAdd(a, served, defs, answers, at, done, key);
    ListsCons(defs, key.1);
    var one := Install(a, served, defs[0], answers(at));
    if Prepared(a, defs[0]).Ok? {
      PreparedKeepsName(a, defs[0]);
    }
    if one.result.Ok? {
      if key in one.served {
        InstallsOnlyAdd(a, one.served, defs[1..], answers, at + 1, done + [one.result.value], key);
      } else {
        NewlyServed(a, one.served, defs[1..], answers, at + 1, done + [one.result.value], key);
      }
    }
  }

  /** One result per definition, saying installed for exactly those not served before, and encrypted for those that
      require it and were installed now or are served with keys. */
  lemma {:induction false} ResultsSay(a: Agent, served: Served, defs: seq<Definition>, answers: nat -> Answer,
                                      at: nat, done: seq<InstallResult>)
    requires InstallAll(a, served, defs, answers, at, done).result.Ok?
    ensures var results := InstallAll(a, served, defs, answers, at, done).result.value;
            && |results| == |done| + |defs| && done <= results
            && forall i :: 0 <= i < |defs| ==>
                 ResultSays(a, served, defs, i, InstallAll(a, served, defs, answers, at, done).served, results, |done|)
    decreases |defs|
  {
    hide Inject, RequiresEncryption, HasEncryption, Lists;
    if defs != [] {
      var d := defs[0];
      if Prepared(a, d).Ok? {
        PreparedKeepsName(a, d);
      }
      var one := Install(a, served, d, answers(at));
      var rest := done + [one.result.value];
      ResultsSay(a, one.served, defs[1..], answers, at + 1, rest);
      var results := InstallAll(a, served, defs, answers, at, done).result.value;
      var later := InstallAll(a, served, defs, answers, at, done).served;
      forall i | 0 <= i < |defs|
        ensures ResultSays(a, served, defs, i, later, results, |done|)
      {
        if i == 0 {
          NoneBefore(defs[0].protocol);
          assert defs[..0] == [];
          InstallsOnlyAdd(a, one.served, defs[1..], answers, at + 1, rest, (a.tenant, d.protocol));
          assert results[|done|] == rest[|done|];
        } else {
          IsNewCons(a, served, defs, i);
          assert ResultSays(a, one.served, defs[1..], i - 1, later, results, |rest|);
          assert defs[1..][i - 1] == defs[i];
        }
      }
    }
  }

  lemma NoneBefore(protocol: string)
    ensures !Lists([], protocol)
  {
  }

  /** The endpoint lets the definition at `i` through: the query works, and a new definition can be prepared and is
      accepted. */
  predicate GoesThrough(a: Agent, served: Served, defs: seq<Definition>, i: nat, answers: nat -> Answer, at: nat)
    requires i < |defs|
  {
    && answers(at + i).query
    && (IsNew(a, served, defs, i) ==>
          && answers(at + i).configure.Applied?
          && (RequiresEncryption(defs[i]) ==> Inject(a.kdf, a.keys, a.rootKeyId, defs[i]).Ok?))
  }

  /** A run of installs completes exactly when every definition goes through. */
  lemma {:induction false} CompletesIff(a: Agent, served: Served, defs: seq<Definition>, answers: nat -> Answer,
                                        at: nat, done: seq<InstallResult>)
    ensures InstallAll(a, served, defs, answers, at, done).result.Ok?
            <==> forall i :: 0 <= i < |defs| ==> GoesThrough(a, served, defs, i, answers, at)
    decreases |defs|
  {
    hide Inject, RequiresEncryption, HasEncryption, Lists;
    if defs != [] {
      var d, one := defs[0], Install(a, served, defs[0], answers(at));
      if Prepared(a, d).Ok? {
        PreparedKeepsName(a, d);
      }
      NoneBefore(d.protocol);
      assert defs[..0] == [];
      assert one.result.Ok? <==> GoesThrough(a, served, defs, 0, answers, at);
      if one.result.Ok? {
        CompletesIff(a, one.served, defs[1..], answers, at + 1, done + [one.result.value]);
        var rest, next := defs[1..], at + 1;
        forall j | 0 <= j < |rest|
          ensures GoesThrough(a, served, defs, j + 1, answers, at)
                  <==> GoesThrough(a, one.served, rest, j, answers, next)
        {
          IsNewCons(a, served, defs, j + 1);
          assert rest[j] == defs[j + 1];
        }
        hide GoesThrough;
        if forall j :: 0 <= j < |rest| ==> GoesThrough(a, one.served, rest, j, answers, next) {
          forall i | 0 <= i < |defs|
            ensures GoesThrough(a, served, defs, i, answers, at)
          {
            if i > 0 {
              assert GoesThrough(a, one.served, rest, i - 1, answers, next);
            }
          }
        }
        if forall i :: 0 <= i < |defs| ==> GoesThrough(a, served, defs, i, answers, at) {
          forall j | 0 <= j < |rest|
            ensures GoesThrough(a, one.served, rest, j, answers, next)
          {
            assert GoesThrough(a, served, defs, j + 1, answers, at);
          }
        }
      }
    }
  }

  /** A run that fails stops at the first definition that does not go through: those before it are installed as in a
      run of their own, those after it are not touched, and the error says why it stopped. */
  lemma {:induction false} StopsAtFirstFailure(a: Agent, served: Served, defs: seq<Definition>,
                                               answers: nat -> Answer, at: nat,
                                               done: seq<InstallResult>) returns (i: nat)
    requires InstallAll(a, served, defs, answers, at, done).result.Err?
    ensures i < |defs| && InstallAll(a, served, defs[..i], answers, at, done).result.Ok?
    ensures var r, before := InstallAll(a, served, defs, answers, at, done),
              InstallAll(a, served, defs[..i], answers, at, done).served;
            var d, answer := defs[i], answers(at + i);
            var injected := Inject(a.kdf, a.keys, a.rootKeyId, d);
            if !answer.query then r == Installed(before, Err(EndpointFailed))
            else if RequiresEncryption(d) && injected.Err? then r == Installed(before, Err(KeyFailed(injected.error)))
            else
              var definition := if RequiresEncryption(d) then injected.value else d;
              && r.result == Err(EndpointFailed) && !answer.configure.Applied?
              && r.served == if answer.configure.Refused? then before
                             else before[(a.tenant, d.protocol) := definition]
    decreases |defs|
  {
    hide Inject, RequiresEncryption, HasEncryption;
    var d, one := defs[0], Install(a, served, defs[0], answers(at));
    if Prepared(a, d).Ok? {
      PreparedKeepsName(a, d);
    }
    if one.result.Err? {
      i := 0;
      assert defs[..0] == [];
    } else {
      var rest := done + [one.result.value];
      var j := StopsAtFirstFailure(a, one.served, defs[1..], answers, at + 1, rest);
      i := j + 1;
      assert defs[..i][0] == d && defs[..i][1..] == defs[1..][..j];
      assert defs[i] == defs[1..][j] && at + 1 + j == at + i;
    }
  }

  const GOOD: nat -> Answer := _ => Answer(true, Applied)

  /** Where nothing outside fails: what the list leads to, and whether every key could be derived. */
  function Completed(a: Agent, served: Served, defs: seq<Definition>): (Served, bool) {
    Ending(InstallAll(a, served, defs, GOOD, 0, []))
  }

  function Ending(r: Installed<seq<InstallResult>>): (Served, bool) {
    (r.served, r.result.Ok?)
  }

  /** Positions and earlier results do not matter to what gets served. */
  lemma {:induction false} ServedSame(a: Agent, served: Served, defs: seq<Definition>, at: nat,
                                      done: seq<InstallResult>)
    ensures Ending(InstallAll(a, served, defs, GOOD, at, done)) == Completed(a, served, defs)
    decreases |defs|
  {
    hide Inject, RequiresEncryption, HasEncryption;
    if defs != [] {
      var one := Install(a, served, defs[0], Answer(true, Applied));
      if one.result.Ok? {
        ServedSame(a, one.served, defs[1..], at + 1, done + [one.result.value]);
        ServedSame(a, one.served, defs[1..], 1, [one.result.value]);
        assert [] + [one.result.value] == [one.result.value];
      }
    }
  }

  lemma CompletedCons(a: Agent, served: Served, defs: seq<Definition>)
    requires defs != []
    ensures var one := Install(a, served, defs[0], Answer(true, Applied));
            Completed(a, served, defs) == if one.result.Ok? then Completed(a, one.served, defs[1..])
              else (one.served, false)
  {
    hide Install;
    var one := Install(a, served, defs[0], Answer(true, Applied));
    if one.result.Ok? {
      ServedSame(a, one.served, defs[1..], 1, [] + [one.result.value]);
    }
  }

  /** A rerun after any failed or partial run converges: it ends where one undisturbed run from the start
      would have ended. */
  lemma {:induction false} RerunConverges(a: Agent, served: Served, defs: seq<Definition>, answers: nat -> Answer,
                                          at: nat, done: seq<InstallResult>)
    ensures Completed(a, InstallAll(a, served, defs, answers, at, done).served, defs) == Completed(a, served, defs)
    decreases |defs|
  {
    hide Inject, RequiresEncryption, HasEncryption, Completed;
    if defs != [] {
      var d := defs[0];
      var key := (a.tenant, d.protocol);
      var one := Install(a, served, d, answers(at));
      var later := InstallAll(a, served, defs, answers, at, done).served;
      if Prepared(a, d).Ok? {
        PreparedKeepsName(a, d);
      }
      CompletedCons(a, served, defs);
      CompletedCons(a, later, defs);
      if one.result.Ok? {
        RerunConverges(a, one.served, defs[1..], answers, at + 1, done + [one.result.value]);
        InstallsOnlyAdd(a, one.served, defs[1..], answers, at + 1, done + [one.result.value], key);
      }
    }
  }

  /** After a completed run, another changes nothing whatever the endpoint answers, and succeeds without
      installing anything as long as its queries work. */
  lemma {:induction false} RerunChangesNothing(a: Agent, served: Served, defs: seq<Definition>,
                                               answers: nat -> Answer, at: nat, done: seq<InstallResult>)
    requires forall d <- defs :: (a.tenant, d.protocol) in served
    ensures var r := InstallAll(a, served, defs, answers, at, done);
            && r.served == served
            && ((forall i: nat :: at <= i < at + |defs| ==> answers(i).query) ==> r.result.Ok?)
            && (r.result.Ok? ==> |r.result.value| == |done| + |defs| && done <= r.result.value
                                 && forall i :: |done| <= i < |r.result.value| ==> !r.result.value[i].installed)
    decreases |defs|
  {
    hide Inject, RequiresEncryption, HasEncryption;
    if defs != [] {
      var one := Install(a, served, defs[0], answers(at));
      if one.result.Ok? {
        var rest := done + [one.result.value];
        RerunChangesNothing(a, served, defs[1..], answers, at + 1, rest);
        var r := InstallAll(a, served, defs[1..], answers, at + 1, rest);
        if r.result.Ok? {
          assert r.result.value[|done|] == rest[|done|];
        }
      }
    }
  }

  // ------------------------------------------------------------------ the whole flow

  /** A completed flow leaves every listed protocol served by both endpoints. Completed or not, nothing that
      was served has changed. */
  lemma FlowServesAll(a: Agent, local: Served, remote: Served, defs: seq<Definition>, la: nat -> Answer,
                      ra: nat -> Answer, key: (string, string))
    ensures var f := RunFlow(a, local, remote, defs, la, ra);
            && (key in local ==> key in f.local && f.local[key] == local[key])
            && (key in remote ==> key in f.remote && f.remote[key] == remote[key])
            && (f.result.Ok? && key.0 == a.tenant && Lists(defs, key.1) ==> key in f.local && key in f.remote)
  {
    hide InstallAll, Lists;
    InstallsOnlyAdd(a, local, defs, la, 0, [], key);
    InstallsOnlyAdd(a, remote, defs, ra, 0, [], key);
  }

  /** The local installs come first. If they fail, the flow fails with their error and never reaches the remote
      endpoint; otherwise the pushes are a run of the same list, and the flow reports both. */
  lemma LocalComesFirst(a: Agent, local: Served, remote: Served, defs: seq<Definition>, la: nat -> Answer,
                        ra: nat -> Answer)
    ensures var f, l, r := RunFlow(a, local, remote, defs, la, ra), InstallAll(a, local, defs, la, 0, []),
              InstallAll(a, remote, defs, ra, 0, []);
            && f.local == l.served
            && (l.result.Err? ==> f.remote == remote && f.result == Err(l.result.error))
            && (l.result.Ok? ==> f.remote == r.served)
            && (l.result.Ok? && r.result.Err? ==> f.result == Err(r.result.error))
            && (f.result.Ok? ==> f.result.value.0 == l.result.value && f.result.value.1 == r.result.value)
            && (f.result.Ok?
                <==> (&& (forall i :: 0 <= i < |defs| ==> GoesThrough(a, local, defs, i, la, 0))
                      && (forall i :: 0 <= i < |defs| ==> GoesThrough(a, remote, defs, i, ra, 0))))
  {
    hide InstallAll, GoesThrough;
    CompletesIff(a, local, defs, la, 0, []);
    CompletesIff(a, remote, defs, ra, 0, []);
  }

  lemma AllListedServed(a: Agent, served: Served, defs: seq<Definition>, answers: nat -> Answer)
    requires InstallAll(a, served, defs, answers, 0, []).result.Ok?
    ensures forall d <- defs :: (a.tenant, d.protocol) in InstallAll(a, served, defs, answers, 0, []).served
  {
    hide InstallAll;
    forall d <- defs
      ensures (a.tenant, d.protocol) in InstallAll(a, served, defs, answers, 0, []).served
    {
      assert Lists(defs, d.protocol);
      InstallsOnlyAdd(a, served, defs, answers, 0, [], (a.tenant, d.protocol));
    }
  }

  /** Rerunning the flow after a failure anywhere: an undisturbed rerun ends in the same two endpoint states
      as one undisturbed run from the beginning, and completes exactly when that one does. */
  lemma FlowConverges(a: Agent, local: Served, remote: Served, defs: seq<Definition>, la: nat -> Answer,
                      ra: nat -> Answer)
    ensures var f := RunFlow(a, local, remote, defs, la, ra);
            var again := RunFlow(a, f.local, f.remote, defs, GOOD, GOOD);
            var once := RunFlow(a, local, remote, defs, GOOD, GOOD);
            again.local == once.local && again.remote == once.remote && again.result.Ok? == once.result.Ok?
  {
    hide InstallAll;
    RerunConverges(a, local, defs, la, 0, []);
    RerunConverges(a, remote, defs, ra, 0, []);
    var l := InstallAll(a, local, defs, la, 0, []);
    if l.result.Ok? {
      AllListedServed(a, local, defs, la);
      RerunChangesNothing(a, l.served, defs, GOOD, 0, []);
    }
  }

  /** Running the flow again after it completed changes neither endpoint. */
  lemma FlowStable(a: Agent, local: Served, remote: Served, defs: seq<Definition>, la: nat -> Answer,
                   ra: nat -> Answer, la2: nat -> Answer, ra2: nat -> Answer)
    requires RunFlow(a, local, remote, defs, la, ra).result.Ok?
    ensures var f := RunFlow(a, local, remote, defs, la, ra);
            var again := RunFlow(a, f.local, f.remote, defs, la2, ra2);
            again.local == f.local && again.remote == f.remote
  {
    hide InstallAll;
    var f := RunFlow(a, local, remote, defs, la, ra);
    AllListedServed(a, local, defs, la);
    AllListedServed(a, remote, defs, ra);
    RerunChangesNothing(a, f.local, defs, la2, 0, []);
    RerunChangesNothing(a, f.remote, defs, ra2, 0, []);
  }

  /** A protocol installed with encryption is reported as encrypted by a later run exactly when it has a
      position to hold a key: some position that is not a reference, or one that carried a key already. */
  lemma RerunReportsEncryption(a: Agent, served: Served, d: Definition)
    requires RequiresEncryption(d) && Install(a, served, d, Answer(true, Applied)).result.Ok?
    requires (a.tenant, d.protocol) !in served
    ensures var first := Install(a, served, d, Answer(true, Applied));
            var second := Install(a, first.served, d, Answer(true, Applied));
            && first.result.value.encryptionActive && second.result.Ok?
            && (second.result.value.encryptionActive
                <==> (exists p: Path :: NonReferenceAt(Root(d), p)) || HasEncryption(d))
  {
    hide Inject, HasEncryption, NonReferenceAt, RequiresEncryption;
    PreparedKeepsName(a, d);
    InjectedHasEncryption(a.kdf, a.keys, a.rootKeyId, d);
  }

  /** A protocol that is one reference: installed as encrypted, and not encrypted when asked again. */
  lemma ReferenceOnlyProtocol(a: Agent, served: Served)
    requires a.rootKeyId.Some? && StoredKey(a.keys, a.rootKeyId.value).Ok? && (a.tenant, "p") !in served
    ensures var d := Definition("p", None, map["note" := Some(true)],
                                map["other" := RuleSet(Rule(None, [], None, Some("q:note"), JNull), map[])], JNull);
            var first := Install(a, served, d, Answer(true, Applied));
            var second := Install(a, first.served, d, Answer(true, Applied));
            first.result == Ok(InstallResult("p", true, true)) && second.result == Ok(InstallResult("p", false, false))
  {
    hide Inject, Collect, StoredKey;
    var reference := RuleSet(Rule(None, [], None, Some("q:note"), JNull), map[]);
    var d := Definition("p", None, map["note" := Some(true)], map["other" := reference], JNull);
    assert d.encryptionRequired["note"] == Some(true);
    forall p: Path
      ensures !NonReferenceAt(Root(d), p)
    {
      if p != [] {
        var q := p[1..];
        assert p == [p[0]] + q;
        AtCons(Root(d), p[0], q);
        if p[0] == "other" && q != [] {
          assert q == [q[0]] + q[1..];
          AtCons(reference, q[0], q[1..]);
        }
      }
    }
    InjectExact(a.kdf, a.keys, a.rootKeyId, d);
    PreparedKeepsName(a, d);
    assert !HasEncryption(d);
    RerunReportsEncryption(a, served, d);
  }
}
