/** What holds over every interleaving of repository calls. */
module RepositoryTheorems {
  import opened Options
  import opened Envelope
  import opened Builders
  import opened Repository

  lemma {:induction false} RunsKeep(sch: Schema, s: State, actions: seq<Action>, t: State)
    requires Inv(sch, s) && Runs(sch, s, actions, t)
    ensures Inv(sch, t) && t.initial == s.initial
    decreases |actions|
  {
    hide Inv;
    if actions != [] {
      InvStep(sch, s, actions[0]);
      RunsKeep(sch, Apply(sch, s, actions[0]), actions[1..], t);
    }
  }

  lemma ReachableInv(sch: Schema, s: State)
    requires Reachable(sch, s)
    ensures Inv(sch, s)
  {
    var s0: State, actions: seq<Action> :| Initial(s0) && Runs(sch, s0, actions, s);
    InvInitial(sch, s0);
    RunsKeep(sch, s0, actions, s);
  }

  // ----- linearizability

  /** `after` and `value` are what the call's builder gives on the stored value `before`. */
  ghost predicate Built(sch: Schema, k: Client, before: Json, after: Json, value: Value) {
    exists env: Env, next: Env, stamp: real {:trigger Build(sch, k.call, env, k.newId, stamp), EncodeEnvelope(next)} ::
      && MigrateEnvelope(sch, before) == Some(env)
      && Build(sch, k.call, env, k.newId, stamp) == Commit(next, value)
      && after == EncodeEnvelope(next)
  }

  /** Swap number `i` is the one moment at which call `c` took effect. */
  ghost predicate TookEffect(sch: Schema, s: State, c: nat, i: nat, value: Value)
    requires c in s.clients
  {
    && s.clients[c].since <= i < |s.log| && s.log[i].client == c
    && Built(sch, s.clients[c], Version(s, i), Version(s, i + 1), value)
  }

  lemma SwapTakesEffect(sch: Schema, s: State, i: nat)
    requires Inv(sch, s) && i < |s.log|
    ensures s.log[i].client in s.clients
    ensures TookEffect(sch, s, s.log[i].client, i, s.log[i].value)
    ensures s.clients[s.log[i].client].phase == Done(Ok(s.log[i].value))
  {
    hide LockInv, ClientInv, Build, MigrateEnvelope, EncodeEnvelope, Refused;
    assert SwapInv(sch, s, i);
    var w := s.log[i];
    var k := s.clients[w.client];
    var m := Build(sch, k.call, w.env, k.newId, w.stamp);
    assert m == Commit(m.next, m.value);
    assert EncodeEnvelope(m.next) == Version(s, i + 1);
  }

  /** Every call takes effect at one swap after it was made, with the value it returns, or not at all;
      the returned value and the next stored envelope are its builder's on the envelope stored then;
      and the stored values form one chain of such steps. */
  lemma CallsAreLinearizable(sch: Schema, s: State)
    requires Reachable(sch, s)
    ensures s.cell == Version(s, |s.log|) && Version(s, 0) == s.initial
    ensures forall i :: 0 <= i < |s.log| ==>
              var c := s.log[i].client;
              c in s.clients && s.clients[c].phase.Done? && s.clients[c].phase.result.Ok?
              && TookEffect(sch, s, c, i, s.clients[c].phase.result.value)
    ensures forall i, j :: 0 <= i < j < |s.log| ==> s.log[i].client != s.log[j].client
    ensures forall c :: c in s.clients && s.clients[c].phase.Done? && s.clients[c].phase.result.Ok? ==>
              exists i :: 0 <= i < |s.log| && s.log[i].client == c
    ensures forall c, i ::
              c in s.clients && 0 <= i < |s.log| && s.log[i].client == c ==>
                s.clients[c].phase.Done? && s.clients[c].phase.result.Ok?
  {
    hide TookEffect;
    ReachableInv(sch, s);
    forall i | 0 <= i < |s.log|
      ensures var c := s.log[i].client;
              c in s.clients && s.clients[c].phase.Done? && s.clients[c].phase.result.Ok?
              && TookEffect(sch, s, c, i, s.clients[c].phase.result.value)
    {
      SwapTakesEffect(sch, s, i);
    }
  }

  /** A conflict result carries a project that was stored at some moment during the call. */
  lemma ConflictsAreReal(sch: Schema, s: State, c: nat)
    requires Reachable(sch, s) && c in s.clients
    requires s.clients[c].phase.Done? && s.clients[c].phase.result.ConflictWith?
    ensures WasStored(sch, s, s.clients[c], s.clients[c].phase.result.current)
  {
    ReachableInv(sch, s);
    assert ClientInv(sch, s, s.clients[c]);
  }

  /** While a call is not done, it or the holder of the lock can go on. */
  lemma SomeoneCanGoOn(sch: Schema, s: State, c: nat)
    requires Reachable(sch, s) && c in s.clients && !s.clients[c].phase.Done?
    ensures CanTake(s, Read(c, false, 0.0)) || CanTake(s, Refresh(c, false))
            || CanTake(s, Compare(false)) || CanTake(s, Write(false))
  {
    hide ClientInv, SwapInv, Version;
    ReachableInv(sch, s);
  }

  // ----- every stored envelope

  ghost predicate GoodIds(s: State) {
    forall c :: c in s.clients ==> GoodId(s.clients[c].newId)
  }

  /** From empty storage, with ids from the generator within bounds, every stored value is read again
      as an envelope that keeps the invariant, and no revision exceeds the number of swaps. */
  lemma {:induction false} StoredEnvelopesValid(sch: Schema, s: State, n: nat)
    requires Lawful(sch) && Reachable(sch, s) && s.initial == Undefined && GoodIds(s)
    requires n <= |s.log| && n <= MAX_SAFE_INTEGER
    ensures MigrateEnvelope(sch, Version(s, n)).Some?
    ensures EnvInv(sch, MigrateEnvelope(sch, Version(s, n)).value, n)
    decreases n
  {
    hide EnvInv, StorableEnv, Build, EncodeEnvelope, MigrateEnvelope, Reachable, Inv, Lawful, Refused;
    if n == 0 {
      EmptyIsValid(sch);
    } else {
      StoredEnvelopesValid(sch, s, n - 1);
      ReachableInv(sch, s);
      SwapAt(sch, s, n - 1);
      var w := s.log[n - 1];
      var k := s.clients[w.client];
      CommitKeeps(sch, k.call, w.env, k.newId, w.stamp, n - 1);
      var next := Build(sch, k.call, w.env, k.newId, w.stamp).next;
      InvIsStorable(sch, next, n);
      EnvelopeReadBack(sch, next);
    }
  }

  lemma SwapAt(sch: Schema, s: State, i: nat)
    requires Inv(sch, s) && i < |s.log|
    ensures SwapInv(sch, s, i) && s.log[i].client in s.clients
  {
  }

  lemma EmptyIsValid(sch: Schema)
    ensures MigrateEnvelope(sch, Undefined) == Some(EmptyEnv)
    ensures EnvInv(sch, EmptyEnv, 0)
  {
  }

  // ----- no lost save

  ghost function EnvAt(sch: Schema, s: State, n: nat): Env
    requires n <= |s.log|
  {
    var read := MigrateEnvelope(sch, Version(s, n));
    if read.Some? then read.value else EmptyEnv
  }

  /** One swap changes a surviving project only by raising its revision by one; a save does exactly
      that, from the revision it expects. */
  lemma SwapStepsRevisions(sch: Schema, s: State, i: nat)
    requires Lawful(sch) && Reachable(sch, s) && s.initial == Undefined && GoodIds(s)
    requires i < |s.log| < MAX_SAFE_INTEGER
    ensures s.log[i].client in s.clients
    ensures RevisionsStep(EnvAt(sch, s, i), EnvAt(sch, s, i + 1))
    ensures var call := s.clients[s.log[i].client].call;
            call.Save? ==>
              && call.projectId in EnvAt(sch, s, i).projects && call.projectId in EnvAt(sch, s, i + 1).projects
              && EnvAt(sch, s, i).projects[call.projectId].revision == call.revision
              && EnvAt(sch, s, i + 1).projects[call.projectId].revision == call.revision + 1
  {
    hide EnvInv, Build, EncodeEnvelope, Reachable, ClientInv, LockInv, RevisionsStep, Inv;
    StoredEnvelopesValid(sch, s, i);
    ReachableInv(sch, s);
    SwapAt(sch, s, i);
    var w := s.log[i];
    var k := s.clients[w.client];
    InvGivesIds(sch, w.env, i);
    CommitStepsRevisions(sch, k.call, w.env, k.newId, w.stamp);
    CommitKeeps(sch, k.call, w.env, k.newId, w.stamp, i);
    var next := Build(sch, k.call, w.env, k.newId, w.stamp).next;
    InvIsStorable(sch, next, i + 1);
    EnvelopeReadBack(sch, next);
    if k.call.Save? {
      SaveStaysPresent(sch, k.call, w.env, k.newId, w.stamp);
    }
  }

  lemma InvGivesIds(sch: Schema, e: Env, bound: int)
    requires EnvInv(sch, e, bound)
    ensures forall id :: id in e.projects ==> e.projects[id].id == id
  {
  }

  lemma SaveStaysPresent(sch: Schema, call: Call, e: Env, newId: string, stamp: real)
    requires forall id :: id in e.projects ==> e.projects[id].id == id
    requires call.Save? && Build(sch, call, e, newId, stamp).Commit?
    ensures call.projectId in Build(sch, call, e, newId, stamp).next.projects
  {
  }

  lemma {:induction false} RevisionsOnlyGrow(sch: Schema, s: State, id: string, i: nat, j: nat)
    requires Lawful(sch) && Reachable(sch, s) && s.initial == Undefined && GoodIds(s)
    requires i <= j <= |s.log| < MAX_SAFE_INTEGER
    requires forall n: nat :: i <= n <= j ==> id in EnvAt(sch, s, n).projects
    ensures EnvAt(sch, s, i).projects[id].revision <= EnvAt(sch, s, j).projects[id].revision
    decreases j - i
  {
    hide EnvAt, Reachable, GoodIds, Lawful;
    if i < j {
      RevisionsOnlyGrow(sch, s, id, i, j - 1);
      SwapStepsRevisions(sch, s, j - 1);
    }
  }

  /** No lost save: of two saves of one project that expect the same revision only one can succeed,
      unless the project was removed between them. */
  lemma NoLostSave(sch: Schema, s: State, id: string, revision: int, i: nat, j: nat)
    requires Lawful(sch) && Reachable(sch, s) && s.initial == Undefined && GoodIds(s)
    requires i < j < |s.log| < MAX_SAFE_INTEGER
    requires s.log[i].client in s.clients && s.log[j].client in s.clients
    requires var call := s.clients[s.log[i].client].call; call.Save? && call.projectId == id && call.revision == revision
    requires var call := s.clients[s.log[j].client].call; call.Save? && call.projectId == id && call.revision == revision
    ensures exists n: nat :: i < n <= j && id !in EnvAt(sch, s, n).projects
  {
    hide EnvAt, Reachable, GoodIds, Lawful;
    SwapStepsRevisions(sch, s, i);
    SwapStepsRevisions(sch, s, j);
    if forall n: nat :: i + 1 <= n <= j ==> id in EnvAt(sch, s, n).projects {
      RevisionsOnlyGrow(sch, s, id, i + 1, j);
    }
  }
}
