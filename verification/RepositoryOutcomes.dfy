/** When a repository call succeeds, and why it does not: over every run, each result of `mutate`
    (`packages/browser-core/src/repository.ts:483-539`) is traced back to what happened in the run. */
module RepositoryOutcomes {
  import opened Options
  import opened Envelope
  import opened Builders
  import opened BuilderEffects
  import opened Repository
  import opened RepositoryTheorems

  // ----- left alone, a call succeeds

  /** Only `c` acts, it makes no further call, and no storage access throws. */
  predicate Alone(c: nat, actions: seq<Action>) {
    forall i :: 0 <= i < |actions| ==>
      match actions[i]
      case Start(_, _, _) => false
      case Read(d, throws, _) => d == c && !throws
      case Compare(throws) => !throws
      case Write(throws) => !throws
      case Refresh(d, throws) => d == c && !throws
  }

  /** The builder of `k` commits on the stored value. */
  ghost predicate WouldCommit(sch: Schema, s: State, k: Client, stamp: real) {
    && MigrateEnvelope(sch, s.cell).Some?
    && Build(sch, k.call, MigrateEnvelope(sch, s.cell).value, k.newId, stamp).Commit?
  }

  /** The call is done, with what its builder gives on the value stored at first, and that is now stored. */
  ghost predicate Succeeded(sch: Schema, s: State, k: Client, c: nat, stamp: real, t: State) {
    && WouldCommit(sch, s, k, stamp)
    && var m := Build(sch, k.call, MigrateEnvelope(sch, s.cell).value, k.newId, stamp);
       && c in t.clients && t.clients[c].phase == Done(Ok(m.value)) && t.cell == EncodeEnvelope(m.next)
  }

  /** With the lock free, no throwing access and nobody in between, a call that is about to read goes through,
      whatever attempt it is at. */
  lemma UndisturbedSucceeds(sch: Schema, s: State, c: nat, stamp: real) returns (t: State)
    requires s.lock == [] && c in s.clients && s.clients[c].phase.Reading?
    requires WouldCommit(sch, s, s.clients[c], stamp)
    ensures Runs(sch, s, [Read(c, false, stamp), Compare(false), Write(false)], t)
    ensures Succeeded(sch, s, s.clients[c], c, stamp, t)
  {
    hide MigrateEnvelope, Build, EncodeEnvelope, Runs;
    var actions := [Read(c, false, stamp), Compare(false), Write(false)];
    var s1 := Apply(sch, s, actions[0]);
    var s2 := Apply(sch, s1, actions[1]);
    t := Apply(sch, s2, actions[2]);
    ThreeSteps(sch, s, actions, s1, s2, t);
  }

  lemma ThreeSteps(sch: Schema, s: State, actions: seq<Action>, s1: State, s2: State, t: State)
    requires |actions| == 3 && CanTake(s, actions[0]) && s1 == Apply(sch, s, actions[0])
    requires CanTake(s1, actions[1]) && s2 == Apply(sch, s1, actions[1])
    requires CanTake(s2, actions[2]) && t == Apply(sch, s2, actions[2])
    ensures Runs(sch, s, actions, t)
  {
    hide Apply, CanTake;
    assert Runs(sch, t, [], t);
    RunStep(sch, s2, actions[2..], t, t);
    RunStep(sch, s1, actions[1..], s2, t);
    RunStep(sch, s, actions, s1, t);
  }

  lemma RunStep(sch: Schema, s: State, actions: seq<Action>, next: State, t: State)
    requires actions != [] && CanTake(s, actions[0]) && next == Apply(sch, s, actions[0]) && Runs(sch, next, actions[1..], t)
    ensures Runs(sch, s, actions, t)
  {
    hide Apply, CanTake;
  }

  /** And nothing else can happen to it: however it runs to its end undisturbed, it succeeds. */
  lemma UndisturbedOnlySucceeds(sch: Schema, s: State, c: nat, actions: seq<Action>, t: State) returns (stamp: real)
    requires s.lock == [] && c in s.clients && s.clients[c].phase.Reading?
    requires forall now: real :: WouldCommit(sch, s, s.clients[c], now)
    requires Alone(c, actions) && Runs(sch, s, actions, t) && c in t.clients && t.clients[c].phase.Done?
    ensures actions == [Read(c, false, stamp), Compare(false), Write(false)]
    ensures Succeeded(sch, s, s.clients[c], c, stamp, t)
  {
    hide MigrateEnvelope, Build, EncodeEnvelope, WouldCommit, Runs;
    var s1 := FirstStep(sch, s, actions, t);
    assert actions[0].Read? by {
      assert CanTake(s, actions[0]);
    }
    stamp := actions[0].stamp;
    assert WouldCommit(sch, s, s.clients[c], stamp);
    AfterCommittingRead(sch, s, c, stamp);
    var rest := actions[1..];
    var s2 := FirstStep(sch, s1, rest, t);
    assert rest[0] == actions[1] && rest[0] == Compare(false);
    var last := rest[1..];
    var s3 := FirstStep(sch, s2, last, t);
    assert last[0] == actions[2] && last[0] == Write(false);
    assert s3.lock == [] && s3.clients[c].phase.Done?;
    NoStepLeft(sch, s3, c, last[1..], t);
    assert WouldCommit(sch, s, s.clients[c], stamp) ==>
      Build(sch, s.clients[c].call, MigrateEnvelope(sch, s.cell).value, s.clients[c].newId, stamp).Commit? by {
      CommitParts(sch, s, s.clients[c], stamp);
    }
  }

  lemma CommitParts(sch: Schema, s: State, k: Client, stamp: real)
    requires WouldCommit(sch, s, k, stamp)
    ensures MigrateEnvelope(sch, s.cell).Some? && Build(sch, k.call, MigrateEnvelope(sch, s.cell).value, k.newId, stamp).Commit?
  {
  }

  lemma AfterCommittingRead(sch: Schema, s: State, c: nat, stamp: real)
    requires s.lock == [] && c in s.clients && s.clients[c].phase.Reading? && WouldCommit(sch, s, s.clients[c], stamp)
    ensures var k := s.clients[c];
            && MigrateEnvelope(sch, s.cell).Some?
            && var waiting := Waiting(k.phase.attempt, s.cell, MigrateEnvelope(sch, s.cell).value, stamp);
               Apply(sch, s, Read(c, false, stamp)) == s.(clients := s.clients[c := k.(phase := waiting)], lock := [c])
  {
    hide MigrateEnvelope, Build;
  }

  /** A run that is not over takes its first step. */
  lemma FirstStep(sch: Schema, s: State, actions: seq<Action>, t: State) returns (next: State)
    requires Runs(sch, s, actions, t) && (actions == [] ==> s != t)
    ensures actions != [] && CanTake(s, actions[0]) && next == Apply(sch, s, actions[0]) && Runs(sch, next, actions[1..], t)
  {
    hide Apply, CanTake;
    next := Apply(sch, s, actions[0]);
  }

  lemma NoStepLeft(sch: Schema, s: State, c: nat, actions: seq<Action>, t: State)
    requires s.lock == [] && c in s.clients && s.clients[c].phase.Done? && Alone(c, actions) && Runs(sch, s, actions, t)
    ensures actions == [] && s == t
  {
    hide Apply;
  }

  // ----- a run with its states

  /** `states[i]` is the state before `actions[i]`; nothing had happened before the first. */
  ghost predicate History(sch: Schema, states: seq<State>, actions: seq<Action>) {
    && |states| == |actions| + 1 && Initial(states[0])
    && forall i :: 0 <= i < |actions| ==> CanTake(states[i], actions[i]) && states[i + 1] == Apply(sch, states[i], actions[i])
  }

  lemma {:induction false} HistoryFrom(sch: Schema, s: State, actions: seq<Action>, t: State) returns (states: seq<State>)
    requires Runs(sch, s, actions, t)
    ensures |states| == |actions| + 1 && states[0] == s && states[|actions|] == t
    ensures forall i :: 0 <= i < |actions| ==> CanTake(states[i], actions[i]) && states[i + 1] == Apply(sch, states[i], actions[i])
    decreases |actions|
  {
    hide Apply, CanTake;
    if actions == [] {
      states := [s];
    } else {
      var rest := HistoryFrom(sch, Apply(sch, s, actions[0]), actions[1..], t);
      states := [s] + rest;
      forall i | 0 <= i < |actions| ensures CanTake(states[i], actions[i]) && states[i + 1] == Apply(sch, states[i], actions[i]) {
        if i > 0 {
          assert actions[i] == actions[1..][i - 1];
        }
      }
    }
  }

  /** Every run is such a history. */
  lemma RunHasHistory(sch: Schema, s: State, actions: seq<Action>, t: State) returns (states: seq<State>)
    requires Initial(s) && Runs(sch, s, actions, t)
    ensures History(sch, states, actions) && states[0] == s && states[|actions|] == t
  {
    hide Initial;
    states := HistoryFrom(sch, s, actions, t);
  }

  lemma {:induction false} InvAlong(sch: Schema, states: seq<State>, actions: seq<Action>, n: nat)
    requires History(sch, states, actions) && n <= |actions|
    ensures Inv(sch, states[n])
  {
    hide Inv, Apply, CanTake;
    if n == 0 {
      InvInitial(sch, states[0]);
    } else {
      InvAlong(sch, states, actions, n - 1);
      InvStep(sch, states[n - 1], actions[n - 1]);
    }
  }

  lemma StepExtendsLog(sch: Schema, s: State, a: Action)
    requires CanTake(s, a)
    ensures s.log <= Apply(sch, s, a).log && Apply(sch, s, a).initial == s.initial
  {
    hide MigrateEnvelope, Build, EncodeEnvelope, Refused;
  }

  lemma {:induction false} LogGrows(sch: Schema, states: seq<State>, actions: seq<Action>, m: nat, n: nat)
    requires History(sch, states, actions) && m <= n <= |actions|
    ensures states[m].log <= states[n].log && states[m].initial == states[n].initial
    decreases n - m
  {
    hide Apply, CanTake;
    if m < n {
      LogGrows(sch, states, actions, m, n - 1);
      StepExtendsLog(sch, states[n - 1], actions[n - 1]);
    }
  }

  // ----- lost swaps

  /** Between moments `r` and `i` somebody else swapped. */
  predicate OtherSwapped(states: seq<State>, c: nat, r: nat, i: nat)
    requires r < |states| && i < |states|
  {
    |states[r].log| < |states[i].log|
    && forall m :: |states[r].log| <= m < |states[i].log| ==> states[i].log[m].client != c
  }

  /** Call `c` read at moment `r`, and at moment `i` failed to swap what it had built: another caller had swapped
      since, or the storage access threw. */
  predicate LostSwap(states: seq<State>, actions: seq<Action>, c: nat, r: nat, i: nat)
    requires |states| == |actions| + 1 && i < |actions|
  {
    && r < i && actions[r].Read? && actions[r].client == c && !actions[r].throws
    && states[i].lock != [] && states[i].lock[0] == c
    && (actions[i] == Compare(true) || actions[i] == Write(true)
        || (actions[i] == Compare(false) && OtherSwapped(states, c, r, i)))
  }

  /** Before moment `n` the call lost `k` swaps, each read for anew after the one before. */
  ghost predicate LostTimes(states: seq<State>, actions: seq<Action>, c: nat, n: nat, k: nat)
    requires |states| == |actions| + 1 && n <= |actions|
    decreases k
  {
    k == 0
    || exists r: nat, i: nat :: r < i < n && LostSwap(states, actions, c, r, i) && LostTimes(states, actions, c, r, k - 1)
  }

  // ----- reasons

  /** An access of the call itself threw before moment `n`. */
  predicate OwnAccessThrew(actions: seq<Action>, c: nat, n: nat)
    requires n <= |actions|
  {
    exists i :: 0 <= i < n && AccessThrew(actions[i], c)
  }

  predicate AccessThrew(a: Action, c: nat) {
    (a.Read? || a.Refresh?) && a.client == c && a.throws
  }

  /** Something held of a version stored since the call began. */
  ghost predicate UnreadableSince(sch: Schema, s: State, k: Client) {
    exists v: nat :: k.since <= v <= |s.log| && Unreadable(sch, Version(s, v))
  }

  predicate Unreadable(sch: Schema, raw: Json) { MigrateEnvelope(sch, raw).None? }

  ghost predicate BuilderSaid(sch: Schema, s: State, k: Client, m: Mutation) {
    exists v: nat, stamp: real {:trigger Says(sch, k, Version(s, v), stamp, m)} ::
      k.since <= v <= |s.log| && Says(sch, k, Version(s, v), stamp, m)
  }

  ghost predicate Says(sch: Schema, k: Client, raw: Json, stamp: real, m: Mutation) {
    MigrateEnvelope(sch, raw).Some? && Build(sch, k.call, MigrateEnvelope(sch, raw).value, k.newId, stamp) == m
  }

  /** The project was stored under the id the save is for. */
  ghost predicate StoredForSave(sch: Schema, s: State, k: Client, current: StoredProject) {
    k.call.Save? && exists v: nat :: k.since <= v <= |s.log| && HoldsAt(sch, Version(s, v), k.call.projectId, current)
  }

  predicate HoldsAt(sch: Schema, raw: Json, id: string, p: StoredProject) {
    && MigrateEnvelope(sch, raw).Some?
    && id in MigrateEnvelope(sch, raw).value.projects && MigrateEnvelope(sch, raw).value.projects[id] == p
  }

  /** Why a call `c` that is done by moment `n` has the result it has. */
  ghost predicate Explained(sch: Schema, states: seq<State>, actions: seq<Action>, n: nat, c: nat)
    requires |states| == |actions| + 1 && n <= |actions| && c in states[n].clients && states[n].clients[c].phase.Done?
  {
    var k := states[n].clients[c];
    match k.phase.result
    case Ok(value) => exists m :: 0 <= m < |states[n].log| && states[n].log[m].client == c && states[n].log[m].value == value
    case Failed(code) =>
      || (code == Invariant && Refused(sch, k.call, k.newId))
      || (code == StorageCorrupt && (OwnAccessThrew(actions, c, n) || UnreadableSince(sch, states[n], k)))
      || BuilderSaid(sch, states[n], k, Failure(code))
      || (code == StorageConflict && LostTimes(states, actions, c, n, if k.call.Save? then 1 else 3))
    case Rejected => BuilderSaid(sch, states[n], k, Mutation.Throws)
    case ConflictWith(current) =>
      || BuilderSaid(sch, states[n], k, Conflict(current))
      || (StoredForSave(sch, states[n], k, current) && LostTimes(states, actions, c, n, 1))
  }

  /** What is known of a call on its way. */
  ghost predicate OnItsWay(sch: Schema, states: seq<State>, actions: seq<Action>, n: nat, c: nat)
    requires |states| == |actions| + 1 && n <= |actions| && c in states[n].clients && !states[n].clients[c].phase.Done?
  {
    match states[n].clients[c].phase
    case Reading(attempt) =>
      attempt < (if states[n].clients[c].call.Save? then 1 else 3) && LostTimes(states, actions, c, n, attempt)
    case Waiting(attempt, raw, _, _) => AfterItsRead(states, actions, n, c, attempt, raw)
    case Swapping(attempt, raw, _, _) => AfterItsRead(states, actions, n, c, attempt, raw)
    case Refreshing(attempt) =>
      attempt == 0 && states[n].clients[c].call.Save? && LostTimes(states, actions, c, n, 1)
  }

  ghost predicate AfterItsRead(states: seq<State>, actions: seq<Action>, n: nat, c: nat, attempt: nat, raw: Json)
    requires |states| == |actions| + 1 && n <= |actions| && c in states[n].clients
  {
    && attempt < (if states[n].clients[c].call.Save? then 1 else 3)
    && exists r: nat :: ReadAt(states, actions, r, c, n, raw) && LostTimes(states, actions, c, r, attempt)
  }

  predicate ReadAt(states: seq<State>, actions: seq<Action>, r: nat, c: nat, n: nat, raw: Json): (there: bool)
    requires |states| == |actions| + 1 && n <= |actions|
    ensures there ==> r < n
  {
    r < n && actions[r].Read? && actions[r].client == c && !actions[r].throws && states[r].cell == raw
  }

  ghost predicate Known(sch: Schema, states: seq<State>, actions: seq<Action>, n: nat, c: nat)
    requires |states| == |actions| + 1 && n <= |actions| && c in states[n].clients
  {
    if states[n].clients[c].phase.Done? then Explained(sch, states, actions, n, c) else OnItsWay(sch, states, actions, n, c)
  }

  // ----- every step explains its result

  lemma LostBefore(states: seq<State>, actions: seq<Action>, c: nat, m: nat, n: nat, k: nat)
    requires |states| == |actions| + 1 && m <= n <= |actions| && LostTimes(states, actions, c, m, k)
    ensures LostTimes(states, actions, c, n, k)
  {
    if k > 0 {
      var r: nat, i: nat :| r < i < m && LostSwap(states, actions, c, r, i) && LostTimes(states, actions, c, r, k - 1);
    }
  }

  lemma OneMoreLost(states: seq<State>, actions: seq<Action>, c: nat, r: nat, i: nat, k: nat)
    requires |states| == |actions| + 1 && r < i < |actions|
    requires LostSwap(states, actions, c, r, i) && LostTimes(states, actions, c, r, k)
    ensures LostTimes(states, actions, c, i + 1, k + 1)
  {
    hide LostSwap;
  }

  lemma VersionsKept(sch: Schema, s: State, t: State, k: Client)
    requires s.log <= t.log && s.initial == t.initial
    ensures UnreadableSince(sch, s, k) ==> UnreadableSince(sch, t, k)
    ensures forall m :: BuilderSaid(sch, s, k, m) ==> BuilderSaid(sch, t, k, m)
    ensures forall p :: StoredForSave(sch, s, k, p) ==> StoredForSave(sch, t, k, p)
  {
    hide Unreadable, Says, HoldsAt;
    assert forall v: nat :: v <= |s.log| ==> Version(t, v) == Version(s, v);
    if UnreadableSince(sch, s, k) {
      var v: nat :| k.since <= v <= |s.log| && Unreadable(sch, Version(s, v));
      assert Unreadable(sch, Version(t, v));
    }
    forall m | BuilderSaid(sch, s, k, m) ensures BuilderSaid(sch, t, k, m) {
      var v: nat, stamp: real :| k.since <= v <= |s.log| && Says(sch, k, Version(s, v), stamp, m);
      assert Says(sch, k, Version(t, v), stamp, m);
    }
    forall p | StoredForSave(sch, s, k, p) ensures StoredForSave(sch, t, k, p) {
      var v: nat :| k.since <= v <= |s.log| && HoldsAt(sch, Version(s, v), k.call.projectId, p);
      assert HoldsAt(sch, Version(t, v), k.call.projectId, p);
    }
  }

  /** A step of somebody else. */
  lemma OthersStep(sch: Schema, states: seq<State>, actions: seq<Action>, n: nat, c: nat)
    requires |states| == |actions| + 1 && n < |actions|
    requires c in states[n].clients && c in states[n + 1].clients && states[n + 1].clients[c] == states[n].clients[c]
    requires states[n].log <= states[n + 1].log && states[n].initial == states[n + 1].initial
    requires Known(sch, states, actions, n, c)
    ensures Known(sch, states, actions, n + 1, c)
  {
    hide UnreadableSince, BuilderSaid, StoredForSave, LostTimes, LostSwap, AccessThrew, ReadAt, Refused;
    var k := states[n].clients[c];
    VersionsKept(sch, states[n], states[n + 1], k);
    forall count: nat | LostTimes(states, actions, c, n, count) ensures LostTimes(states, actions, c, n + 1, count) {
      LostBefore(states, actions, c, n, n + 1, count);
    }
    if k.phase.Done? && k.phase.result.Ok? {
      var m :| 0 <= m < |states[n].log| && states[n].log[m].client == c && states[n].log[m].value == k.phase.result.value;
      assert states[n + 1].log[m] == states[n].log[m];
    }
    if InQueue(k.phase) {
      var r: nat :| ReadAt(states, actions, r, c, n, k.phase.raw) && LostTimes(states, actions, c, r, k.phase.attempt);
      ReadStays(states, actions, r, c, n, k.phase.raw);
    }
  }

  lemma ReadStays(states: seq<State>, actions: seq<Action>, r: nat, c: nat, n: nat, raw: Json)
    requires |states| == |actions| + 1 && n < |actions| && ReadAt(states, actions, r, c, n, raw)
    ensures ReadAt(states, actions, r, c, n + 1, raw)
  {
  }

  predicate Acts(s: State, a: Action, c: nat) {
    match a
    case Start(d, _, _) => d == c
    case Read(d, _, _) => d == c
    case Refresh(d, _) => d == c
    case Compare(_) => s.lock != [] && s.lock[0] == c
    case Write(_) => s.lock != [] && s.lock[0] == c
  }

  lemma OnlyTheActorMoves(sch: Schema, s: State, a: Action, c: nat)
    requires CanTake(s, a) && !Acts(s, a, c)
    ensures c in Apply(sch, s, a).clients <==> c in s.clients
    ensures c in s.clients ==> Apply(sch, s, a).clients[c] == s.clients[c]
  {
    hide MigrateEnvelope, Build, EncodeEnvelope, Refused;
  }

  lemma StartKnown(sch: Schema, states: seq<State>, actions: seq<Action>, n: nat, c: nat)
    requires History(sch, states, actions) && n < |actions| && actions[n].Start? && actions[n].client == c
    ensures c in states[n + 1].clients && Known(sch, states, actions, n + 1, c)
  {
    hide Refused;
    assert states[n + 1] == Apply(sch, states[n], actions[n]);
  }

  lemma ReadKnown(sch: Schema, states: seq<State>, actions: seq<Action>, n: nat, c: nat)
    requires History(sch, states, actions) && n < |actions| && actions[n].Read? && actions[n].client == c
    requires c in states[n].clients && Known(sch, states, actions, n, c) && Inv(sch, states[n])
    ensures c in states[n + 1].clients && Known(sch, states, actions, n + 1, c)
  {
    hide Inv, Build, MigrateEnvelope, LostTimes, LostSwap, Refused;
    var s, a, t := states[n], actions[n], states[n + 1];
    var k := s.clients[c];
    assert CanTake(s, a) && t == Apply(sch, s, a);
    InvParts(sch, s);
    assert ClientInv(sch, s, k);
    if a.throws {
      assert AccessThrew(actions[n], c);
    } else {
      assert s.cell == Version(t, |t.log|) && k.since <= |t.log|;
      if MigrateEnvelope(sch, s.cell).None? {
        assert Unreadable(sch, Version(t, |t.log|));
      } else {
        var m := Build(sch, k.call, MigrateEnvelope(sch, s.cell).value, k.newId, a.stamp);
        assert Says(sch, t.clients[c], Version(t, |t.log|), a.stamp, m);
        assert m.Commit? ==> ReadAt(states, actions, n, c, n + 1, s.cell);
      }
    }
  }

  /** Nothing but another caller's swap changes the cell under a waiting call. */
  lemma ChangedByOther(sch: Schema, states: seq<State>, actions: seq<Action>, r: nat, n: nat, c: nat)
    requires History(sch, states, actions) && r < n < |actions|
    requires states[r].cell != states[n].cell && c in states[n].clients && InQueue(states[n].clients[c].phase)
    ensures OtherSwapped(states, c, r, n)
  {
    hide Apply, CanTake, ClientInv, LockInv;
    InvAlong(sch, states, actions, r);
    InvAlong(sch, states, actions, n);
    LogGrows(sch, states, actions, r, n);
    forall m | |states[r].log| <= m < |states[n].log| ensures states[n].log[m].client != c {
      assert SwapInv(sch, states[n], m);
    }
  }

  /** A swap that did not happen was lost. */
  lemma LostKnown(sch: Schema, states: seq<State>, actions: seq<Action>, n: nat, c: nat)
    requires History(sch, states, actions) && n < |actions|
    requires c in states[n].clients && InQueue(states[n].clients[c].phase) && Known(sch, states, actions, n, c)
    requires states[n].lock != [] && states[n].lock[0] == c
    requires actions[n] == Compare(true) || actions[n] == Write(true)
             || (actions[n] == Compare(false) && states[n].cell != states[n].clients[c].phase.raw)
    ensures LostTimes(states, actions, c, n + 1, states[n].clients[c].phase.attempt + 1)
  {
    hide Apply, CanTake, LostTimes, Initial;
    var phase := states[n].clients[c].phase;
    var r: nat :| ReadAt(states, actions, r, c, n, phase.raw) && LostTimes(states, actions, c, r, phase.attempt);
    if actions[n] == Compare(false) {
      ChangedByOther(sch, states, actions, r, n, c);
    }
    OneMoreLost(states, actions, c, r, n, phase.attempt);
  }

  lemma QueueKnown(sch: Schema, states: seq<State>, actions: seq<Action>, n: nat, c: nat)
    requires History(sch, states, actions) && n < |actions| && (actions[n].Compare? || actions[n].Write?)
    requires states[n].lock != [] && states[n].lock[0] == c && Inv(sch, states[n])
    requires c in states[n].clients && Known(sch, states, actions, n, c)
    ensures c in states[n + 1].clients && Known(sch, states, actions, n + 1, c)
  {
    hide Inv, Build, MigrateEnvelope, EncodeEnvelope, LostTimes, LostSwap, Refused, ReadAt;
    var s, a, t := states[n], actions[n], states[n + 1];
    var k := s.clients[c];
    assert CanTake(s, a) && t == Apply(sch, s, a);
    InvParts(sch, s);
    assert ClientInv(sch, s, k);
    if a == Compare(false) && s.cell == k.phase.raw {
      var r: nat :| ReadAt(states, actions, r, c, n, k.phase.raw) && LostTimes(states, actions, c, r, k.phase.attempt);
      ReadStays(states, actions, r, c, n, k.phase.raw);
    } else if a == Write(false) {
      assert t.log[|s.log|].client == c;
    } else {
      LostKnown(sch, states, actions, n, c);
    }
  }

  lemma RefreshKnown(sch: Schema, states: seq<State>, actions: seq<Action>, n: nat, c: nat)
    requires History(sch, states, actions) && n < |actions| && actions[n].Refresh? && actions[n].client == c
    requires c in states[n].clients && Known(sch, states, actions, n, c) && Inv(sch, states[n])
    ensures c in states[n + 1].clients && Known(sch, states, actions, n + 1, c)
  {
    hide Inv, Build, MigrateEnvelope, LostTimes, LostSwap, Refused;
    var s, a, t := states[n], actions[n], states[n + 1];
    var k := s.clients[c];
    assert CanTake(s, a) && t == Apply(sch, s, a);
    InvParts(sch, s);
    assert ClientInv(sch, s, k);
    LostBefore(states, actions, c, n, n + 1, 1);
    if a.throws {
      assert AccessThrew(actions[n], c);
    } else {
      assert s.cell == Version(t, |t.log|) && k.since <= |t.log|;
      assert MigrateEnvelope(sch, s.cell).None? ==> Unreadable(sch, Version(t, |t.log|));
      if MigrateEnvelope(sch, s.cell).Some? && k.call.projectId in MigrateEnvelope(sch, s.cell).value.projects {
        assert HoldsAt(sch, Version(t, |t.log|), k.call.projectId, MigrateEnvelope(sch, s.cell).value.projects[k.call.projectId]);
      }
    }
  }

  lemma StepKnown(sch: Schema, states: seq<State>, actions: seq<Action>, n: nat, c: nat)
    requires History(sch, states, actions) && n < |actions| && c in states[n + 1].clients
    requires c in states[n].clients ==> Known(sch, states, actions, n, c)
    ensures Known(sch, states, actions, n + 1, c)
  {
    hide Inv, Apply, Known, Initial;
    var s, a := states[n], actions[n];
    assert CanTake(s, a) && states[n + 1] == Apply(sch, s, a);
    InvAlong(sch, states, actions, n);
    if Acts(s, a, c) {
      match a
      case Start(_, _, _) => StartKnown(sch, states, actions, n, c);
      case Read(_, _, _) => ReadKnown(sch, states, actions, n, c);
      case Compare(_) => QueueKnown(sch, states, actions, n, c);
      case Write(_) => QueueKnown(sch, states, actions, n, c);
      case Refresh(_, _) => RefreshKnown(sch, states, actions, n, c);
    } else {
      OnlyTheActorMoves(sch, s, a, c);
      StepExtendsLog(sch, s, a);
      OthersStep(sch, states, actions, n, c);
    }
  }

  lemma {:induction false} AllKnown(sch: Schema, states: seq<State>, actions: seq<Action>, n: nat, c: nat)
    requires History(sch, states, actions) && n <= |actions| && c in states[n].clients
    ensures Known(sch, states, actions, n, c)
  {
    hide Known, Apply, CanTake;
    assert n > 0;
    if c in states[n - 1].clients {
      AllKnown(sch, states, actions, n - 1, c);
    }
    StepKnown(sch, states, actions, n - 1, c);
  }

  /** Over every run every result has its reason: a success is a swap of its own; `Invariant` from the call itself
      is a refusal before the first read; `StorageCorrupt` means that an access of its own threw or an unreadable
      value was stored during the call; any other failure, a rejection or a conflict is what its builder says on a
      version stored during the call; and `StorageConflict` means that it lost three swaps, a save one, each read
      for anew and lost to another caller or to a throwing access. A save that lost its swap may also carry the
      project as it is stored then. */
  lemma ResultsHaveReasons(sch: Schema, states: seq<State>, actions: seq<Action>, c: nat)
    requires History(sch, states, actions)
    requires var s := states[|actions|]; c in s.clients && s.clients[c].phase.Done?
    ensures Explained(sch, states, actions, |actions|, c)
  {
    hide Explained, OnItsWay, History;
    AllKnown(sch, states, actions, |actions|, c);
  }

  // ----- from empty storage

  /** Runs over validated data, from empty storage, with generated ids within bounds. */
  ghost predicate Ordinary(sch: Schema, s: State) {
    && Lawful(sch) && Reachable(sch, s) && s.initial == Undefined && GoodIds(s)
    && |s.log| < MAX_SAFE_INTEGER
  }

  lemma StoredBefore(sch: Schema, s: State, v: nat)
    requires Ordinary(sch, s) && v <= |s.log|
    ensures MigrateEnvelope(sch, Version(s, v)) == Some(EnvAt(sch, s, v)) && EnvInv(sch, EnvAt(sch, s, v), v)
  {
    hide Reachable, GoodIds, Lawful, EnvInv, MigrateEnvelope;
    StoredEnvelopesValid(sch, s, v);
  }

  /** Every swap does to the stored envelope what the arguments of its call say, and gives the caller the stored
      project or envelope. */
  lemma SwapHasEffect(sch: Schema, s: State, i: nat)
    requires Ordinary(sch, s) && i < |s.log|
    ensures s.log[i].client in s.clients
    ensures var k := s.clients[s.log[i].client];
            && k.phase == Done(Ok(s.log[i].value))
            && Effect(sch, k.call, k.newId, s.log[i].stamp, EnvAt(sch, s, i), EnvAt(sch, s, i + 1), s.log[i].value)
  {
    hide Reachable, Lawful, EnvInv, MigrateEnvelope, Build, EncodeEnvelope, Effect, LockInv, ClientInv, Refused, Reason,
         ConflictReason, Inv, EnvAt;
    ReachableInv(sch, s);
    SwapAt(sch, s, i);
    StoredBefore(sch, s, i);
    StoredBefore(sch, s, i + 1);
    var w := s.log[i];
    var k := s.clients[w.client];
    BuilderMeaning(sch, k.call, w.env, k.newId, w.stamp, i);
    CommitKeeps(sch, k.call, w.env, k.newId, w.stamp, i);
    var next := Build(sch, k.call, w.env, k.newId, w.stamp).next;
    InvIsStorable(sch, next, i + 1);
    EnvelopeReadBack(sch, next);
  }

  /** In an ordinary run no call is rejected, and what is not a success has a reason the caller can understand
      from the arguments and the stored envelopes. */
  ghost predicate Answered(sch: Schema, states: seq<State>, actions: seq<Action>, c: nat)
    requires |states| == |actions| + 1 && c in states[|actions|].clients && states[|actions|].clients[c].phase.Done?
  {
    var s := states[|actions|];
    var k := s.clients[c];
    match k.phase.result
    case Ok(value) => exists m :: 0 <= m < |s.log| && s.log[m].client == c && s.log[m].value == value
    case Rejected => false
    case Failed(code) =>
      || (code == Invariant && Refused(sch, k.call, k.newId))
      || (code == StorageCorrupt && OwnAccessThrew(actions, c, |actions|))
      || (exists v: nat :: k.since <= v <= |s.log| && Reason(sch, k.call, k.newId, EnvAt(sch, s, v), code))
      || (code == StorageConflict && LostTimes(states, actions, c, |actions|, if k.call.Save? then 1 else 3))
    case ConflictWith(current) =>
      || (exists v: nat :: k.since <= v <= |s.log| && ConflictReason(sch, k.call, EnvAt(sch, s, v), current))
      || (StoredForSave(sch, s, k, current) && LostTimes(states, actions, c, |actions|, 1))
  }

  lemma SaidIsMeant(sch: Schema, s: State, k: Client, m: Mutation)
    requires Ordinary(sch, s) && !Refused(sch, k.call, k.newId) && BuilderSaid(sch, s, k, m)
    ensures exists v: nat, stamp: real {:trigger Meant(sch, k.call, k.newId, stamp, EnvAt(sch, s, v), m)} ::
              k.since <= v <= |s.log| && Meant(sch, k.call, k.newId, stamp, EnvAt(sch, s, v), m)
  {
    hide Ordinary, MigrateEnvelope, Build, Meant, EnvAt, EnvInv, Refused;
    var v: nat, stamp: real :| k.since <= v <= |s.log| && Says(sch, k, Version(s, v), stamp, m);
    assert Lawful(sch) by {
      OrdinaryIsLawful(sch, s);
    }
    StoredBefore(sch, s, v);
    BuilderMeaning(sch, k.call, EnvAt(sch, s, v), k.newId, stamp, v);
  }

  lemma OrdinaryIsLawful(sch: Schema, s: State)
    requires Ordinary(sch, s)
    ensures Lawful(sch) && Reachable(sch, s)
  {
    hide Lawful, Reachable;
  }

  lemma NothingUnreadable(sch: Schema, s: State, k: Client)
    requires Ordinary(sch, s)
    ensures !UnreadableSince(sch, s, k)
  {
    hide Ordinary, MigrateEnvelope, EnvInv, EnvAt;
    forall v: nat | v <= |s.log| ensures !Unreadable(sch, Version(s, v)) {
      StoredBefore(sch, s, v);
    }
  }

  lemma EveryCallIsAnswered(sch: Schema, states: seq<State>, actions: seq<Action>, c: nat)
    requires History(sch, states, actions) && Ordinary(sch, states[|actions|])
    requires c in states[|actions|].clients && states[|actions|].clients[c].phase.Done?
    ensures Answered(sch, states, actions, c)
  {
    hide Apply, CanTake, Initial, Ordinary, Effect, LostTimes, Reason, ConflictReason, StoredForSave, BuilderSaid, EnvAt,
         UnreadableSince,
         OwnAccessThrew, Refused;
    var s := states[|actions|];
    var k := s.clients[c];
    ResultsHaveReasons(sch, states, actions, c);
    NothingUnreadable(sch, s, k);
    if Refused(sch, k.call, k.newId) {
      RefusedAtOnce(sch, states, actions, |actions|, c);
    } else {
      match k.phase.result
      case Failed(code) =>
        if BuilderSaid(sch, s, k, Failure(code)) {
          SaidIsMeant(sch, s, k, Failure(code));
        }
      case Rejected => SaidIsMeant(sch, s, k, Mutation.Throws);
      case ConflictWith(current) =>
        if BuilderSaid(sch, s, k, Conflict(current)) {
          SaidIsMeant(sch, s, k, Conflict(current));
        }
      case Ok(_) =>
    }
  }

  /** A refused call ends with `Invariant`, always. */
  lemma {:induction false} RefusedAtOnce(sch: Schema, states: seq<State>, actions: seq<Action>, n: nat, c: nat)
    requires History(sch, states, actions) && n <= |actions| && c in states[n].clients
    requires Refused(sch, states[n].clients[c].call, states[n].clients[c].newId)
    ensures states[n].clients[c].phase == Done(Failed(Invariant))
  {
    hide Refused, MigrateEnvelope, Build, EncodeEnvelope;
    assert n > 0;
    assert CanTake(states[n - 1], actions[n - 1]) && states[n] == Apply(sch, states[n - 1], actions[n - 1]);
    if c in states[n - 1].clients {
      InvAlong(sch, states, actions, n - 1);
      LockedAreWaiting(sch, states[n - 1]);
      SameCall(sch, states[n - 1], actions[n - 1], c);
      RefusedAtOnce(sch, states, actions, n - 1, c);
      DoneStays(sch, states[n - 1], actions[n - 1], c);
    }
  }

  lemma LockedAreWaiting(sch: Schema, s: State)
    requires Inv(sch, s)
    ensures forall i :: 0 <= i < |s.lock| ==> s.lock[i] in s.clients && InQueue(s.clients[s.lock[i]].phase)
  {
    hide ClientInv, SwapInv;
  }

  lemma SameCall(sch: Schema, s: State, a: Action, c: nat)
    requires CanTake(s, a) && c in s.clients
    ensures c in Apply(sch, s, a).clients
    ensures var k := Apply(sch, s, a).clients[c];
            k.call == s.clients[c].call && k.newId == s.clients[c].newId && k.since == s.clients[c].since
  {
    hide Refused, MigrateEnvelope, Build, EncodeEnvelope;
  }

  lemma DoneStays(sch: Schema, s: State, a: Action, c: nat)
    requires CanTake(s, a) && c in s.clients && s.clients[c].phase.Done?
    requires forall i :: 0 <= i < |s.lock| ==> s.lock[i] in s.clients && InQueue(s.clients[s.lock[i]].phase)
    ensures Apply(sch, s, a).clients[c] == s.clients[c]
  {
    hide Refused, MigrateEnvelope, Build, EncodeEnvelope;
  }

  /** Nothing stands in the way of this call. */
  ghost predicate Unobstructed(sch: Schema, s: State, call: Call, newId: string) {
    && !Refused(sch, call, newId)
    && (forall code :: !Reason(sch, call, newId, EnvAt(sch, s, |s.log|), code))
    && forall p :: !ConflictReason(sch, call, EnvAt(sch, s, |s.log|), p)
  }

  /** Left alone from its start, a call with nothing in its way succeeds and does what its arguments say. */
  lemma UnobstructedTakesEffect(sch: Schema, s: State, c: nat, call: Call, newId: string, stamp: real)
    returns (t: State, value: Value)
    requires Ordinary(sch, s) && |s.log| + 1 < MAX_SAFE_INTEGER && GoodId(newId)
    requires s.lock == [] && c !in s.clients && Unobstructed(sch, s, call, newId)
    ensures Runs(sch, s, [Start(c, call, newId), Read(c, false, stamp), Compare(false), Write(false)], t)
    ensures c in t.clients && t.clients[c].phase == Done(Ok(value))
    ensures Effect(sch, call, newId, stamp, EnvAt(sch, s, |s.log|), EnvAt(sch, t, |t.log|), value)
  {
    hide Ordinary, EnvInv, MigrateEnvelope, Build, EncodeEnvelope, Effect, Reason, ConflictReason, Refused, EnvAt, Runs, Lawful;
    OrdinaryIsLawful(sch, s);
    var e := EnvAt(sch, s, |s.log|);
    StoredBefore(sch, s, |s.log|);
    assert s.cell == Version(s, |s.log|) by {
      ReachableInv(sch, s);
    }
    BuilderMeaning(sch, call, e, newId, stamp, |s.log|);
    var s1 := Apply(sch, s, Start(c, call, newId));
    t := UndisturbedSucceeds(sch, s1, c, stamp);
    var actions := [Start(c, call, newId), Read(c, false, stamp), Compare(false), Write(false)];
    assert actions[1..] == [Read(c, false, stamp), Compare(false), Write(false)];
    RunStep(sch, s, actions, s1, t);
    var m := Build(sch, call, e, newId, stamp);
    value := m.value;
    CommitKeeps(sch, call, e, newId, stamp, |s.log|);
    InvIsStorable(sch, m.next, |s.log| + 1);
    EnvelopeReadBack(sch, m.next);
    CellIsLast(sch, s, actions, t);
    assert EnvAt(sch, t, |t.log|) == m.next;
  }

  lemma CellIsLast(sch: Schema, s: State, actions: seq<Action>, t: State)
    requires Reachable(sch, s) && Runs(sch, s, actions, t)
    ensures t.cell == Version(t, |t.log|)
    ensures MigrateEnvelope(sch, t.cell).Some? ==> EnvAt(sch, t, |t.log|) == MigrateEnvelope(sch, t.cell).value
  {
    hide Runs, Reachable;
    ReachableInv(sch, s);
    RunsKeep(sch, s, actions, t);
  }
}
