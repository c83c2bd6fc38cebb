/** `ProjectRepository.mutate` in `packages/browser-core/src/repository.ts` over the storage adapter of
    `packages/extension/src/chrome.ts`: any number of calls, each reading, building and swapping, with
    the swap a locked get, compare and set.

    A state holds the storage cell, the queue of the mutation lock (its head holds the lock), the calls,
    and a log of the successful swaps. Every awaited storage access is one step and may throw; a
    throwing `set` has no effect. JSON equality of stored values is structural equality. */
module Repository {
  import opened Options
  import opened Envelope
  import opened Builders

  datatype Result =
    | Ok(value: Value)
    | ConflictWith(current: StoredProject)
    | Failed(code: Code)
    | Rejected

  datatype Phase =
    | Reading(attempt: nat)
    | Waiting(attempt: nat, raw: Json, env: Env, stamp: real)
    | Swapping(attempt: nat, raw: Json, env: Env, stamp: real)
    | Refreshing(attempt: nat)
    | Done(result: Result)

  /** `newId` is what the id generator gives this call, asked at most once; `since` is the number of
      swaps that had happened when the call was made. */
  datatype Client = Client(call: Call, newId: string, since: nat, phase: Phase)

  datatype Swap = Swap(client: nat, before: Json, env: Env, stamp: real, after: Json, value: Value)

  datatype State = State(initial: Json, cell: Json, lock: seq<nat>, clients: map<nat, Client>, log: seq<Swap>)

  datatype Action =
    | Start(client: nat, call: Call, newId: string)
    | Read(client: nat, throws: bool, stamp: real)
    | Compare(throws: bool)
    | Write(throws: bool)
    | Refresh(client: nat, throws: bool)

  predicate Initial(s: State) {
    s.cell == s.initial && s.lock == [] && s.clients == map[] && s.log == []
  }

  function Attempts(call: Call): nat { if call.Save? then 1 else 3 }

  ghost predicate CanTake(s: State, a: Action) {
    match a
    case Start(c, _, _) => c !in s.clients
    case Read(c, _, _) => c in s.clients && s.clients[c].phase.Reading?
    case Compare(_) => s.lock != [] && s.lock[0] in s.clients && s.clients[s.lock[0]].phase.Waiting?
    case Write(_) => s.lock != [] && s.lock[0] in s.clients && s.clients[s.lock[0]].phase.Swapping?
    case Refresh(c, _) => c in s.clients && s.clients[c].phase.Refreshing?
  }

  function Move(s: State, c: nat, phase: Phase): State
    requires c in s.clients
  {
    s.(clients := s.clients[c := s.clients[c].(phase := phase)])
  }

  /** The next attempt, or the end of the loop. */
  function NextAttempt(call: Call, attempt: nat): Phase {
    if attempt + 1 < Attempts(call) then Reading(attempt + 1) else Done(Failed(StorageConflict))
  }

  /** After a swap that did not happen: `saveProject` looks at the fresh envelope first. */
  function AfterLostSwap(call: Call, attempt: nat): Phase {
    if call.Save? then Refreshing(attempt) else NextAttempt(call, attempt)
  }

  ghost function AfterRead(sch: Schema, k: Client, raw: Json, attempt: nat, stamp: real): Phase {
    var read := MigrateEnvelope(sch, raw);
    if read.None? then Done(Failed(StorageCorrupt))
    else
      match Build(sch, k.call, read.value, k.newId, stamp)
      case Commit(_, _) => Waiting(attempt, raw, read.value, stamp)
      case Conflict(current) => Done(ConflictWith(current))
      case Failure(code) => Done(Failed(code))
      case Throws => Done(Rejected)
  }

  function AfterRefresh(sch: Schema, call: Call, raw: Json, attempt: nat): Phase
    requires call.Save?
  {
    var read := MigrateEnvelope(sch, raw);
    if read.None? then Done(Failed(StorageCorrupt))
    else if call.projectId in read.value.projects then Done(ConflictWith(read.value.projects[call.projectId]))
    else NextAttempt(call, attempt)
  }

  ghost function Apply(sch: Schema, s: State, a: Action): State
    requires CanTake(s, a)
  {
    match a
    case Start(c, call, newId) =>
      var phase := if Refused(sch, call, newId) then Done(Failed(Invariant)) else Reading(0);
      s.(clients := s.clients[c := Client(call, newId, |s.log|, phase)])
    case Read(c, throws, stamp) =>
      var k := s.clients[c];
      var phase :=
        if throws then Done(Failed(StorageCorrupt)) else AfterRead(sch, k, s.cell, k.phase.attempt, stamp);
      var next := Move(s, c, phase);
      if phase.Waiting? then next.(lock := s.lock + [c]) else next
    case Compare(throws) =>
      var c := s.lock[0];
      var k := s.clients[c];
      if !throws && s.cell == k.phase.raw then Move(s, c, Swapping(k.phase.attempt, k.phase.raw, k.phase.env, k.phase.stamp))
      else Move(s, c, AfterLostSwap(k.call, k.phase.attempt)).(lock := s.lock[1..])
    case Write(throws) =>
      var c := s.lock[0];
      var k := s.clients[c];
      if throws then Move(s, c, AfterLostSwap(k.call, k.phase.attempt)).(lock := s.lock[1..])
      else
        var m := Build(sch, k.call, k.phase.env, k.newId, k.phase.stamp);
        if !m.Commit? then s
        else
          var after := EncodeEnvelope(m.next);
          Move(s, c, Done(Ok(m.value))).(
            cell := after, lock := s.lock[1..],
            log := s.log + [Swap(c, s.cell, k.phase.env, k.phase.stamp, after, m.value)])
    case Refresh(c, throws) =>
      var k := s.clients[c];
      if throws then Move(s, c, Done(Failed(StorageCorrupt)))
      else if !k.call.Save? then s
      else Move(s, c, AfterRefresh(sch, k.call, s.cell, k.phase.attempt))
  }

  ghost predicate Runs(sch: Schema, s: State, actions: seq<Action>, t: State)
    decreases |actions|
  {
    if actions == [] then s == t
    else CanTake(s, actions[0]) && Runs(sch, Apply(sch, s, actions[0]), actions[1..], t)
  }

  ghost predicate Reachable(sch: Schema, t: State) {
    exists s: State, actions: seq<Action> :: Initial(s) && Runs(sch, s, actions, t)
  }

  // ----- the stored versions

  /** What was stored after the first `k` swaps. */
  function Version(s: State, k: nat): Json
    requires k <= |s.log|
  {
    if k == 0 then s.initial else s.log[k - 1].after
  }

  // ----- the invariant

  predicate InQueue(phase: Phase) { phase.Waiting? || phase.Swapping? }

  ghost predicate LockInv(lock: seq<nat>, clients: map<nat, Client>) {
    && (forall i, j :: 0 <= i < j < |lock| ==> lock[i] != lock[j])
    && (forall i :: 0 <= i < |lock| ==>
          && lock[i] in clients && InQueue(clients[lock[i]].phase)
          && (clients[lock[i]].phase.Swapping? ==> i == 0))
    && (forall c :: c in clients && InQueue(clients[c].phase) ==> c in lock)
  }

  /** What a call knows in its phase. */
  ghost predicate ClientInv(sch: Schema, s: State, k: Client) {
    && k.since <= |s.log|
    && (InQueue(k.phase) ==>
          && MigrateEnvelope(sch, k.phase.raw) == Some(k.phase.env)
          && Build(sch, k.call, k.phase.env, k.newId, k.phase.stamp).Commit?)
    && (k.phase.Swapping? ==> s.cell == k.phase.raw)
    && (k.phase.Refreshing? ==> k.call.Save?)
    && (!k.phase.Done? ==> !Refused(sch, k.call, k.newId))
    && (k.phase.Done? && k.phase.result.ConflictWith? ==> WasStored(sch, s, k, k.phase.result.current))
  }

  /** The project was stored at some moment since the call was made. */
  ghost predicate WasStored(sch: Schema, s: State, k: Client, p: StoredProject) {
    exists i: nat :: k.since <= i <= |s.log| && HasProject(sch, Version(s, i), p)
  }

  ghost predicate HasProject(sch: Schema, raw: Json, p: StoredProject) {
    && MigrateEnvelope(sch, raw).Some?
    && exists id :: id in MigrateEnvelope(sch, raw).value.projects && MigrateEnvelope(sch, raw).value.projects[id] == p
  }

  /** A swap is what the call's builder gives on the envelope stored at that moment. */
  ghost predicate SwapInv(sch: Schema, s: State, i: nat)
    requires i < |s.log|
  {
    var w := s.log[i];
    && w.before == Version(s, i)
    && w.client in s.clients
    && var k := s.clients[w.client];
       var m := Build(sch, k.call, w.env, k.newId, w.stamp);
       && k.since <= i
       && !Refused(sch, k.call, k.newId)
       && MigrateEnvelope(sch, w.before) == Some(w.env)
       && m.Commit? && w.after == EncodeEnvelope(m.next) && w.value == m.value
       && k.phase == Done(Ok(w.value))
  }

  ghost predicate Inv(sch: Schema, s: State) {
    && LockInv(s.lock, s.clients)
    && (forall c :: c in s.clients ==> ClientInv(sch, s, s.clients[c]))
    && s.cell == Version(s, |s.log|)
    && (forall i :: 0 <= i < |s.log| ==> SwapInv(sch, s, i))
    && (forall i, j :: 0 <= i < j < |s.log| ==> s.log[i].client != s.log[j].client)
    && (forall c :: c in s.clients && s.clients[c].phase.Done? && s.clients[c].phase.result.Ok? ==>
          exists i :: 0 <= i < |s.log| && s.log[i].client == c)
  }

  lemma InvInitial(sch: Schema, s: State)
    requires Initial(s)
    ensures Inv(sch, s)
  {
  }

  // ----- steps that do not touch the cell

  /** One call changes phase, the cell and the log stay. */
  lemma MoveKeeps(sch: Schema, s: State, c: nat, k: Client, lock: seq<nat>)
    requires Inv(sch, s)
    requires c in s.clients ==> s.clients[c].call == k.call && s.clients[c].newId == k.newId
                                && s.clients[c].since == k.since && !s.clients[c].phase.Done?
    requires !(k.phase.Done? && k.phase.result.Ok?)
    requires ClientInv(sch, s, k)
    requires LockInv(lock, s.clients[c := k])
    ensures Inv(sch, s.(clients := s.clients[c := k], lock := lock))
  {
    hide LockInv, Build, MigrateEnvelope, EncodeEnvelope, Refused;
    var t := s.(clients := s.clients[c := k], lock := lock);
    forall i | 0 <= i < |t.log| ensures SwapInv(sch, t, i) {
      assert SwapInv(sch, s, i);
      assert Version(t, i) == Version(s, i);
      assert t.log[i].client != c;
    }
    forall d | d in t.clients ensures ClientInv(sch, t, t.clients[d]) {
      if d != c {
        assert ClientInv(sch, s, s.clients[d]);
      }
      SameVersions(sch, s, t, t.clients[d]);
    }
    forall d | d in t.clients && t.clients[d].phase.Done? && t.clients[d].phase.result.Ok?
      ensures exists i :: 0 <= i < |t.log| && t.log[i].client == d
    {
      assert d != c;
    }
  }

  lemma SameVersions(sch: Schema, s: State, t: State, k: Client)
    requires s.log == t.log && s.initial == t.initial && s.cell == t.cell
    ensures ClientInv(sch, s, k) ==> ClientInv(sch, t, k)
  {
    hide HasProject, Build, MigrateEnvelope, Refused;
    if k.phase.Done? && k.phase.result.ConflictWith? && WasStored(sch, s, k, k.phase.result.current) {
      var i: nat :| k.since <= i <= |s.log| && HasProject(sch, Version(s, i), k.phase.result.current);
      assert HasProject(sch, Version(t, i), k.phase.result.current);
    }
  }

  // ----- the lock

  lemma LockOther(s: State, c: nat, k: Client)
    requires LockInv(s.lock, s.clients) && !InQueue(k.phase) && (c in s.clients ==> !InQueue(s.clients[c].phase))
    ensures LockInv(s.lock, s.clients[c := k])
  {
  }

  lemma LockJoin(s: State, c: nat, k: Client)
    requires LockInv(s.lock, s.clients) && k.phase.Waiting? && (c in s.clients ==> !InQueue(s.clients[c].phase))
    ensures LockInv(s.lock + [c], s.clients[c := k])
  {
    assert c !in s.lock;
    var lock := s.lock + [c];
    assert lock[|s.lock|] == c;
    assert forall d :: d in s.lock ==> d in lock;
  }

  lemma LockLeave(s: State, k: Client)
    requires LockInv(s.lock, s.clients) && s.lock != [] && !InQueue(k.phase)
    ensures LockInv(s.lock[1..], s.clients[s.lock[0] := k])
  {
    var c := s.lock[0];
    var t := s.(clients := s.clients[c := k], lock := s.lock[1..]);
    forall d | d in t.clients && InQueue(t.clients[d].phase) ensures d in t.lock {
      var i :| 0 <= i < |s.lock| && s.lock[i] == d;
      assert t.lock[i - 1] == d;
    }
    forall i | 0 <= i < |t.lock|
      ensures t.lock[i] in t.clients && InQueue(t.clients[t.lock[i]].phase)
      ensures t.clients[t.lock[i]].phase.Swapping? ==> i == 0
    {
      assert t.lock[i] == s.lock[i + 1] != c;
    }
  }

  lemma LockHead(s: State, k: Client)
    requires LockInv(s.lock, s.clients) && s.lock != [] && InQueue(k.phase)
    ensures LockInv(s.lock, s.clients[s.lock[0] := k])
  {
  }

  // ----- each step keeps the invariant

  lemma StoredNow(sch: Schema, s: State, k: Client, env: Env, id: string)
    requires s.cell == Version(s, |s.log|) && k.since <= |s.log|
    requires MigrateEnvelope(sch, s.cell) == Some(env) && id in env.projects
    ensures WasStored(sch, s, k, env.projects[id])
  {
    hide MigrateEnvelope;
    assert HasProject(sch, Version(s, |s.log|), env.projects[id]);
  }

  /** A builder's conflict names a project of the envelope it was given. */
  lemma ConflictIsStored(sch: Schema, call: Call, e: Env, newId: string, stamp: real)
    requires Build(sch, call, e, newId, stamp).Conflict?
    ensures exists id :: id in e.projects && e.projects[id] == Build(sch, call, e, newId, stamp).current
  {
  }

  lemma StartKeeps(sch: Schema, s: State, a: Action)
    requires a.Start? && Inv(sch, s) && CanTake(s, a)
    ensures Inv(sch, Apply(sch, s, a))
  {
    hide Inv, LockInv, Refused, MigrateEnvelope, Build;
    var k := Apply(sch, s, a).clients[a.client];
    InvParts(sch, s);
    LockOther(s, a.client, k);
    MoveKeeps(sch, s, a.client, k, s.lock);
  }

  lemma InvParts(sch: Schema, s: State)
    requires Inv(sch, s)
    ensures LockInv(s.lock, s.clients) && s.cell == Version(s, |s.log|)
    ensures forall c :: c in s.clients ==> ClientInv(sch, s, s.clients[c])
  {
  }

  lemma ReadKeeps(sch: Schema, s: State, a: Action)
    requires a.Read? && Inv(sch, s) && CanTake(s, a)
    ensures Inv(sch, Apply(sch, s, a))
  {
    hide Inv, LockInv, Refused, MigrateEnvelope, Build, WasStored;
    InvParts(sch, s);
    var c := a.client;
    var k := Apply(sch, s, a).clients[c];
    assert ClientInv(sch, s, s.clients[c]);
    if k.phase.Done? && k.phase.result.ConflictWith? {
      var env := MigrateEnvelope(sch, s.cell).value;
      ConflictIsStored(sch, k.call, env, k.newId, a.stamp);
      var id :| id in env.projects && env.projects[id] == k.phase.result.current;
      StoredNow(sch, s, k, env, id);
    }
    if k.phase.Waiting? {
      LockJoin(s, c, k);
      MoveKeeps(sch, s, c, k, s.lock + [c]);
    } else {
      LockOther(s, c, k);
      MoveKeeps(sch, s, c, k, s.lock);
    }
  }

  lemma CompareKeeps(sch: Schema, s: State, a: Action)
    requires a.Compare? && Inv(sch, s) && CanTake(s, a)
    ensures Inv(sch, Apply(sch, s, a))
  {
    hide Inv, LockInv, Refused, MigrateEnvelope, Build, WasStored;
    InvParts(sch, s);
    var c := s.lock[0];
    var k := Apply(sch, s, a).clients[c];
    assert ClientInv(sch, s, s.clients[c]);
    if k.phase.Swapping? {
      LockHead(s, k);
      MoveKeeps(sch, s, c, k, s.lock);
    } else {
      LockLeave(s, k);
      MoveKeeps(sch, s, c, k, s.lock[1..]);
    }
  }

  lemma RefreshKeeps(sch: Schema, s: State, a: Action)
    requires a.Refresh? && Inv(sch, s) && CanTake(s, a)
    ensures Inv(sch, Apply(sch, s, a))
  {
    hide Inv, LockInv, Refused, MigrateEnvelope, Build, WasStored;
    InvParts(sch, s);
    var c := a.client;
    assert ClientInv(sch, s, s.clients[c]);
    var k := Apply(sch, s, a).clients[c];
    if k.phase.Done? && k.phase.result.ConflictWith? {
      StoredNow(sch, s, k, MigrateEnvelope(sch, s.cell).value, k.call.projectId);
    }
    LockOther(s, c, k);
    MoveKeeps(sch, s, c, k, s.lock);
  }

  lemma FailedWriteKeeps(sch: Schema, s: State, a: Action)
    requires a == Write(true) && Inv(sch, s) && CanTake(s, a)
    ensures Inv(sch, Apply(sch, s, a))
  {
    hide Inv, LockInv, Refused, MigrateEnvelope, Build, WasStored;
    InvParts(sch, s);
    var c := s.lock[0];
    var k := Apply(sch, s, a).clients[c];
    assert ClientInv(sch, s, s.clients[c]);
    LockLeave(s, k);
    MoveKeeps(sch, s, c, k, s.lock[1..]);
  }

  lemma WriteKeeps(sch: Schema, s: State, a: Action)
    requires a == Write(false) && Inv(sch, s) && CanTake(s, a)
    ensures Inv(sch, Apply(sch, s, a))
    ensures |Apply(sch, s, a).log| == |s.log| + 1
  {
    hide LockInv, Refused, MigrateEnvelope, Build, HasProject, EncodeEnvelope;
    var c := s.lock[0];
    var t := Apply(sch, s, a);
    var n := |s.log|;
    assert ClientInv(sch, s, s.clients[c]);
    LockLeave(s, t.clients[c]);
    assert t.log[n].client == c;
    OneSwapping(s);
    forall d | d in t.clients ensures ClientInv(sch, t, t.clients[d]) {
      if d != c {
        assert ClientInv(sch, s, s.clients[d]);
        MoreVersions(sch, s, t, s.clients[d]);
      }
    }
    forall i | 0 <= i < |t.log| ensures SwapInv(sch, t, i) {
      if i < n {
        assert SwapInv(sch, s, i);
        assert t.log[i] == s.log[i] && Version(t, i) == Version(s, i);
      }
    }
    forall i, j | 0 <= i < j < |t.log| ensures t.log[i].client != t.log[j].client {
      if j == n {
        assert SwapInv(sch, s, i);
      }
    }
    forall d | d in t.clients && t.clients[d].phase.Done? && t.clients[d].phase.result.Ok?
      ensures exists i :: 0 <= i < |t.log| && t.log[i].client == d
    {
      if d != c {
        var i :| 0 <= i < |s.log| && s.log[i].client == d;
        assert t.log[i].client == d;
      }
    }
  }

  lemma OneSwapping(s: State)
    requires LockInv(s.lock, s.clients) && s.lock != []
    ensures forall d :: d in s.clients && s.clients[d].phase.Swapping? ==> d == s.lock[0]
  {
    forall d | d in s.clients && s.clients[d].phase.Swapping? ensures d == s.lock[0] {
      var i :| 0 <= i < |s.lock| && s.lock[i] == d;
    }
  }

  lemma MoreVersions(sch: Schema, s: State, t: State, k: Client)
    requires ClientInv(sch, s, k) && !k.phase.Swapping?
    requires t.initial == s.initial && |t.log| == |s.log| + 1 && t.log[..|s.log|] == s.log
    ensures ClientInv(sch, t, k)
  {
    hide HasProject, Build, MigrateEnvelope, Refused;
    if k.phase.Done? && k.phase.result.ConflictWith? {
      var i: nat :| k.since <= i <= |s.log| && HasProject(sch, Version(s, i), k.phase.result.current);
      assert i > 0 ==> t.log[..|s.log|][i - 1] == t.log[i - 1];
      assert HasProject(sch, Version(t, i), k.phase.result.current);
    }
  }

  lemma InvStep(sch: Schema, s: State, a: Action)
    requires Inv(sch, s) && CanTake(s, a)
    ensures Inv(sch, Apply(sch, s, a))
  {
    hide Inv, Apply, CanTake;
    match a
    case Start(_, _, _) => StartKeeps(sch, s, a);
    case Read(_, _, _) => ReadKeeps(sch, s, a);
    case Compare(_) => CompareKeeps(sch, s, a);
    case Write(throws) =>
      if throws {
        FailedWriteKeeps(sch, s, a);
      } else {
        WriteKeeps(sch, s, a);
      }
    case Refresh(_, _) => RefreshKeeps(sch, s, a);
  }
}
