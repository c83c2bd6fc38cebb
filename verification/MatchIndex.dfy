/** `packages/extension/src/match-index.ts`: one stored index from rule ids to logged rules, rewritten by
    three kinds of writers under one lock. Each writer owns a band of ids.

    Keys are the numbers their decimal text stands for; entries are opaque up to a log sanitiser. */
module MatchIndex {
  import opened Options

  const REDIRECT_QUERY_ID_MAX: int := 1_000_000
  const HEADER_ID_MIN: int := 2_000_001
  const BODY_MARKER_ID_MIN: int := 3_000_001
  const BODY_MARKER_ID_MAX: int := 4_000_000
  const MOCK_REDIRECT_ID_MIN: int := 5_000_001
  const MOCK_REDIRECT_ID_MAX: int := 6_000_000
  const MOCK_GUARD_ID: int := MOCK_REDIRECT_ID_MAX
  const MAX_RULES_PER_PROJECT: nat := 4096

  datatype Kind = Matcher | Redirect | Query | Header | RequestBody | ResponseBody | Mock

  /** `dynamic`: the value refers to a URL capture; `projectable`: its source has a browser form. */
  datatype Operation = Operation(kind: Kind, ruleId: string, dynamic: bool, projectable: bool, detail: int)

  datatype Entry = Entry(ruleId: string, kind: Kind, intent: int)

  type Index = map<int, Entry>

  type Sanitizer = Entry -> Entry

  ghost predicate KeepsKind(san: Sanitizer) {
    forall e: Entry :: san(e).kind == e.kind
  }

  predicate IsBodyBand(id: int) { BODY_MARKER_ID_MIN <= id <= BODY_MARKER_ID_MAX }

  predicate IsMockBand(id: int) { MOCK_REDIRECT_ID_MIN <= id <= MOCK_REDIRECT_ID_MAX }

  /** Ids the installer gives out: the redirect and query band, and header ids below the body band. */
  predicate IsDynamicId(id: int) {
    1 <= id <= REDIRECT_QUERY_ID_MAX || HEADER_ID_MIN <= id < BODY_MARKER_ID_MIN
  }

  predicate IsBodyKind(k: Kind) { k.RequestBody? || k.ResponseBody? }

  predicate IsDynamicKind(k: Kind) { k.Redirect? || k.Query? || k.Header? }

  /** `rawEntryFromOperation`. */
  function RawEntry(op: Operation): Option<Entry> {
    if op.kind.Matcher? then None else Some(Entry(op.ruleId, op.kind, op.detail))
  }

  // ----- the five rewrites

  function InstallSnapshot(tracked: map<int, Operation>): Index {
    map id | id in tracked && IsDynamicKind(tracked[id].kind) :: RawEntry(tracked[id]).value
  }

  /** What `bodyMarkerEntriesFromSnapshot` and `mockRedirectEntriesFromSnapshot` keep of the prior index. */
  predicate Preserved(id: int, e: Entry) {
    || (IsBodyBand(id) && IsBodyKind(e.kind))
    || (IsMockBand(id) && id != MOCK_GUARD_ID && e.kind.Mock?)
  }

  function Wholesale(prior: Index, tracked: map<int, Operation>): Index {
    InstallSnapshot(tracked) + map id | id in prior && Preserved(id, prior[id]) :: prior[id]
  }

  function DropBody(prior: Index): Index {
    map id | id in prior && !IsBodyBand(id) :: prior[id]
  }

  function DropMock(prior: Index): Index {
    map id | id in prior && !IsMockBand(id) :: prior[id]
  }

  predicate Indexed(ops: seq<Operation>, min: int, id: int) {
    min <= id < min + |ops| && id != MOCK_GUARD_ID && RawEntry(ops[id - min]).Some?
  }

  /** The entries of `ops`, from `min` on, the guard id left out. */
  function Band(ops: seq<Operation>, min: int): Index {
    map id | min <= id < min + |ops| && Indexed(ops, min, id) :: RawEntry(ops[id - min]).value
  }

  function MergeBody(prior: Index, ops: seq<Operation>): Index {
    DropBody(prior) + Band(ops, BODY_MARKER_ID_MIN)
  }

  function MergeMock(prior: Index, ops: seq<Operation>): Index {
    DropMock(prior) + Band(ops, MOCK_REDIRECT_ID_MIN)
  }

  function Sanitized(san: Sanitizer, index: Index): Index {
    map id | id in index :: san(index[id])
  }

  // ----- the rewrites as the source runs them

  /** Objects are walked in no particular order. */
  method AnyOf<T(==)>(s: set<T>) returns (x: T)
    requires s != {}
    ensures x in s
  {
    x :| x in s;
  }

  method DropBand(current: Index, mock: bool) returns (next: Index)
    ensures next == if mock then DropMock(current) else DropBody(current)
  {
    next := map[];
    var keys := current.Keys;
    while keys != {}
      invariant keys <= current.Keys
      invariant next == map id | id in current && id !in keys && !(if mock then IsMockBand(id) else IsBodyBand(id)) ::
                  current[id]
      decreases |keys|
    {
      var key := AnyOf(keys);
      if !(if mock then IsMockBand(key) else IsBodyBand(key)) {
        next := next[key := current[key]];
      }
      keys := keys - {key};
    }
  }

  /** `mergeBodyMarkerIndexEntries` and `mergeMockRedirectIndexEntries` between their read and their write. */
  method MergeBand(current: Index, ops: seq<Operation>, mock: bool) returns (next: Index)
    requires |ops| <= MAX_RULES_PER_PROJECT
    ensures next == if mock then MergeMock(current, ops) else MergeBody(current, ops)
    ensures (forall i :: 0 <= i < |ops| ==> !ops[i].kind.Matcher?) ==>
              && HoldsRaw(next, ops, if mock then 5_000_001 else 3_000_001, if mock then 6_000_000 else 4_000_000)
              && forall id :: !(if mock then 5_000_001 <= id <= 6_000_000 else 3_000_001 <= id <= 4_000_000) ==>
                   (id in next <==> id in current) && (id in current ==> next[id] == current[id])
  {
    hide RawEntry, Band, HoldsRaw;
    MergedBand(current, ops, mock);
    var min := if mock then MOCK_REDIRECT_ID_MIN else BODY_MARKER_ID_MIN;
    next := DropBand(current, mock);
    ghost var kept := next;
    EmptyBand(min);
    for i := 0 to |ops|
      invariant next == kept + Band(ops[..i], min)
    {
      BandGrows(ops, min, i);
      var entry := RawEntry(ops[i]);
      if entry.Some? && min + i != MOCK_GUARD_ID {
        next := next[min + i := entry.value];
      }
    }
    assert ops[..|ops|] == ops;
  }

  /** In the band from `lo` to `hi` stand exactly the operations, in order from `lo` on, the guard id left out, each
      with its rule, kind and intent. */
  ghost predicate HoldsRaw(index: Index, ops: seq<Operation>, lo: int, hi: int) {
    forall id :: lo <= id <= hi ==>
      && (id in index <==> id - lo < |ops| && id != 6_000_000)
      && (id in index ==> id - lo < |ops| && index[id] == AsEntry(ops[id - lo]))
  }

  function AsEntry(op: Operation): Entry { Entry(op.ruleId, op.kind, op.detail) }

  lemma MergedBand(prior: Index, ops: seq<Operation>, mock: bool)
    requires |ops| <= MAX_RULES_PER_PROJECT
    ensures var next := if mock then MergeMock(prior, ops) else MergeBody(prior, ops);
            && ((forall i :: 0 <= i < |ops| ==> !ops[i].kind.Matcher?) ==>
                  HoldsRaw(next, ops, if mock then 5_000_001 else 3_000_001, if mock then 6_000_000 else 4_000_000))
            && forall id :: !(if mock then 5_000_001 <= id <= 6_000_000 else 3_000_001 <= id <= 4_000_000) ==>
                 (id in next <==> id in prior) && (id in prior ==> next[id] == prior[id])
  {
  }

  lemma EmptyBand(min: int)
    ensures Band([], min) == map[]
  {
  }

  lemma BandGrows(ops: seq<Operation>, min: int, i: nat)
    requires i < |ops|
    ensures Band(ops[..i + 1], min) ==
            if RawEntry(ops[i]).Some? && min + i != MOCK_GUARD_ID
            then Band(ops[..i], min)[min + i := RawEntry(ops[i]).value]
            else Band(ops[..i], min)
  {
    var shorter, longer := ops[..i], ops[..i + 1];
    assert forall id :: Indexed(longer, min, id) <==> Indexed(shorter, min, id) || (id == min + i && Indexed(longer, min, id));
    assert longer[i] == ops[i];
    assert forall j :: 0 <= j < i ==> longer[j] == shorter[j];
  }

  // ----- the writers

  datatype Writer =
    | InstallWriter
    | BodyMerger(ops: seq<Operation>)
    | BodyDropper
    | MockMerger(ops: seq<Operation>)
    | MockDropper

  /** The head of the lock queue has read the index, or not yet; the installer's writer looks at
      `tracked` in the same breath. */
  datatype Phase = Begin | Loaded(prior: Index, tracked: map<int, Operation>)

  datatype Stage = Idle | Installing | AwaitingWrite

  /** `wanted` is the unsanitised content the last write of each band meant to put there. */
  datatype State = State(
    index: Index,
    tracked: map<int, Operation>,
    stage: Stage,
    lock: seq<Writer>,
    phase: Phase,
    wanted: Index,
    readFailed: bool,
    writeFailed: bool)

  datatype Action =
    | Request(writer: Writer)
    | BeginInstall
    | Track(id: int, op: Operation)
    | EndInstall(writes: bool)
    | Read(fails: bool)
    | Write(fails: bool)

  predicate GoodWriter(w: Writer) {
    match w
    case BodyMerger(ops) => |ops| <= MAX_RULES_PER_PROJECT && forall i :: 0 <= i < |ops| ==> IsBodyKind(ops[i].kind)
    case MockMerger(ops) => |ops| <= MAX_RULES_PER_PROJECT && forall i :: 0 <= i < |ops| ==> ops[i].kind.Mock?
    case _ => true
  }

  predicate GoodIndex(index: Index) {
    forall id :: id in index ==>
      (IsDynamicId(id) && IsDynamicKind(index[id].kind)) || Preserved(id, index[id])
  }

  predicate Initial(s: State) {
    && GoodIndex(s.index) && s.wanted == s.index && s.tracked == map[]
    && s.stage == Idle && s.lock == [] && s.phase == Begin && !s.readFailed && !s.writeFailed
  }

  /** Installs run one after the other; an install that ends without a write has tracked nothing. */
  predicate CanTake(s: State, a: Action) {
    match a
    case Request(w) => !w.InstallWriter? && GoodWriter(w)
    case BeginInstall => s.stage == Idle
    case Track(id, op) => s.stage == Installing && IsDynamicId(id) && IsDynamicKind(op.kind)
    case EndInstall(writes) => s.stage == Installing && (writes || s.tracked == map[])
    case Read(_) => s.lock != [] && s.phase == Begin
    case Write(_) => s.lock != [] && s.phase.Loaded?
  }

  function Rewritten(w: Writer, prior: Index, tracked: map<int, Operation>): Index {
    match w
    case InstallWriter => Wholesale(prior, tracked)
    case BodyMerger(ops) => MergeBody(prior, ops)
    case BodyDropper => DropBody(prior)
    case MockMerger(ops) => MergeMock(prior, ops)
    case MockDropper => DropMock(prior)
  }

  /** The ids a writer answers for. */
  predicate Owns(w: Writer, id: int) {
    match w
    case InstallWriter => !IsBodyBand(id) && !IsMockBand(id)
    case BodyMerger(_) => IsBodyBand(id)
    case BodyDropper => IsBodyBand(id)
    case MockMerger(_) => IsMockBand(id)
    case MockDropper => IsMockBand(id)
  }

  /** The content a writer means to put into its own band. */
  function Intent(w: Writer, tracked: map<int, Operation>): Index {
    match w
    case InstallWriter => InstallSnapshot(tracked)
    case BodyMerger(ops) => Band(ops, BODY_MARKER_ID_MIN)
    case BodyDropper => map[]
    case MockMerger(ops) => Band(ops, MOCK_REDIRECT_ID_MIN)
    case MockDropper => map[]
  }

  function Wanted(w: Writer, wanted: Index, tracked: map<int, Operation>): Index {
    (map id | id in wanted && !Owns(w, id) :: wanted[id]) + Intent(w, tracked)
  }

  function Apply(san: Sanitizer, s: State, a: Action): State
    requires CanTake(s, a)
  {
    match a
    case Request(w) => s.(lock := s.lock + [w])
    case BeginInstall => s.(stage := Installing, tracked := map[])
    case Track(id, op) => s.(tracked := s.tracked[id := op])
    case EndInstall(writes) =>
      if writes then s.(stage := AwaitingWrite, lock := s.lock + [InstallWriter]) else s.(stage := Idle)
    case Read(fails) =>
      s.(phase := Loaded(if fails then map[] else s.index, s.tracked), readFailed := s.readFailed || fails)
    case Write(fails) =>
      var w := s.lock[0];
      var rest := s.(lock := s.lock[1..], phase := Begin,
                     stage := if w.InstallWriter? then Idle else s.stage,
                     writeFailed := s.writeFailed || fails);
      if fails then rest
      else rest.(index := Sanitized(san, Rewritten(w, s.phase.prior, s.phase.tracked)),
                 wanted := Wanted(w, s.wanted, s.phase.tracked))
  }

  ghost predicate Runs(san: Sanitizer, s: State, actions: seq<Action>, t: State)
    decreases |actions|
  {
    if actions == [] then s == t
    else CanTake(s, actions[0]) && Runs(san, Apply(san, s, actions[0]), actions[1..], t)
  }

  ghost predicate Reachable(san: Sanitizer, t: State) {
    exists s: State, actions: seq<Action> :: Initial(s) && Runs(san, s, actions, t)
  }

  // ----- the invariant

  function Iterate(san: Sanitizer, n: nat, e: Entry): Entry {
    if n == 0 then e else san(Iterate(san, n - 1, e))
  }

  /** `e` is the raw entry, sanitised some number of times. */
  ghost predicate LoggedFrom(san: Sanitizer, raw: Entry, e: Entry) {
    exists n: nat :: Iterate(san, n, raw) == e
  }

  ghost predicate SameUpToLog(san: Sanitizer, wanted: Index, index: Index) {
    && wanted.Keys == index.Keys
    && forall id :: id in wanted ==> LoggedFrom(san, wanted[id], index[id])
  }

  predicate GoodTracked(tracked: map<int, Operation>) {
    forall id :: id in tracked ==> IsDynamicId(id) && IsDynamicKind(tracked[id].kind)
  }

  /** Every tracked id is meant to be indexed as its operation. */
  predicate TracksWanted(tracked: map<int, Operation>, wanted: Index) {
    forall id :: id in tracked ==> id in wanted && Some(wanted[id]) == RawEntry(tracked[id])
  }

  ghost predicate Inv(san: Sanitizer, s: State) {
    && (forall i :: 0 <= i < |s.lock| ==> GoodWriter(s.lock[i]))
    && (forall i :: 0 <= i < |s.lock| && s.lock[i].InstallWriter? ==> s.stage == AwaitingWrite)
    && (forall i, j :: 0 <= i < j < |s.lock| ==> !(s.lock[i].InstallWriter? && s.lock[j].InstallWriter?))
    && (s.stage == AwaitingWrite ==> exists i :: 0 <= i < |s.lock| && s.lock[i].InstallWriter?)
    && GoodTracked(s.tracked)
    && (s.phase.Loaded? ==>
          && s.lock != [] && GoodTracked(s.phase.tracked)
          && (s.lock[0].InstallWriter? ==> s.phase.tracked == s.tracked))
    && (!s.readFailed ==>
          && GoodIndex(s.index)
          && SameUpToLog(san, s.wanted, s.index)
          && (s.phase.Loaded? ==> s.phase.prior == s.index))
    && (!s.readFailed && !s.writeFailed && s.stage == Idle ==> TracksWanted(s.tracked, s.wanted))
  }

  lemma InvInitial(san: Sanitizer, s: State)
    requires Initial(s)
    ensures Inv(san, s)
  {
    forall id | id in s.index ensures LoggedFrom(san, s.index[id], s.index[id]) {
      assert Iterate(san, 0, s.index[id]) == s.index[id];
    }
  }

  lemma LoggedOnce(san: Sanitizer, raw: Entry, e: Entry)
    requires LoggedFrom(san, raw, e)
    ensures LoggedFrom(san, raw, san(e))
  {
    var n: nat :| Iterate(san, n, raw) == e;
    assert Iterate(san, n + 1, raw) == san(e);
  }

  /** A rewrite of a good index leaves foreign bands as they are and puts its own content into its own,
      and the result is good again. */
  lemma RewriteOwnBandOnly(w: Writer, prior: Index, tracked: map<int, Operation>)
    requires GoodWriter(w) && GoodIndex(prior) && GoodTracked(tracked)
    ensures var next := Rewritten(w, prior, tracked);
            && GoodIndex(next)
            && (forall id :: !Owns(w, id) ==> (id in next <==> id in prior) && (id in prior ==> next[id] == prior[id]))
            && (forall id :: Owns(w, id) ==>
                  (id in next <==> id in Intent(w, tracked)) && (id in next ==> next[id] == Intent(w, tracked)[id]))
    ensures forall id :: id in Intent(w, tracked) ==> Owns(w, id)
  {
  }

  /** One write without a failed read or write brings the index in line with what is now wanted. */
  lemma WriteMatches(san: Sanitizer, w: Writer, index: Index, wanted: Index, tracked: map<int, Operation>)
    requires KeepsKind(san) && GoodWriter(w) && GoodIndex(index) && GoodTracked(tracked)
    requires SameUpToLog(san, wanted, index)
    ensures var next := Sanitized(san, Rewritten(w, index, tracked));
            GoodIndex(next) && SameUpToLog(san, Wanted(w, wanted, tracked), next)
  {
    hide LoggedFrom, Intent, Rewritten;
    RewriteOwnBandOnly(w, index, tracked);
    var raw := Rewritten(w, index, tracked);
    var next, want := Sanitized(san, raw), Wanted(w, wanted, tracked);
    forall id | id in raw ensures id in want && LoggedFrom(san, want[id], next[id]) {
      if Owns(w, id) {
        RawIsLogged(san, raw[id]);
      } else {
        LoggedOnce(san, wanted[id], index[id]);
      }
    }
    forall id | id in want ensures id in next {
      assert id in raw;
    }
  }

  lemma RawIsLogged(san: Sanitizer, e: Entry)
    ensures LoggedFrom(san, e, san(e))
  {
    assert Iterate(san, 0, e) == e;
    assert Iterate(san, 1, e) == san(e);
  }

  lemma TrackedIsWanted(wanted: Index, tracked: map<int, Operation>)
    requires GoodTracked(tracked)
    ensures TracksWanted(tracked, Wanted(InstallWriter, wanted, tracked))
  {
  }

  lemma OthersKeepTracked(w: Writer, wanted: Index, tracked: map<int, Operation>, captured: map<int, Operation>)
    requires !w.InstallWriter? && GoodTracked(tracked) && TracksWanted(tracked, wanted) && GoodWriter(w)
    ensures TracksWanted(tracked, Wanted(w, wanted, captured))
  {
  }

  lemma WriteKeeps(san: Sanitizer, s: State, fails: bool)
    requires KeepsKind(san) && Inv(san, s) && CanTake(s, Write(fails))
    ensures Inv(san, Apply(san, s, Write(fails)))
  {
    hide SameUpToLog, Rewritten, Wanted, GoodIndex, TracksWanted, GoodTracked, GoodWriter;
    var w := s.lock[0];
    var t := Apply(san, s, Write(fails));
    LockShrinks(s);
    if !s.readFailed && !fails {
      WriteMatches(san, w, s.index, s.wanted, s.phase.tracked);
      if w.InstallWriter? {
        TrackedIsWanted(s.wanted, s.tracked);
      } else if !s.writeFailed && s.stage == Idle {
        OthersKeepTracked(w, s.wanted, s.tracked, s.phase.tracked);
      }
    }
  }

  lemma LockShrinks(s: State)
    requires s.lock != []
    requires forall i, j :: 0 <= i < j < |s.lock| ==> !(s.lock[i].InstallWriter? && s.lock[j].InstallWriter?)
    ensures forall i :: 0 <= i < |s.lock[1..]| ==> s.lock[1..][i] == s.lock[i + 1]
    ensures s.lock[0].InstallWriter? ==> forall i :: 0 <= i < |s.lock[1..]| ==> !s.lock[1..][i].InstallWriter?
    ensures !s.lock[0].InstallWriter? && (exists i :: 0 <= i < |s.lock| && s.lock[i].InstallWriter?) ==>
              exists i :: 0 <= i < |s.lock[1..]| && s.lock[1..][i].InstallWriter?
  {
    if !s.lock[0].InstallWriter? {
      if i :| 0 <= i < |s.lock| && s.lock[i].InstallWriter? {
        assert s.lock[1..][i - 1].InstallWriter?;
      }
    }
  }

  lemma OtherStepKeeps(san: Sanitizer, s: State, a: Action)
    requires Inv(san, s) && CanTake(s, a) && !a.Write?
    ensures Inv(san, Apply(san, s, a))
  {
    hide SameUpToLog, GoodIndex, MergeBody, MergeMock, DropBody, DropMock, Inv, Apply, CanTake;
    match a
    case Request(_) => JoinKeeps(san, s, a);
    case EndInstall(writes) =>
      if writes {
        JoinKeeps(san, s, a);
      } else {
        StillKeeps(san, s, a);
      }
    case _ => StillKeeps(san, s, a);
  }

  /** A writer joins the queue. */
  lemma JoinKeeps(san: Sanitizer, s: State, a: Action)
    requires Inv(san, s) && CanTake(s, a) && (a.Request? || a == EndInstall(true))
    ensures Inv(san, Apply(san, s, a))
  {
    hide SameUpToLog, GoodIndex, TracksWanted, GoodTracked, MergeBody, MergeMock, DropBody, DropMock;
    var t := Apply(san, s, a);
    assert forall i :: 0 <= i < |s.lock| ==> t.lock[i] == s.lock[i];
    if a == EndInstall(true) {
      assert t.lock[|s.lock|].InstallWriter?;
    }
  }

  /** The queue stays as it is. */
  lemma StillKeeps(san: Sanitizer, s: State, a: Action)
    requires Inv(san, s) && CanTake(s, a) && !a.Write? && !a.Request? && a != EndInstall(true)
    ensures Inv(san, Apply(san, s, a))
  {
    hide SameUpToLog, GoodIndex, GoodWriter, MergeBody, MergeMock, DropBody, DropMock;
  }

  lemma {:induction false} RunsKeep(san: Sanitizer, s: State, actions: seq<Action>, t: State)
    requires KeepsKind(san) && Inv(san, s) && Runs(san, s, actions, t)
    ensures Inv(san, t)
    decreases |actions|
  {
    hide Inv, KeepsKind, Apply;
    if actions != [] {
      var a := actions[0];
      if a.Write? {
        WriteKeeps(san, s, a.fails);
      } else {
        OtherStepKeeps(san, s, a);
      }
      RunsKeep(san, Apply(san, s, a), actions[1..], t);
    }
  }

  predicate AtRest(s: State) { s.lock == [] && s.stage == Idle }

  /** No writer loses another band, over every interleaving: at rest each band holds what the last
      write of that band meant to put there, up to log sanitising; the guard id is never indexed; and
      every tracked id is indexed as its operation. Reads are assumed to succeed, and writes too for
      the tracked ids. */
  lemma NoBandIsLost(san: Sanitizer, s: State)
    requires KeepsKind(san) && Reachable(san, s) && !s.readFailed
    ensures SameUpToLog(san, s.wanted, s.index)
    ensures MOCK_GUARD_ID !in s.index
    ensures AtRest(s) && !s.writeFailed ==>
              forall id :: id in s.tracked ==>
                id in s.index && LoggedFrom(san, AsEntry(s.tracked[id]), s.index[id])
  {
    var s0: State, actions: seq<Action> :| Initial(s0) && Runs(san, s0, actions, s);
    InvInitial(san, s0);
    RunsKeep(san, s0, actions, s);
  }

  // ----- what one write leaves behind

  /** The ids from `lo` to `hi` are as they were, up to sanitising. */
  ghost predicate StaysIn(san: Sanitizer, before: Index, after: Index, lo: int, hi: int) {
    forall id :: lo <= id <= hi ==> (id in after <==> id in before) && (id in before ==> after[id] == san(before[id]))
  }

  ghost predicate StaysOutside(san: Sanitizer, before: Index, after: Index, lo: int, hi: int) {
    forall id :: !(lo <= id <= hi) ==> (id in after <==> id in before) && (id in before ==> after[id] == san(before[id]))
  }

  /** The band holds exactly the operations, sanitised. */
  ghost predicate Holds(san: Sanitizer, index: Index, ops: seq<Operation>, lo: int, hi: int) {
    forall id :: lo <= id <= hi ==>
      && (id in index <==> id - lo < |ops| && id != 6_000_000)
      && (id in index ==> id - lo < |ops| && index[id] == san(AsEntry(ops[id - lo])))
  }

  ghost predicate NothingIn(index: Index, lo: int, hi: int) {
    forall id :: lo <= id <= hi ==> id !in index
  }

  ghost predicate WriteEffect(san: Sanitizer, w: Writer, tracked: map<int, Operation>, before: Index, after: Index) {
    match w
    case InstallWriter =>
      && StaysIn(san, before, after, 3_000_001, 4_000_000) && StaysIn(san, before, after, 5_000_001, 6_000_000)
      && forall id :: !(3_000_001 <= id <= 4_000_000) && !(5_000_001 <= id <= 6_000_000) ==>
           && (id in after <==> id in tracked)
           && (id in after ==> id in tracked && after[id] == san(AsEntry(tracked[id])))
    case BodyMerger(ops) =>
      Holds(san, after, ops, 3_000_001, 4_000_000) && StaysOutside(san, before, after, 3_000_001, 4_000_000)
    case BodyDropper => NothingIn(after, 3_000_001, 4_000_000) && StaysOutside(san, before, after, 3_000_001, 4_000_000)
    case MockMerger(ops) =>
      Holds(san, after, ops, 5_000_001, 6_000_000) && StaysOutside(san, before, after, 5_000_001, 6_000_000)
    case MockDropper => NothingIn(after, 5_000_001, 6_000_000) && StaysOutside(san, before, after, 5_000_001, 6_000_000)
  }

  /** Every write that goes through, in every run without a failed read: its band holds exactly what it was given,
      with rule, kind and intent of each operation in its place, and every other band is as it was. */
  lemma WriteHasEffect(san: Sanitizer, s: State)
    requires KeepsKind(san) && Reachable(san, s) && !s.readFailed && s.lock != [] && s.phase.Loaded?
    ensures WriteEffect(san, s.lock[0], s.phase.tracked, s.index, Apply(san, s, Write(false)).index)
  {
    hide SameUpToLog, Rewritten, TracksWanted, Reachable;
    ReachableInv(san, s);
    RewriteHasEffect(san, s.lock[0], s.index, s.phase.tracked);
  }

  lemma ReachableInv(san: Sanitizer, s: State)
    requires KeepsKind(san) && Reachable(san, s)
    ensures Inv(san, s)
  {
    var s0: State, actions: seq<Action> :| Initial(s0) && Runs(san, s0, actions, s);
    InvInitial(san, s0);
    RunsKeep(san, s0, actions, s);
  }

  lemma RewriteHasEffect(san: Sanitizer, w: Writer, prior: Index, tracked: map<int, Operation>)
    requires GoodWriter(w) && GoodIndex(prior) && GoodTracked(tracked)
    ensures WriteEffect(san, w, tracked, prior, Sanitized(san, Rewritten(w, prior, tracked)))
  {
    hide MergeBody, MergeMock, DropBody, DropMock, Wholesale, HoldsRaw, Holds, StaysIn, StaysOutside, NothingIn, GoodIndex;
    match w
    case InstallWriter => WholesaleHasEffect(san, prior, tracked);
    case BodyMerger(ops) =>
      MergedBand(prior, ops, false);
      RawThenLogged(san, prior, MergeBody(prior, ops), ops, 3_000_001, 4_000_000);
    case BodyDropper => DropHasEffect(san, prior);
    case MockMerger(ops) =>
      MergedBand(prior, ops, true);
      RawThenLogged(san, prior, MergeMock(prior, ops), ops, 5_000_001, 6_000_000);
    case MockDropper => DropHasEffect(san, prior);
  }

  lemma DropHasEffect(san: Sanitizer, prior: Index)
    ensures WriteEffect(san, BodyDropper, map[], prior, Sanitized(san, DropBody(prior)))
    ensures WriteEffect(san, MockDropper, map[], prior, Sanitized(san, DropMock(prior)))
  {
  }

  lemma WholesaleHasEffect(san: Sanitizer, prior: Index, tracked: map<int, Operation>)
    requires GoodIndex(prior) && GoodTracked(tracked)
    ensures WriteEffect(san, InstallWriter, tracked, prior, Sanitized(san, Wholesale(prior, tracked)))
  {
  }

  lemma RawThenLogged(san: Sanitizer, prior: Index, index: Index, ops: seq<Operation>, lo: int, hi: int)
    requires HoldsRaw(index, ops, lo, hi)
    requires forall id :: !(lo <= id <= hi) ==> (id in index <==> id in prior) && (id in prior ==> index[id] == prior[id])
    ensures Holds(san, Sanitized(san, index), ops, lo, hi) && StaysOutside(san, prior, Sanitized(san, index), lo, hi)
  {
  }

  /** What is wanted of a band is the intent of the last successful write that owned it. */
  lemma WantedIsLastIntent(san: Sanitizer, s: State)
    requires s.lock != [] && s.phase.Loaded? && KeepsKind(san) && Reachable(san, s)
    ensures var w, t := s.lock[0], Apply(san, s, Write(false));
            && (forall id :: Owns(w, id) ==>
                  (id in t.wanted <==> id in Intent(w, s.phase.tracked))
                  && (id in t.wanted ==> t.wanted[id] == Intent(w, s.phase.tracked)[id]))
            && (forall id :: !Owns(w, id) ==>
                  (id in t.wanted <==> id in s.wanted) && (id in t.wanted ==> t.wanted[id] == s.wanted[id]))
  {
    var s0: State, actions: seq<Action> :| Initial(s0) && Runs(san, s0, actions, s);
    InvInitial(san, s0);
    RunsKeep(san, s0, actions, s);
    RewriteOwnBandOnly(s.lock[0], map[], s.phase.tracked);
  }

  /** A read that fails reads as an empty index, and the rewrite then keeps a foreign band exactly when
      that band was empty. */
  lemma FailedReadDropsForeignBands(w: Writer, index: Index, tracked: map<int, Operation>)
    requires GoodWriter(w) && GoodIndex(index) && GoodTracked(tracked)
    ensures var next := Rewritten(w, map[], tracked);
            (forall id :: !Owns(w, id) ==> (id in next <==> id in index)) <==>
            (forall id :: id in index ==> Owns(w, id))
  {
    RewriteOwnBandOnly(w, map[], tracked);
  }

  // ----- the queue of writers

  /** The writer an action asks for: a merge or drop, or that of an install that ends with a write. */
  function Asked(a: Action): seq<Writer> {
    match a
    case Request(w) => [w]
    case EndInstall(writes) => if writes then [InstallWriter] else []
    case _ => []
  }

  function Requested(actions: seq<Action>): seq<Writer> {
    if actions == [] then [] else Asked(actions[0]) + Requested(actions[1..])
  }

  /** How many writers have had their write. */
  function WritesIn(actions: seq<Action>): nat {
    if actions == [] then 0 else (if actions[0].Write? then 1 else 0) + WritesIn(actions[1..])
  }

  lemma LockStep(san: Sanitizer, s: State, a: Action)
    requires CanTake(s, a)
    ensures Apply(san, s, a).lock == if a.Write? then s.lock[1..] else s.lock + Asked(a)
    ensures a.Write? ==> s.lock != [] && Asked(a) == []
  {
    hide Rewritten, Wanted, Sanitized;
    assert s.lock + [] == s.lock;
  }

  lemma TailLater<T>(a: seq<T>, more: seq<T>, n: nat)
    requires a != [] && n <= |a[1..] + more|
    ensures n + 1 <= |a + more| && (a[1..] + more)[n..] == (a + more)[n + 1..]
  {
    assert (a + more)[1..] == a[1..] + more;
  }

  /** Over every run: who waits now are exactly those who waited or asked and have not written, in the order they
      asked; nobody is forgotten, runs twice or overtakes. */
  lemma {:induction false} WritersRunInOrder(san: Sanitizer, s: State, actions: seq<Action>, t: State)
    requires Runs(san, s, actions, t)
    ensures WritesIn(actions) <= |s.lock + Requested(actions)|
    ensures t.lock == (s.lock + Requested(actions))[WritesIn(actions)..]
    decreases |actions|
  {
    hide Apply, CanTake, Asked;
    if actions == [] {
      assert s.lock + [] == s.lock;
    } else {
      var a, more := actions[0], Requested(actions[1..]);
      LockStep(san, s, a);
      WritersRunInOrder(san, Apply(san, s, a), actions[1..], t);
      assert [] + more == more;
      if a.Write? {
        TailLater(s.lock, more, WritesIn(actions[1..]));
      } else {
        assert s.lock + Asked(a) + more == s.lock + (Asked(a) + more);
      }
    }
  }

  /** The head of the queue writes what it makes of the index as it is, and the next one follows. */
  lemma HeadGoesThrough(san: Sanitizer, s: State) returns (t: State)
    requires KeepsKind(san) && Reachable(san, s) && !s.readFailed && s.lock != [] && s.phase == Begin
    ensures Runs(san, s, [Read(false), Write(false)], t)
    ensures t.lock == s.lock[1..] && WriteEffect(san, s.lock[0], s.tracked, s.index, t.index)
  {
    hide WriteEffect, KeepsKind, Reachable, Rewritten, Wanted, Sanitized;
    var loaded := Apply(san, s, Read(false));
    t := Apply(san, loaded, Write(false));
    ReachableStep(san, s, Read(false));
    WriteHasEffect(san, loaded);
    assert Runs(san, t, [], t);
    assert Runs(san, loaded, [Write(false)], t) by {
      assert [Write(false)][1..] == [];
    }
    assert [Read(false), Write(false)][1..] == [Write(false)];
  }

  lemma ReachableStep(san: Sanitizer, s: State, a: Action)
    requires Reachable(san, s) && CanTake(s, a)
    ensures Reachable(san, Apply(san, s, a))
  {
    hide Apply, CanTake;
    var s0: State, actions: seq<Action> :| Initial(s0) && Runs(san, s0, actions, s);
    RunsThen(san, s0, actions, s, a);
  }

  lemma {:induction false} RunsThen(san: Sanitizer, s: State, actions: seq<Action>, t: State, a: Action)
    requires Runs(san, s, actions, t) && CanTake(t, a)
    ensures Runs(san, s, actions + [a], Apply(san, t, a))
    decreases |actions|
  {
    hide Apply, CanTake;
    if actions == [] {
      assert ([] + [a])[1..] == [];
      assert Runs(san, Apply(san, t, a), [], Apply(san, t, a));
    } else {
      RunsThen(san, Apply(san, s, actions[0]), actions[1..], t, a);
      assert (actions + [a])[1..] == actions[1..] + [a];
    }
  }
}
