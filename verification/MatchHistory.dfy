/** `packages/extension/src/match-history.ts`: a bounded ring of match rows, written by a queue of
    tasks, while the Match logging setting may change between any two awaits.

    Every storage access is one atomic step; what a task decided on is kept in its phase. */
module MatchHistory {
  import opened Options
  import opened Listing

  const MATCH_HISTORY_CAP: nat := 100

  datatype Row = Row(id: string, at: int, fields: seq<string>)

  /** `sanitizeStoredEntry`: the bounded row, or nothing when the row is malformed. */
  type Sanitizer = Row -> Option<Row>

  // ----- the ring

  function Cleaned(clean: Sanitizer, rows: seq<Row>): (r: seq<Row>)
    ensures |r| <= |rows|
  {
    if rows == [] then []
    else
      var last := clean(rows[|rows| - 1]);
      Cleaned(clean, rows[..|rows| - 1]) + if last.Some? then [last.value] else []
  }

  function Newest(rows: seq<Row>): (r: seq<Row>)
    ensures |r| == if |rows| < 100 then |rows| else 100
    ensures r == rows[|rows| - |r|..]
  {
    if |rows| <= MATCH_HISTORY_CAP then rows else rows[|rows| - MATCH_HISTORY_CAP..]
  }

  method ParseMatchHistoryEntries(clean: Sanitizer, value: seq<Row>) returns (entries: seq<Row>)
    ensures entries == Newest(Cleaned(clean, value))
  {
    entries := [];
    for i := 0 to |value|
      invariant entries == Cleaned(clean, value[..i])
    {
      assert value[..i + 1][..i] == value[..i];
      var parsed := clean(value[i]);
      if parsed.Some? {
        entries := entries + [parsed.value];
      }
    }
    assert value[..|value|] == value;
    if |entries| <= MATCH_HISTORY_CAP {
      return;
    }
    entries := entries[|entries| - MATCH_HISTORY_CAP..];
  }

  function Appended(clean: Sanitizer, entries: seq<Row>, next: Row): (r: seq<Row>)
    ensures |r| <= MATCH_HISTORY_CAP
  {
    var valid := Newest(Cleaned(clean, entries));
    if clean(next).None? then valid else Newest(valid + [clean(next).value])
  }

  method AppendMatchHistory(clean: Sanitizer, entries: seq<Row>, next: Row) returns (r: seq<Row>)
    ensures r == Appended(clean, entries, next)
  {
    var valid := ParseMatchHistoryEntries(clean, entries);
    var parsedNext := clean(next);
    if parsedNext.None? {
      return valid;
    }
    var combined := valid + [parsedNext.value];
    if |combined| <= MATCH_HISTORY_CAP {
      return combined;
    }
    return combined[|combined| - MATCH_HISTORY_CAP..];
  }

  function Survives(clean: Sanitizer, rows: seq<Row>): nat -> bool {
    (i: nat) => i < |rows| && clean(rows[i]).Some?
  }

  /** `result` has the cleaned form of each row that has one, in order. */
  ghost predicate CleanedAs(clean: Sanitizer, rows: seq<Row>, result: seq<Row>) {
    exists at: seq<nat> :: Lists(|rows|, Survives(clean, rows), at) && CleanedAt(clean, rows, at, result)
  }

  predicate CleanedAt(clean: Sanitizer, rows: seq<Row>, at: seq<nat>, result: seq<Row>) {
    |result| == |at| && forall k :: 0 <= k < |at| ==> at[k] < |rows| && clean(rows[at[k]]) == Some(result[k])
  }

  lemma {:induction false} CleanedMeans(clean: Sanitizer, rows: seq<Row>)
    ensures CleanedAs(clean, rows, Cleaned(clean, rows))
    decreases |rows|
  {
    hide Lists;
    if rows == [] {
      NothingCleaned(clean);
    } else {
      var n := |rows| - 1;
      CleanedMeans(clean, rows[..n]);
      var at: seq<nat> :| Lists(n, Survives(clean, rows[..n]), at) && CleanedAt(clean, rows[..n], at, Cleaned(clean, rows[..n]));
      SameDue(n, Survives(clean, rows[..n]), Survives(clean, rows), at);
      ListsMore(n, Survives(clean, rows), at);
      assert CleanedAt(clean, rows, at + if Survives(clean, rows)(n) then [n] else [], Cleaned(clean, rows));
    }
  }

  lemma NothingCleaned(clean: Sanitizer)
    ensures CleanedAs(clean, [], Cleaned(clean, []))
  {
    assert Lists(0, Survives(clean, []), []) && CleanedAt(clean, [], [], []);
  }

  /** `r` is the end of `all`, a hundred rows long or all of it. */
  predicate LastHundred(all: seq<Row>, r: seq<Row>) {
    |r| == (if |all| < 100 then |all| else 100) && r == all[|all| - |r|..]
  }

  /** An append gives the last hundred of the old rows and the new one, cleaned together. */
  lemma AppendMeans(clean: Sanitizer, entries: seq<Row>, next: Row) returns (all: seq<Row>)
    ensures CleanedAs(clean, entries + [next], all) && LastHundred(all, Appended(clean, entries, next))
  {
    all := Cleaned(clean, entries + [next]);
    CleanedMeans(clean, entries + [next]);
    assert (entries + [next])[..|entries|] == entries;
  }

  /** Appending to a ring of rows that are already clean drops at most the oldest one. */
  lemma AppendDropsOldest(clean: Sanitizer, entries: seq<Row>, next: Row)
    requires |entries| <= MATCH_HISTORY_CAP
    requires forall k :: 0 <= k < |entries| ==> clean(entries[k]) == Some(entries[k])
    requires clean(next) == Some(next)
    ensures Appended(clean, entries, next) ==
            (if |entries| < MATCH_HISTORY_CAP then entries else entries[1..]) + [next]
  {
    CleanedIdentity(clean, entries);
  }

  lemma {:induction false} CleanedIdentity(clean: Sanitizer, rows: seq<Row>)
    requires forall k :: 0 <= k < |rows| ==> clean(rows[k]) == Some(rows[k])
    ensures Cleaned(clean, rows) == rows
  {
    if rows != [] {
      CleanedIdentity(clean, rows[..|rows| - 1]);
    }
  }

  // ----- the tasks, the setting and the events

  /** `rogatio.matchLogging.enabled`: absent and `true` mean on, every other value means off. */
  datatype Setting = Absent | True | Other(value: int)

  predicate Enabled(v: Setting) { !v.Other? }

  /** A match carries the row `buildMatchHistoryRecord` would give, or nothing. */
  datatype Task = Record(row: Option<Row>) | Clear

  /** Where the task at the head of the queue stands: the storage access it makes next. */
  datatype Phase =
    | Begin
    | Recheck
    | Load
    | CheckAfterLoad(current: seq<Row>)
    | Save(current: seq<Row>)
    | CheckAfterSave
    | Wipe

  /** The clean-up `registerMatchHistory` does once. */
  datatype Startup = Unread | Decided(clear: bool) | Finished

  datatype State = State(
    history: seq<Row>,
    setting: Setting,
    events: seq<Setting>,
    queue: seq<Task>,
    phase: Phase,
    startup: Startup,
    startupFailed: bool)

  datatype Action =
    | Match(row: Option<Row>)
    | ClearCommand
    | Toggle(to: Setting)
    | Deliver
    | RunTask(readFails: bool)
    | ReadSetting(readFails: bool)
    | FinishStartup

  predicate Initial(s: State) {
    && |s.history| <= MATCH_HISTORY_CAP
    && s.events == [] && s.queue == [] && s.phase == Begin
    && s.startup == Unread && !s.startupFailed
  }

  predicate CanTake(s: State, a: Action) {
    match a
    case Match(_) => true
    case ClearCommand => true
    case Toggle(to) => to != s.setting
    case Deliver => s.events != []
    case RunTask(_) => s.queue != []
    case ReadSetting(_) => s.startup == Unread
    case FinishStartup => s.startup.Decided?
  }

  function Enqueue(s: State, task: Task): State {
    s.(queue := s.queue + [task])
  }

  /** The head of the queue is done; the next task starts afresh. */
  function Finish(s: State): State
    requires s.queue != []
  {
    s.(queue := s.queue[1..], phase := Begin)
  }

  /** One storage access of the running task. */
  function RunHead(clean: Sanitizer, s: State, readFails: bool): State
    requires s.queue != []
  {
    var enabled := Enabled(s.setting) && !readFails;
    if s.queue[0].Clear? then Finish(s.(history := []))
    else
      var row := s.queue[0].row;
      match s.phase
      case Begin => if enabled && row.Some? then s.(phase := Recheck) else Finish(s)
      case Recheck => if enabled then s.(phase := Load) else Finish(s)
      case Load => s.(phase := CheckAfterLoad(if readFails then [] else Newest(Cleaned(clean, s.history))))
      case CheckAfterLoad(current) => if enabled then s.(phase := Save(current)) else Finish(s)
      case Save(current) =>
        if row.None? then Finish(s)
        else s.(history := Appended(clean, current, row.value), phase := CheckAfterSave)
      case CheckAfterSave => if enabled then Finish(s) else s.(phase := Wipe)
      case Wipe => Finish(s.(history := []))
  }

  function Apply(clean: Sanitizer, s: State, a: Action): State
    requires CanTake(s, a)
  {
    match a
    case Match(row) => Enqueue(s, Record(row))
    case ClearCommand => Enqueue(s, Clear)
    case Toggle(to) => s.(setting := to, events := s.events + [to])
    case Deliver =>
      var rest := s.(events := s.events[1..]);
      if Enabled(s.events[0]) then rest else Enqueue(rest, Clear)
    case RunTask(readFails) => RunHead(clean, s, readFails)
    case ReadSetting(readFails) =>
      if readFails then s.(startup := Finished, startupFailed := true)
      else s.(startup := Decided(!Enabled(s.setting)))
    case FinishStartup =>
      var rest := s.(startup := Finished);
      if s.startup.clear then Enqueue(rest, Clear) else rest
  }

  /** The state after the actions, if each could be taken. */
  ghost predicate Runs(clean: Sanitizer, s: State, actions: seq<Action>, t: State)
    decreases |actions|
  {
    if actions == [] then s == t
    else CanTake(s, actions[0]) && Runs(clean, Apply(clean, s, actions[0]), actions[1..], t)
  }

  ghost predicate Reachable(clean: Sanitizer, t: State) {
    exists s: State, actions: seq<Action> :: Initial(s) && Runs(clean, s, actions, t)
  }

  predicate AtRest(s: State) {
    s.queue == [] && s.events == [] && s.startup == Finished
  }

  // ----- the invariant

  /** Something still pending will empty the history, or it is empty and the running task will not
      write. */
  predicate Covered(s: State) {
    || s.events != []
    || (exists k :: 0 <= k < |s.queue| && s.queue[k].Clear?)
    || (s.queue != [] && (s.phase == CheckAfterSave || s.phase == Wipe))
    || (s.history == [] && !(s.queue != [] && s.phase.Save?))
    || s.startup == Unread || s.startup == Decided(true)
    || s.startupFailed
  }

  predicate Inv(s: State) {
    && |s.history| <= MATCH_HISTORY_CAP
    && (s.events != [] ==> s.events[|s.events| - 1] == s.setting)
    && (s.queue == [] || s.queue[0].Clear? ==> s.phase == Begin)
    && (s.phase == Begin || (s.queue != [] && s.queue[0].Record? && s.queue[0].row.Some?))
    && (!Enabled(s.setting) ==> Covered(s))
  }

  lemma InvInitial(s: State)
    requires Initial(s)
    ensures Inv(s)
  {
  }

  lemma EnqueueKeeps(s: State, task: Task)
    ensures (exists k :: 0 <= k < |s.queue| && s.queue[k].Clear?) || task.Clear? ==>
              exists k :: 0 <= k < |Enqueue(s, task).queue| && Enqueue(s, task).queue[k].Clear?
    ensures s.queue != [] ==> Enqueue(s, task).queue[0] == s.queue[0]
  {
    var q := Enqueue(s, task).queue;
    assert q[|s.queue|] == task;
    if k :| 0 <= k < |s.queue| && s.queue[k].Clear? {
      assert q[k].Clear?;
    }
  }

  lemma FinishKeeps(s: State)
    requires s.queue != [] && s.queue[0].Record?
    requires exists k :: 0 <= k < |s.queue| && s.queue[k].Clear?
    ensures exists k :: 0 <= k < |Finish(s).queue| && Finish(s).queue[k].Clear?
  {
    var k :| 0 <= k < |s.queue| && s.queue[k].Clear?;
    assert Finish(s).queue[k - 1].Clear?;
  }

  lemma InvRunHead(clean: Sanitizer, s: State, readFails: bool)
    requires Inv(s) && s.queue != []
    ensures Inv(RunHead(clean, s, readFails))
  {
    var t := RunHead(clean, s, readFails);
    if !Enabled(s.setting) && s.queue[0].Record? && exists k :: 0 <= k < |s.queue| && s.queue[k].Clear? {
      FinishKeeps(s);
    }
  }

  lemma InvStep(clean: Sanitizer, s: State, a: Action)
    requires Inv(s) && CanTake(s, a)
    ensures Inv(Apply(clean, s, a))
  {
    match a
    case Match(row) => EnqueueKeeps(s, Record(row));
    case ClearCommand => EnqueueKeeps(s, Clear);
    case Toggle(_) =>
    case Deliver =>
      if !Enabled(s.events[0]) {
        EnqueueKeeps(s.(events := s.events[1..]), Clear);
      }
    case RunTask(readFails) => InvRunHead(clean, s, readFails);
    case ReadSetting(_) =>
    case FinishStartup =>
      if s.startup.clear {
        EnqueueKeeps(s.(startup := Finished), Clear);
      }
  }

  lemma {:induction false} InvRuns(clean: Sanitizer, s: State, actions: seq<Action>, t: State)
    requires Inv(s) && Runs(clean, s, actions, t)
    ensures Inv(t)
    decreases |actions|
  {
    if actions != [] {
      InvStep(clean, s, actions[0]);
      InvRuns(clean, Apply(clean, s, actions[0]), actions[1..], t);
    }
  }

  lemma ReachableInv(clean: Sanitizer, s: State)
    requires Reachable(clean, s)
    ensures Inv(s)
  {
    var s0: State, actions: seq<Action> :| Initial(s0) && Runs(clean, s0, actions, s);
    InvInitial(s0);
    InvRuns(clean, s0, actions, s);
  }

  /** Match logging off means nothing kept, over every interleaving: at rest with logging off the
      history is empty unless the one read at start-up failed; and the cap always holds. */
  lemma LoggingOffKeepsNothing(clean: Sanitizer, s: State)
    requires Reachable(clean, s)
    ensures |s.history| <= MATCH_HISTORY_CAP
    ensures AtRest(s) && s.setting.Other? && !s.startupFailed ==> s.history == []
  {
    var s0: State, actions: seq<Action> :| Initial(s0) && Runs(clean, s0, actions, s);
    InvInitial(s0);
    InvRuns(clean, s0, actions, s);
  }

  /** Matches, clears and toggles may come at any moment. */
  lemma AnythingMayCome(s: State, row: Option<Row>, to: Setting)
    ensures CanTake(s, Match(row)) && CanTake(s, ClearCommand) && (to != s.setting ==> CanTake(s, Toggle(to)))
  {
  }

  // ----- the exception, exactly

  predicate Disturbs(a: Action) { a.Toggle? || a.ClearCommand? }

  ghost predicate Disturbed(actions: seq<Action>) {
    exists i :: 0 <= i < |actions| && Disturbs(actions[i])
  }

  /** As `Covered`, without leaning on the start-up. */
  predicate CoveredByNow(s: State) {
    || s.events != []
    || (exists k :: 0 <= k < |s.queue| && s.queue[k].Clear?)
    || (s.queue != [] && (s.phase == CheckAfterSave || s.phase == Wipe))
    || (s.history == [] && !(s.queue != [] && s.phase.Save?))
  }

  /** After a toggle or a clear request. */
  predicate Touched(s: State) { Inv(s) && (!Enabled(s.setting) ==> CoveredByNow(s)) }

  lemma TouchedRunHead(clean: Sanitizer, s: State, readFails: bool)
    requires Touched(s) && s.queue != []
    ensures Touched(RunHead(clean, s, readFails))
  {
    InvRunHead(clean, s, readFails);
    if !Enabled(s.setting) && s.queue[0].Record? && exists k :: 0 <= k < |s.queue| && s.queue[k].Clear? {
      FinishKeeps(s);
    }
  }

  lemma TouchedStep(clean: Sanitizer, s: State, a: Action)
    requires Inv(s) && CanTake(s, a) && (Touched(s) || Disturbs(a))
    ensures Touched(Apply(clean, s, a))
  {
    InvStep(clean, s, a);
    match a
    case Match(row) => EnqueueKeeps(s, Record(row));
    case ClearCommand => EnqueueKeeps(s, Clear);
    case Toggle(_) =>
    case Deliver =>
      if !Enabled(s.events[0]) {
        EnqueueKeeps(s.(events := s.events[1..]), Clear);
      }
    case RunTask(readFails) => TouchedRunHead(clean, s, readFails);
    case ReadSetting(_) =>
    case FinishStartup =>
      if s.startup.clear {
        EnqueueKeeps(s.(startup := Finished), Clear);
      }
  }

  lemma {:induction false} TouchedRuns(clean: Sanitizer, s: State, actions: seq<Action>, t: State)
    requires Inv(s) && Runs(clean, s, actions, t) && (Touched(s) || Disturbed(actions))
    ensures Touched(t)
    decreases |actions|
  {
    hide Touched, Inv, Apply, CanTake;
    if actions != [] {
      var next := Apply(clean, s, actions[0]);
      InvStep(clean, s, actions[0]);
      if Touched(s) || Disturbs(actions[0]) {
        TouchedStep(clean, s, actions[0]);
      } else {
        var i :| 0 <= i < |actions| && Disturbs(actions[i]);
        assert actions[1..][i - 1] == actions[i];
      }
      TouchedRuns(clean, next, actions[1..], t);
    }
  }

  /** Logging is off, nobody has touched it, and so far nothing at start-up has cleared. */
  predicate Untouched(rows: seq<Row>, s: State) {
    && !Enabled(s.setting) && s.events == []
    && (s.startup == Unread || s.startupFailed ==>
          s.history == rows && s.phase == Begin && forall k :: 0 <= k < |s.queue| ==> s.queue[k].Record?)
    && (s.startupFailed ==> s.startup == Finished)
  }

  lemma UntouchedStep(clean: Sanitizer, rows: seq<Row>, s: State, a: Action)
    requires Untouched(rows, s) && CanTake(s, a) && !Disturbs(a)
    ensures Untouched(rows, Apply(clean, s, a))
  {
  }

  lemma {:induction false} UntouchedRuns(clean: Sanitizer, rows: seq<Row>, s: State, actions: seq<Action>, t: State)
    requires Untouched(rows, s) && Runs(clean, s, actions, t) && !Disturbed(actions)
    ensures Untouched(rows, t)
    decreases |actions|
  {
    hide Untouched, Apply, CanTake;
    if actions != [] {
      assert !Disturbs(actions[0]);
      UntouchedStep(clean, rows, s, actions[0]);
      forall i | 0 <= i < |actions[1..]| ensures !Disturbs(actions[1..][i]) {
        assert actions[1..][i] == actions[i + 1];
      }
      UntouchedRuns(clean, rows, Apply(clean, s, actions[0]), actions[1..], t);
    }
  }

  lemma {:induction false} SettingStays(clean: Sanitizer, s: State, actions: seq<Action>, t: State)
    requires Runs(clean, s, actions, t) && !Disturbed(actions)
    ensures t.setting == s.setting
    decreases |actions|
  {
    hide Newest, Cleaned, Appended;
    if actions != [] {
      assert !Disturbs(actions[0]);
      forall i | 0 <= i < |actions[1..]| ensures !Disturbs(actions[1..][i]) {
        assert actions[1..][i] == actions[i + 1];
      }
      SettingStays(clean, Apply(clean, s, actions[0]), actions[1..], t);
    }
  }

  /** Over every run that comes to rest with logging off: something is kept exactly when the read at start-up
      failed, an earlier worker had left rows, and nobody toggled logging or asked for a clear since. */
  lemma KeptIffStartupFailed(clean: Sanitizer, s: State, actions: seq<Action>, t: State)
    requires Initial(s) && Runs(clean, s, actions, t) && AtRest(t) && t.setting.Other?
    ensures t.history == [] <==> !t.startupFailed || s.history == [] || Disturbed(actions)
  {
    InvInitial(s);
    if Disturbed(actions) {
      TouchedRuns(clean, s, actions, t);
    } else {
      SettingStays(clean, s, actions, t);
      UntouchedRuns(clean, s.history, s, actions, t);
      LoggingOffKeepsNothing(clean, t);
    }
  }

  /** The exception is real: rows left by an earlier worker stay when the start-up read fails. */
  lemma FailedStartupKeepsRows(clean: Sanitizer, row: Row, off: int)
    ensures var s := State([row], Other(off), [], [], Begin, Unread, false);
            var t := s.(startup := Finished, startupFailed := true);
            && Initial(s) && Runs(clean, s, [ReadSetting(true)], t)
            && AtRest(t) && t.setting == Other(off) && t.history == [row]
  {
    var s := State([row], Other(off), [], [], Begin, Unread, false);
    assert Runs(clean, Apply(clean, s, ReadSetting(true)), [], Apply(clean, s, ReadSetting(true)));
  }

  // ----- reaching rest

  /** Steps the worker still owes when nothing new arrives. */
  function PhaseWork(p: Phase): nat {
    match p
    case Begin => 7
    case Recheck => 6
    case Load => 5
    case CheckAfterLoad(_) => 4
    case Save(_) => 3
    case CheckAfterSave => 2
    case Wipe => 1
  }

  function Work(s: State): nat {
    8 * |s.queue| + (if s.queue == [] then 0 else PhaseWork(s.phase))
    + 17 * |s.events|
    + (match s.startup case Unread => 18 case Decided(_) => 17 case Finished => 0)
  }

  predicate Internal(a: Action) {
    a.Deliver? || a.RunTask? || a.ReadSetting? || a.FinishStartup?
  }

  lemma InternalStepsEnd(clean: Sanitizer, s: State, a: Action)
    requires CanTake(s, a) && Internal(a)
    ensures Work(Apply(clean, s, a)) < Work(s)
  {
    hide Appended, Newest, Cleaned;
  }

  /** While nothing new arrives the worker can always go on until it is at rest, and gets there in a
      bounded number of steps, whatever the order; with logging off nothing is kept then. */
  lemma {:induction false} QuietRunsEndEmpty(clean: Sanitizer, s: State, actions: seq<Action>, t: State)
    requires Reachable(clean, s) && Runs(clean, s, actions, t)
    requires forall a :: a in actions ==> Internal(a)
    ensures |actions| <= Work(s)
    ensures t.setting == s.setting
    ensures !AtRest(t) ==> exists a :: Internal(a) && CanTake(t, a)
    ensures AtRest(t) && s.setting.Other? && !t.startupFailed ==> t.history == []
    decreases |actions|
  {
    if actions == [] {
      if !AtRest(t) {
        assert CanTake(t, Deliver) || CanTake(t, RunTask(false)) || CanTake(t, ReadSetting(false)) || CanTake(t, FinishStartup);
      }
      LoggingOffKeepsNothing(clean, t);
    } else {
      var next := Apply(clean, s, actions[0]);
      InternalStepsEnd(clean, s, actions[0]);
      ReachableStep(clean, s, actions[0]);
      QuietRunsEndEmpty(clean, next, actions[1..], t);
    }
  }

  lemma ReachableStep(clean: Sanitizer, s: State, a: Action)
    requires Reachable(clean, s) && CanTake(s, a)
    ensures Reachable(clean, Apply(clean, s, a))
  {
    var s0: State, actions: seq<Action> :| Initial(s0) && Runs(clean, s0, actions, s);
    RunsThen(clean, s0, actions, s, a);
  }

  lemma {:induction false} RunsThen(clean: Sanitizer, s: State, actions: seq<Action>, t: State, a: Action)
    requires Runs(clean, s, actions, t) && CanTake(t, a)
    ensures Runs(clean, s, actions + [a], Apply(clean, t, a))
    decreases |actions|
  {
    if actions == [] {
      assert ([] + [a])[1..] == [];
      assert Runs(clean, Apply(clean, t, a), [], Apply(clean, t, a));
    } else {
      RunsThen(clean, Apply(clean, s, actions[0]), actions[1..], t, a);
      assert (actions + [a])[1..] == actions[1..] + [a];
    }
  }

  // ----- what is kept while logging stays on

  /** The stored rows after one match, or one clear, has had its full effect. */
  function Kept(clean: Sanitizer, history: seq<Row>, task: Task): seq<Row> {
    if task.Clear? then []
    else if task.row.None? then history
    else Appended(clean, Newest(Cleaned(clean, history)), task.row.value)
  }

  function KeptAll(clean: Sanitizer, history: seq<Row>, tasks: seq<Task>): seq<Row>
    decreases |tasks|
  {
    if tasks == [] then history else KeptAll(clean, Kept(clean, history, tasks[0]), tasks[1..])
  }

  /** The full effect of the requests among the actions, one after the other. */
  function Replay(clean: Sanitizer, history: seq<Row>, actions: seq<Action>): seq<Row>
    decreases |actions|
  {
    if actions == [] then history else Replay(clean, Effect(clean, history, actions[0]), actions[1..])
  }

  function Effect(clean: Sanitizer, history: seq<Row>, a: Action): seq<Row> {
    match a
    case Match(row) => Kept(clean, history, Record(row))
    case ClearCommand => Kept(clean, history, Clear)
    case _ => history
  }

  /** What the history will be when the queue has drained with logging on. */
  function Future(clean: Sanitizer, s: State): seq<Row> {
    if s.queue == [] then s.history
    else KeptAll(clean, HeadResult(clean, s), s.queue[1..])
  }

  function HeadResult(clean: Sanitizer, s: State): seq<Row>
    requires s.queue != []
  {
    var task := s.queue[0];
    if task.Clear? || task.row.None? then Kept(clean, s.history, task)
    else
      match s.phase
      case CheckAfterLoad(current) => Appended(clean, current, task.row.value)
      case Save(current) => Appended(clean, current, task.row.value)
      case CheckAfterSave => s.history
      case Wipe => []
      case _ => Kept(clean, s.history, task)
  }

  lemma {:induction false} KeptAllThen(clean: Sanitizer, history: seq<Row>, tasks: seq<Task>, task: Task)
    ensures KeptAll(clean, history, tasks + [task]) == Kept(clean, KeptAll(clean, history, tasks), task)
    decreases |tasks|
  {
    if tasks == [] {
      assert ([] + [task])[1..] == [];
      assert KeptAll(clean, history, [task]) == KeptAll(clean, Kept(clean, history, task), [task][1..]);
    } else {
      assert (tasks + [task])[1..] == tasks[1..] + [task];
      KeptAllThen(clean, Kept(clean, history, tasks[0]), tasks[1..], task);
    }
  }

  lemma FutureEnqueue(clean: Sanitizer, s: State, task: Task)
    requires s.queue == [] ==> s.phase == Begin
    ensures Future(clean, Enqueue(s, task)) == Kept(clean, Future(clean, s), task)
  {
    hide Kept, Appended, Newest, Cleaned;
    var t := Enqueue(s, task);
    if s.queue == [] {
      assert t.queue == [task] && t.queue[1..] == [];
    } else {
      assert t.queue[1..] == s.queue[1..] + [task];
      KeptAllThen(clean, HeadResult(clean, s), s.queue[1..], task);
    }
  }

  lemma FutureRunHead(clean: Sanitizer, s: State)
    requires Inv(s) && s.queue != [] && Enabled(s.setting)
    ensures Future(clean, RunHead(clean, s, false)) == Future(clean, s)
  {
    hide Appended, Cleaned, Newest;
    var t := RunHead(clean, s, false);
    if t.queue == s.queue[1..] && t.queue != [] {
      assert KeptAll(clean, t.history, t.queue) == KeptAll(clean, Kept(clean, t.history, t.queue[0]), t.queue[1..]);
    }
  }

  predicate Undisturbed(a: Action) {
    a.Match? || a.ClearCommand? || a == RunTask(false)
  }

  lemma FutureStep(clean: Sanitizer, s: State, a: Action)
    requires Inv(s) && Enabled(s.setting) && CanTake(s, a) && Undisturbed(a)
    ensures Future(clean, Apply(clean, s, a)) == Effect(clean, Future(clean, s), a)
  {
    hide Future, Kept, RunHead;
    if a.RunTask? {
      FutureRunHead(clean, s);
    } else {
      FutureEnqueue(clean, s, if a.Match? then Record(a.row) else Clear);
    }
  }

  lemma SettingKept(clean: Sanitizer, s: State, a: Action)
    requires CanTake(s, a) && Undisturbed(a)
    ensures Apply(clean, s, a).setting == s.setting
  {
  }

  /** While logging stays on and reads succeed, the drained queue leaves exactly the requested appends
      and clears, in the order they were requested, however the task steps interleave with them. */
  lemma {:induction false} LoggingOnKeepsOrder(clean: Sanitizer, s: State, actions: seq<Action>, t: State)
    requires Inv(s) && !s.setting.Other? && Runs(clean, s, actions, t)
    requires forall k :: 0 <= k < |actions| ==> Undisturbed(actions[k])
    ensures Future(clean, t) == Replay(clean, Future(clean, s), actions)
    decreases |actions|
  {
    hide Future, Apply, Inv, Effect, CanTake, Undisturbed;
    if actions != [] {
      InvStep(clean, s, actions[0]);
      FutureStep(clean, s, actions[0]);
      SettingKept(clean, s, actions[0]);
      LoggingOnKeepsOrder(clean, Apply(clean, s, actions[0]), actions[1..], t);
    }
  }

  lemma DrainedHistory(clean: Sanitizer, s: State, actions: seq<Action>, t: State)
    requires Inv(s) && !s.setting.Other? && Runs(clean, s, actions, t)
    requires forall k :: 0 <= k < |actions| ==> Undisturbed(actions[k])
    requires s.queue == [] && t.queue == []
    ensures t.history == Replay(clean, s.history, actions)
  {
    hide Replay, Runs, Inv;
    LoggingOnKeepsOrder(clean, s, actions, t);
  }

  // ----- the ring is the end of the whole log

  /** Everything the requests ask to keep since the last clear, without a cap. */
  function Log(clean: Sanitizer, log: seq<Row>, actions: seq<Action>): seq<Row>
    decreases |actions|
  {
    if actions == [] then log
    else
      match actions[0]
      case ClearCommand => Log(clean, [], actions[1..])
      case Match(Some(row)) =>
        if clean(row).Some? then Log(clean, log + [clean(row).value], actions[1..]) else Log(clean, log, actions[1..])
      case _ => Log(clean, log, actions[1..])
  }

  ghost predicate Idempotent(clean: Sanitizer) {
    forall row :: clean(row).Some? ==> clean(clean(row).value) == clean(row)
  }

  predicate AllClean(clean: Sanitizer, rows: seq<Row>) {
    forall k :: 0 <= k < |rows| ==> clean(rows[k]) == Some(rows[k])
  }

  lemma KeptIsLast(clean: Sanitizer, log: seq<Row>, history: seq<Row>, row: Row)
    requires Idempotent(clean) && AllClean(clean, log) && LastHundred(log, history)
    ensures var kept, more := Kept(clean, history, Record(Some(row))), if clean(row).Some? then log + [clean(row).value] else log;
            AllClean(clean, more) && LastHundred(more, kept)
  {
    CleanedIdentity(clean, history);
  }

  lemma {:induction false} ReplayIsLast(clean: Sanitizer, log: seq<Row>, history: seq<Row>, actions: seq<Action>)
    requires Idempotent(clean) && AllClean(clean, log) && LastHundred(log, history)
    ensures LastHundred(Log(clean, log, actions), Replay(clean, history, actions))
    decreases |actions|
  {
    hide Kept, Idempotent;
    if actions != [] {
      match actions[0]
      case Match(Some(row)) =>
        KeptIsLast(clean, log, history, row);
        ReplayIsLast(clean, if clean(row).Some? then log + [clean(row).value] else log, Kept(clean, history, Record(Some(row))),
                     actions[1..]);
      case Match(None) =>
        KeptOther(clean, history);
        ReplayIsLast(clean, log, history, actions[1..]);
      case ClearCommand =>
        KeptOther(clean, history);
        ReplayIsLast(clean, [], [], actions[1..]);
      case _ => ReplayIsLast(clean, log, history, actions[1..]);
    }
  }

  lemma KeptOther(clean: Sanitizer, history: seq<Row>)
    ensures Kept(clean, history, Record(None)) == history && Kept(clean, history, Clear) == []
  {
  }

  /** With logging on, from a drained queue to a drained queue: the stored rows are the last hundred of all that
      matched since the last clear. */
  lemma DrainedIsLastHundred(clean: Sanitizer, s: State, actions: seq<Action>, t: State)
    requires Reachable(clean, s) && !s.setting.Other? && Runs(clean, s, actions, t) && s.queue == [] && t.queue == []
    requires forall k :: 0 <= k < |actions| ==> actions[k].Match? || actions[k].ClearCommand? || actions[k] == RunTask(false)
    requires Idempotent(clean) && AllClean(clean, s.history)
    ensures LastHundred(Log(clean, s.history, actions), t.history)
  {
    hide Replay, Runs, Log, Idempotent, Reachable, Inv;
    ReachableInv(clean, s);
    DrainedHistory(clean, s, actions, t);
    ReplayIsLast(clean, s.history, s.history, actions);
  }
}
