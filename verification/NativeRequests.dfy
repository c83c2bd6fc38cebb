/** `packages/extension/src/background.ts:152-268`: the table of requests sent to the native host. A request
    is answered, refused by its port, timed out, or lost with a port; handlers run one at a time, in any order. */
module NativeRequests {
  import opened Options
  import opened Decimal

  datatype Outcome = Answered | PostFailed | TimedOut | Disconnected | Unexpected

  /** `pending` and `rejected` hold, under a request id, the number of the request whose promise the stored
      closure settles. `settled` records the first settlement of each request, `repeats` counts later ones.
      `open` holds the ports whose disconnect is still to come, `timers` the requests with a timer still to
      fire, and `via` the port each request went to. */
  datatype Table = Table(
    port: Option<nat>,
    nextPort: nat,
    open: set<nat>,
    counter: nat,
    pending: map<string, nat>,
    rejected: map<string, nat>,
    timers: set<nat>,
    settled: map<nat, Outcome>,
    repeats: nat,
    via: map<nat, nat>)

  datatype Event =
    | Send(connects: bool, posts: bool)
    | Message(requestId: Option<string>)
    | Timeout(request: nat)
    | Disconnect(port: nat)
    | Forget

  function Empty(): Table { Table(None, 0, {}, 0, map[], map[], {}, map[], 0, map[]) }

  predicate CanHappen(t: Table, e: Event) {
    match e
    case Timeout(n) => n in t.timers
    case Disconnect(p) => p in t.open
    case _ => true
  }

  predicate IsHostRequest(id: string) { "host-" <= id }

  function Settle(t: Table, n: nat, how: Outcome): Table {
    if n in t.settled then t.(repeats := t.repeats + 1) else t.(settled := t.settled[n := how])
  }

  function Dropped(t: Table, id: string): Table {
    t.(pending := t.pending - {id}, rejected := t.rejected - {id})
  }

  function Connected(t: Table): Table {
    if t.port.Some? then t
    else t.(port := Some(t.nextPort), nextPort := t.nextPort + 1, open := t.open + {t.nextPort})
  }

  function Sent(t: Table, connects: bool, posts: bool): Table {
    if t.port.None? && !connects then t
    else
      var c := Connected(t);
      var n := t.counter + 1;
      var r := c.(counter := n, via := t.via[n := c.port.value]);
      if posts then r.(pending := t.pending[Text(n) := n], rejected := t.rejected[Text(n) := n], timers := t.timers + {n})
      else Settle(r.(pending := t.pending - {Text(n)}, rejected := t.rejected - {Text(n)}), n, PostFailed)
  }

  function Received(t: Table, requestId: Option<string>): Table {
    if requestId.None? || IsHostRequest(requestId.value) then t
    else
      var id := requestId.value;
      var d := Dropped(t, id);
      if id in t.pending then Settle(d, t.pending[id], Answered)
      else if id in t.rejected then Settle(d, t.rejected[id], Unexpected)
      else d
  }

  function Fired(t: Table, n: nat): Table {
    var u := t.(timers := t.timers - {n});
    if Text(n) in t.pending then Settle(Dropped(u, Text(n)), n, TimedOut) else u
  }

  /** Every request in `rejected` is rejected, whichever port it went to. */
  function Lost(t: Table, p: nat): Table {
    t.(port := None, open := t.open - {p}, pending := map[], rejected := map[],
       settled := SettleAll(t.settled, t.rejected.Values),
       repeats := t.repeats + |set id | id in t.rejected && t.rejected[id] in t.settled|)
  }

  function SettleAll(settled: map<nat, Outcome>, requests: set<nat>): map<nat, Outcome> {
    map n | n in settled.Keys + requests :: if n in settled then settled[n] else Disconnected
  }

  function Step(t: Table, e: Event): Table {
    match e
    case Send(connects, posts) => Sent(t, connects, posts)
    case Message(requestId) => Received(t, requestId)
    case Timeout(n) => Fired(t, n)
    case Disconnect(p) => Lost(t, p)
    case Forget => t.(port := None)
  }

  ghost predicate Runs(t: Table, events: seq<Event>, u: Table)
    decreases |events|
  {
    if events == [] then t == u else CanHappen(t, events[0]) && Runs(Step(t, events[0]), events[1..], u)
  }

  // ----- the invariant

  predicate Inv(t: Table) {
    && t.pending == t.rejected
    && (forall id :: id in t.pending ==>
          && 1 <= t.pending[id] <= t.counter && id == Text(t.pending[id])
          && t.pending[id] !in t.settled && t.pending[id] in t.timers)
    && (forall n :: n in t.settled ==> 1 <= n <= t.counter && t.settled[n] != Unexpected)
    && (forall n :: 1 <= n <= t.counter ==> IsSplit(t, n))
    && (forall n :: n in t.timers ==> 1 <= n <= t.counter)
    && t.repeats == 0
  }

  /** An issued request is either settled or still in the table. */
  predicate IsSplit(t: Table, n: nat) { n in t.settled <==> Text(n) !in t.pending }

  lemma TextInjective(m: nat, n: nat)
    requires Text(m) == Text(n)
    ensures m == n
  {
    TextIsCanonical(m);
    TextIsCanonical(n);
  }

  lemma HostRequestMeans(id: string)
    ensures IsHostRequest(id) <==> |id| >= 5 && id[..5] == "host-"
  {
  }

  /** No id this extension issues can be taken for a request of the host. */
  lemma IssuedIsNotHost(n: nat)
    ensures !IsHostRequest(Text(n))
  {
    assert IsDigit(Text(n)[0]);
    assert Text(n)[0] != "host-"[0];
  }

  lemma SendKeeps(t: Table, connects: bool, posts: bool)
    requires Inv(t)
    ensures Inv(Sent(t, connects, posts))
  {
    hide Text, IsSplit;
    NextIdIsNew(t);
    var u := Sent(t, connects, posts);
    if u != t {
      forall m | 1 <= m <= u.counter ensures IsSplit(u, m) {
        SplitAfterSend(t, u, m, posts);
      }
    }
  }

  lemma NextIdIsNew(t: Table)
    requires Inv(t)
    ensures Text(t.counter + 1) !in t.pending && t.counter + 1 !in t.settled
    ensures t.pending - {Text(t.counter + 1)} == t.pending
  {
    hide Text;
    forall m: nat | Text(m) == Text(t.counter + 1) ensures m == t.counter + 1 {
      TextInjective(m, t.counter + 1);
    }
  }

  lemma SplitAfterSend(t: Table, u: Table, m: nat, posts: bool)
    requires var n := t.counter + 1;
             && 1 <= m <= n && (m <= t.counter ==> IsSplit(t, m))
             && Text(n) !in t.pending && n !in t.settled
             && (if posts then u.pending == t.pending[Text(n) := n] && u.settled == t.settled
                 else u.pending == t.pending && u.settled == t.settled[n := PostFailed])
    ensures IsSplit(u, m)
  {
    hide Text;
    if m != t.counter + 1 && Text(m) == Text(t.counter + 1) {
      TextInjective(m, t.counter + 1);
    }
  }

  lemma MessageKeeps(t: Table, requestId: Option<string>)
    requires Inv(t)
    ensures Inv(Received(t, requestId))
  {
    hide Text, IsHostRequest;
    if requestId.Some? && requestId.value in t.pending {
      OneLeaves(t, t.pending[requestId.value], Answered, t.timers);
    } else if requestId.Some? {
      assert t.pending - {requestId.value} == t.pending;
    }
  }

  /** Settling one pending request and dropping its id keeps the table in order. */
  lemma OneLeaves(t: Table, n: nat, how: Outcome, timers: set<nat>)
    requires Inv(t) && Text(n) in t.pending && how != Unexpected
    requires forall m :: m in t.timers && m != n ==> m in timers
    requires timers <= t.timers
    ensures t.pending[Text(n)] == n
    ensures Inv(Settle(Dropped(t.(timers := timers), Text(n)), n, how))
  {
    hide Text;
    TextInjective(t.pending[Text(n)], n);
    var u := Settle(Dropped(t.(timers := timers), Text(n)), n, how);
    forall m: nat | Text(m) == Text(n) ensures m == n {
      TextInjective(m, n);
    }
    forall m | 1 <= m <= u.counter ensures IsSplit(u, m) {
      assert IsSplit(t, m);
    }
  }

  lemma TimeoutKeeps(t: Table, n: nat)
    requires Inv(t) && n in t.timers
    ensures Inv(Fired(t, n))
  {
    hide Text;
    if Text(n) in t.pending {
      OneLeaves(t, n, TimedOut, t.timers - {n});
    } else {
      forall id | id in t.pending ensures t.pending[id] != n {
        assert id == Text(t.pending[id]);
      }
      var u := Fired(t, n);
      forall m | 1 <= m <= u.counter ensures IsSplit(u, m) {
        assert IsSplit(t, m);
      }
    }
  }

  lemma DisconnectKeeps(t: Table, p: nat)
    requires Inv(t)
    ensures Inv(Lost(t, p))
  {
    hide Text;
    var u := Lost(t, p);
    assert (set id | id in t.rejected && t.rejected[id] in t.settled) == {};
    forall m | 1 <= m <= u.counter ensures IsSplit(u, m) {
      assert IsSplit(t, m);
      if Text(m) in t.pending {
        TextInjective(t.pending[Text(m)], m);
        assert m in t.rejected.Values;
      }
    }
  }

  lemma StepKeeps(t: Table, e: Event)
    requires Inv(t) && CanHappen(t, e)
    ensures Inv(Step(t, e))
  {
    hide Inv, Sent, Received, Fired, Lost;
    match e
    case Send(connects, posts) => SendKeeps(t, connects, posts);
    case Message(requestId) => MessageKeeps(t, requestId);
    case Timeout(n) => TimeoutKeeps(t, n);
    case Disconnect(p) => DisconnectKeeps(t, p);
    case Forget => ForgetKeeps(t);
  }

  lemma ForgetKeeps(t: Table)
    requires Inv(t)
    ensures Inv(t.(port := None))
  {
    forall n | 1 <= n <= t.counter ensures IsSplit(t.(port := None), n) {
      assert IsSplit(t, n);
    }
  }

  lemma {:induction false} RunsKeep(t: Table, events: seq<Event>, u: Table)
    requires Inv(t) && Runs(t, events, u)
    ensures Inv(u)
    decreases |events|
  {
    hide Inv, Step;
    if events != [] {
      StepKeeps(t, events[0]);
      RunsKeep(Step(t, events[0]), events[1..], u);
    }
  }

  /** Over every order of sends, replies, post failures, timeouts and disconnects: both maps have the same
      ids, each issued request is in exactly one of the table and the settled ones, none is settled twice,
      the "unexpected response" branch never runs, and every request in the table has a timer to fire. */
  lemma EveryRequestSettlesOnce(events: seq<Event>, t: Table)
    requires Runs(Empty(), events, t)
    ensures t.pending.Keys == t.rejected.Keys
    ensures forall n :: 1 <= n <= t.counter ==> (n in t.settled <==> Text(n) !in t.pending)
    ensures forall n :: n in t.settled ==> 1 <= n <= t.counter && t.settled[n] != Unexpected
    ensures forall id :: id in t.pending ==> exists n :: n in t.timers && 1 <= n <= t.counter && id == Text(n)
    ensures t.repeats == 0
  {
    RunsKeep(Empty(), events, t);
    forall n | 1 <= n <= t.counter ensures n in t.settled <==> Text(n) !in t.pending {
      assert IsSplit(t, n);
    }
  }

  /** A reply settles the request of its own id if that is still in the table, and nothing otherwise. */
  lemma ReplySettlesOwn(events: seq<Event>, t: Table, id: string)
    requires Runs(Empty(), events, t)
    ensures var u := Step(t, Message(Some(id)));
            if id in t.pending
            then u.settled == t.settled[t.pending[id] := Answered] && id == Text(t.pending[id]) && id !in u.pending
            else u.settled == t.settled && u.pending == t.pending
  {
    RunsKeep(Empty(), events, t);
    if id in t.pending {
      IssuedIsNotHost(t.pending[id]);
    } else {
      assert t.pending - {id} == t.pending;
    }
  }

  /** A fired timer leaves its request settled; an earlier settlement stands. */
  lemma TimerSettles(events: seq<Event>, t: Table, n: nat)
    requires Runs(Empty(), events, t) && n in t.timers
    ensures var u := Step(t, Timeout(n));
            n in u.settled && (n in t.settled ==> u.settled == t.settled)
  {
    hide Text;
    RunsKeep(Empty(), events, t);
    assert IsSplit(t, n);
  }

  // ----- one port at a time

  predicate OnePort(t: Table) {
    && t.open == (if t.port.Some? then {t.port.value} else {})
    && (forall id :: id in t.pending ==> t.pending[id] in t.via && t.port == Some(t.via[t.pending[id]]))
  }

  lemma StepKeepsOnePort(t: Table, e: Event)
    requires Inv(t) && CanHappen(t, e) && OnePort(t) && e != Forget
    ensures OnePort(Step(t, e))
  {
    hide Text, IsHostRequest;
    match e
    case Send(connects, posts) => SendKeepsOnePort(t, connects, posts);
    case Message(_) =>
    case Timeout(_) =>
    case Disconnect(_) =>
  }

  lemma SendKeepsOnePort(t: Table, connects: bool, posts: bool)
    requires Inv(t) && OnePort(t)
    ensures OnePort(Sent(t, connects, posts))
  {
    hide Text, IsSplit;
  }

  lemma {:induction false} RunsKeepOnePort(t: Table, events: seq<Event>, u: Table)
    requires Inv(t) && OnePort(t) && Runs(t, events, u) && Forget !in events
    ensures OnePort(u) && Inv(u)
    decreases |events|
  {
    hide Inv, OnePort, Step;
    if events != [] {
      StepKeeps(t, events[0]);
      StepKeepsOnePort(t, events[0]);
      RunsKeepOnePort(Step(t, events[0]), events[1..], u);
    }
  }

  /** While nobody stops the runtime, a disconnect fails the requests of its own port only. */
  lemma DisconnectFailsOwn(events: seq<Event>, t: Table, p: nat)
    requires Runs(Empty(), events, t) && Forget !in events && p in t.open
    ensures forall id :: id in t.rejected ==> t.rejected[id] in t.via && t.via[t.rejected[id]] == p
  {
    RunsKeepOnePort(Empty(), events, t);
  }

  // ----- several ports

  /** The current port and the port of every request in the table are still to disconnect. */
  predicate PortsOpen(t: Table) {
    && (t.port.Some? ==> t.port.value in t.open)
    && (forall p :: p in t.open ==> p < t.nextPort)
    && (forall id :: id in t.pending ==> t.pending[id] in t.via && t.via[t.pending[id]] in t.open)
  }

  lemma StepKeepsPorts(t: Table, e: Event)
    requires Inv(t) && CanHappen(t, e) && PortsOpen(t)
    ensures PortsOpen(Step(t, e))
  {
    hide Text, IsHostRequest, IsSplit;
    match e
    case Send(connects, posts) => SendKeepsPorts(t, connects, posts);
    case Message(_) =>
    case Timeout(_) =>
    case Disconnect(_) =>
    case Forget =>
  }

  lemma SendKeepsPorts(t: Table, connects: bool, posts: bool)
    requires Inv(t) && PortsOpen(t)
    ensures PortsOpen(Sent(t, connects, posts))
  {
    hide Text, IsSplit;
  }

  lemma {:induction false} RunsKeepPorts(t: Table, events: seq<Event>, u: Table)
    requires Inv(t) && PortsOpen(t) && Runs(t, events, u)
    ensures PortsOpen(u) && Inv(u)
    decreases |events|
  {
    hide Inv, PortsOpen, Step;
    if events != [] {
      StepKeeps(t, events[0]);
      StepKeepsPorts(t, events[0]);
      RunsKeepPorts(Step(t, events[0]), events[1..], u);
    }
  }

  /** The disconnect of port `p` fails request `n`. */
  predicate Fails(t: Table, p: nat, n: nat) {
    n !in t.settled && n in Lost(t, p).settled && Lost(t, p).settled[n] == Disconnected
  }

  lemma FailsIfPending(t: Table, p: nat, n: nat)
    requires Inv(t)
    ensures Fails(t, p, n) <==> Text(n) in t.pending && t.pending[Text(n)] == n
  {
    hide Text, IsSplit;
    if Fails(t, p, n) {
      var id :| id in t.rejected && t.rejected[id] == n;
    }
    if Text(n) in t.pending && t.pending[Text(n)] == n {
      assert n in t.rejected.Values;
    }
  }

  /** In every reachable table: each outstanding disconnect fails the requests of its own port only, exactly
      when there is nothing to fail or only one disconnect outstanding. */
  lemma DisconnectsFailOwnIff(events: seq<Event>, t: Table)
    requires Runs(Empty(), events, t)
    ensures (forall p, n :: p in t.open && Fails(t, p, n) ==> n in t.via && t.via[n] == p)
            <==> (t.pending.Keys == {} || |t.open| <= 1)
  {
    hide Text, Fails, Runs, IsSplit;
    RunsKeepPorts(Empty(), events, t);
    forall p: nat, n: nat ensures Fails(t, p, n) <==> Text(n) in t.pending && t.pending[Text(n)] == n {
      FailsIfPending(t, p, n);
    }
    if t.pending.Keys != {} {
      var id :| id in t.pending;
      var n := t.pending[id];
      if |t.open| <= 1 {
        forall p, m | p in t.open && Fails(t, p, m) ensures m in t.via && t.via[m] == p {
          OnlyOne(t.open, p, t.via[m]);
        }
      } else {
        var p := AnotherPort(t.open, t.via[n]);
        assert Fails(t, p, n);
      }
    }
  }

  lemma OnlyOne(s: set<nat>, a: nat, b: nat)
    requires |s| <= 1 && a in s && b in s
    ensures a == b
  {
    assert |s - {a}| == |s| - 1;
    assert b != a ==> b in s - {a};
  }

  lemma AnotherPort(s: set<nat>, a: nat) returns (b: nat)
    requires |s| > 1
    ensures b in s && b != a
  {
    var rest := s - {a};
    assert |rest| > 0;
    b :| b in rest;
  }

  /** A request posted now can be failed by the disconnect of another port exactly when some other port's
      disconnect is outstanding: on a fresh port, when any port was left behind. */
  lemma NewRequestExposedIff(events: seq<Event>, t: Table)
    requires Runs(Empty(), events, t)
    ensures var u, n := Sent(t, true, true), t.counter + 1;
            && n in u.via && u.port == Some(u.via[n])
            && ((exists p :: p in u.open && p != u.via[n] && Fails(u, p, n)) <==> exists p :: p in t.open && t.port != Some(p))
            && (t.port.None? ==> ((exists p :: p in u.open && p != u.via[n] && Fails(u, p, n)) <==> t.open != {}))
  {
    hide Text, Fails, Runs, IsSplit;
    RunsKeepPorts(Empty(), events, t);
    var u, n := Sent(t, true, true), t.counter + 1;
    SendKeeps(t, true, true);
    forall p: nat ensures Fails(u, p, n) {
      FailsIfPending(u, p, n);
    }
    if t.open != {} {
      var p :| p in t.open;
      assert p in u.open;
    }
  }

  /** `stop` drops its port without closing it, so the next start opens a second one; when the first port
      then goes, its handler fails the request of the second port and drops that port too. */
  lemma StalePortFailsNewRequests()
    ensures var events := [Send(true, true), Message(Some(Text(1))), Forget, Send(true, true), Disconnect(0)];
            exists t ::
              && Runs(Empty(), events, t)
              && 2 in t.settled && t.settled[2] == Disconnected
              && 2 in t.via && t.via[2] == 1 && 1 in t.open && t.port == None
  {
    hide Text, IsHostRequest, Runs, Sent, Received;
    var events := [Send(true, true), Message(Some(Text(1))), Forget, Send(true, true), Disconnect(0)];
    var t2, t4 := StartedTwice();
    var t5 := Lost(t4, 0);
    assert t4.rejected[Text(2)] == 2 && 2 in t4.rejected.Values;
    NoMoreEvents(t5);
    OneEvent(t4, events, 4, t5);
    OneEvent(t2.(port := None), events, 3, t5);
    OneEvent(t2, events, 2, t5);
    OneEvent(Sent(Empty(), true, true), events, 1, t5);
    OneEvent(Empty(), events, 0, t5);
    assert events[0..] == events;
  }

  lemma NoMoreEvents(t: Table)
    ensures Runs(t, [], t)
  {
  }

  lemma OneEvent(t: Table, events: seq<Event>, i: nat, u: Table)
    requires i < |events| && CanHappen(t, events[i]) && Runs(Step(t, events[i]), events[i + 1..], u)
    ensures Runs(t, events[i..], u)
  {
    assert events[i..][1..] == events[i + 1..];
  }

  lemma StartedTwice() returns (t2: Table, t4: Table)
    ensures t2 == Received(Sent(Empty(), true, true), Some(Text(1)))
    ensures t4 == Sent(t2.(port := None), true, true)
    ensures Text(2) in t4.rejected && t4.rejected[Text(2)] == 2 && 2 in t4.via && t4.via[2] == 1
    ensures t4.open == {0, 1} && 2 !in t4.settled
  {
    hide Text, IsHostRequest;
    IssuedIsNotHost(1);
    TextApart();
    t2 := Received(Sent(Empty(), true, true), Some(Text(1)));
    t4 := Sent(t2.(port := None), true, true);
  }

  lemma TextApart()
    ensures Text(1) != Text(2)
  {
    TextIsCanonical(1);
    TextIsCanonical(2);
  }

  // ----- the adapter

  /** A send, field by field. */
  lemma SentParts(t: Table, connects: bool, posts: bool)
    requires Inv(t)
    ensures t.port.None? && !connects ==> Sent(t, connects, posts) == t
    ensures Text(t.counter + 1) !in t.pending && t.pending == t.rejected && t.counter + 1 !in t.settled
    ensures t.port.Some? || connects ==>
              var c, n := Connected(t), t.counter + 1;
              c.port.Some? && Sent(t, connects, posts) ==
              c.(counter := n, via := t.via[n := c.port.value],
                 timers := if posts then t.timers + {n} else t.timers,
                 pending := if posts then t.pending[Text(n) := n] else t.pending,
                 rejected := if posts then t.rejected[Text(n) := n] else t.rejected,
                 settled := if posts then t.settled else t.settled[n := PostFailed])
  {
    hide Text, IsSplit;
    NextIdIsNew(t);
  }

  lemma SendsNew(t: Table, connects: bool, posts: bool)
    requires Inv(t)
    ensures var u, n := Sent(t, connects, posts), t.counter + 1;
            && Text(n) !in t.pending && n !in t.settled
            && (t.port.Some? || connects ==>
                  if posts then u.pending == t.pending[Text(n) := n] && n in u.timers && u.settled == t.settled
                  else u.pending == t.pending && u.settled == t.settled[n := PostFailed])
  {
    hide Text, IsSplit;
    NextIdIsNew(t);
  }

  lemma RepliesOnly(t: Table, requestId: Option<string>)
    requires Inv(t)
    ensures if requestId.Some? && requestId.value in t.pending
            then Received(t, requestId).settled == t.settled[t.pending[requestId.value] := Answered]
                 && Received(t, requestId).pending == t.pending - {requestId.value}
            else Received(t, requestId) == t
  {
    if requestId.Some? {
      if requestId.value in t.pending {
        IssuedIsNotHost(t.pending[requestId.value]);
      } else {
        assert t.pending - {requestId.value} == t.pending;
      }
    }
  }

  lemma TimedOutOnce(t: Table, n: nat)
    requires Inv(t) && n in t.timers
    ensures var u := Fired(t, n);
            && Text(n) !in u.pending
            && u.settled == if n in t.settled then t.settled else t.settled[n := TimedOut]
  {
    hide Text;
    assert IsSplit(t, n);
  }

  lemma OwnersInOrder(t: Table)
    requires Inv(t)
    ensures (set id | id in t.rejected && t.rejected[id] in t.settled) == {}
    ensures DistinctOwners(t.rejected, t.settled)
  {
    hide Text, IsSplit;
  }

  lemma AllSettled(t: Table, p: nat)
    requires Inv(t)
    ensures forall n :: 1 <= n <= t.counter ==> n in Lost(t, p).settled
    ensures forall n :: n in t.settled ==> n in Lost(t, p).settled && Lost(t, p).settled[n] == t.settled[n]
  {
    hide Text;
    DisconnectKeeps(t, p);
    forall n | 1 <= n <= t.counter ensures n in Lost(t, p).settled {
      assert IsSplit(Lost(t, p), n);
    }
  }

  lemma AddedThenRemoved(m: map<string, nat>, id: string, n: nat)
    requires id !in m
    ensures m[id := n] - {id} == m
  {
  }

  /** The requests behind the ids in `left` are still to be rejected. */
  predicate Rejecting(owners: map<string, nat>, left: set<string>, before: map<nat, Outcome>, settled: map<nat, Outcome>)
  {
    && left <= owners.Keys && DistinctOwners(owners, before)
    && (forall n :: n in before ==> n in settled && settled[n] == before[n])
    && (forall n :: n in settled && n !in before ==> settled[n] == Disconnected && n in owners.Values)
    && (forall id :: id in owners ==> (id in left <==> owners[id] !in settled))
  }

  lemma RejectingStep(owners: map<string, nat>, left: set<string>, before: map<nat, Outcome>,
                      settled: map<nat, Outcome>, id: string)
    requires Rejecting(owners, left, before, settled) && id in left
    ensures id in owners && owners[id] !in settled
    ensures Rejecting(owners, left - {id}, before, settled[owners[id] := Disconnected])
  {
  }

  lemma RejectingEnds(owners: map<string, nat>, before: map<nat, Outcome>)
    requires DistinctOwners(owners, before)
    ensures Rejecting(owners, owners.Keys, before, before)
    ensures forall settled :: Rejecting(owners, {}, before, settled) ==> settled == SettleAll(before, owners.Values)
  {
  }

  /** The closures of different ids settle different requests, none of them settled yet. */
  predicate DistinctOwners(owners: map<string, nat>, settled: map<nat, Outcome>) {
    && (forall id :: id in owners ==> owners[id] !in settled)
    && (forall id, other :: id in owners && other in owners && owners[id] == owners[other] ==> id == other)
  }

  class Adapter {
    var port: Option<nat>
    var nextPort: nat
    var open: set<nat>
    var counter: nat
    var pending: map<string, nat>
    var rejected: map<string, nat>
    var timers: set<nat>
    var settled: map<nat, Outcome>
    var repeats: nat
    var via: map<nat, nat>

    ghost function Now(): Table
      reads this
    {
      Table(port, nextPort, open, counter, pending, rejected, timers, settled, repeats, via)
    }

    constructor ()
      ensures Now() == Empty()
    {
      port, nextPort, open, counter, pending, rejected := None, 0, {}, 0, map[], map[];
      timers, settled, repeats, via := {}, map[], 0, map[];
    }

    method EnsurePort(connects: bool) returns (active: Option<nat>)
      modifies this`port, this`nextPort, this`open
      ensures active.None? <==> old(port).None? && !connects
      ensures Now() == if active.None? then old(Now()) else Connected(old(Now()))
      ensures active.Some? ==> port == active
    {
      if port.None? {
        if !connects {
          return None;
        }
        port := Some(nextPort);
        open := open + {nextPort};
        nextPort := nextPort + 1;
      }
      active := port;
    }

    /** Calls the stored closure of request `n`. */
    method SettleRequest(n: nat, how: Outcome)
      modifies this`settled, this`repeats
      ensures Now() == Settle(old(Now()), n, how)
    {
      if n in settled {
        repeats := repeats + 1;
      } else {
        settled := settled[n := how];
      }
    }

    ghost predicate Valid()
      reads this
    {
      Inv(Now())
    }

    /** A request gets an id that was never used. Posted, it waits under that id with a timer; refused by the
        port, it is settled at once. */
    method Send(connects: bool, posts: bool) returns (request: Option<nat>)
      requires Valid()
      modifies this
      ensures Valid() && Now() == Sent(old(Now()), connects, posts)
      ensures request.None? <==> old(port).None? && !connects
      ensures request.None? ==> Now() == old(Now())
      ensures request.Some? ==>
                && Text(request.value) !in old(pending) && request.value !in old(settled)
                && (if posts
                    then pending == old(pending)[Text(request.value) := request.value] && request.value in timers
                         && settled == old(settled)
                    else pending == old(pending) && settled == old(settled)[request.value := PostFailed])
      ensures request.Some? ==>
                && port == (if old(port).Some? then old(port) else Some(old(nextPort)))
                && open == (if old(port).Some? then old(open) else old(open) + {old(nextPort)})
                && via == old(via)[request.value := port.value]
    {
      hide Text, Inv, IsSplit, Sent;
      SendKeeps(Now(), connects, posts);
      SendsNew(Now(), connects, posts);
      SentParts(Now(), connects, posts);
      var active := EnsurePort(connects);
      if active.None? {
        return None;
      }
      counter := counter + 1;
      via := via[counter := active.value];
      request := Some(counter);
      Post(counter, Text(counter), posts);
    }

    /** The promise of a new request: both closures are stored, and taken out again when the port refuses. */
    method Post(n: nat, requestId: string, posts: bool)
      requires requestId !in pending && requestId !in rejected && n !in settled
      modifies this`pending, this`rejected, this`timers, this`settled, this`repeats
      ensures repeats == old(repeats)
      ensures pending == (if posts then old(pending)[requestId := n] else old(pending))
      ensures rejected == (if posts then old(rejected)[requestId := n] else old(rejected))
      ensures timers == (if posts then old(timers) + {n} else old(timers))
      ensures settled == (if posts then old(settled) else old(settled)[n := PostFailed])
    {
      pending := pending[requestId := n];
      rejected := rejected[requestId := n];
      if !posts {
        AddedThenRemoved(old(pending), requestId, n);
        AddedThenRemoved(old(rejected), requestId, n);
        pending := pending - {requestId};
        rejected := rejected - {requestId};
        SettleRequest(n, PostFailed);
        return;
      }
      timers := timers + {n};
    }

    /** A reply settles the waiting request of its id; any other message changes nothing. */
    method OnMessage(requestId: Option<string>)
      requires Valid()
      modifies this
      ensures Valid() && Now() == Received(old(Now()), requestId)
      ensures if requestId.Some? && requestId.value in old(pending)
              then settled == old(settled)[old(pending)[requestId.value] := Answered]
                   && pending == old(pending) - {requestId.value}
              else Now() == old(Now())
    {
      hide Text, Inv;
      MessageKeeps(Now(), requestId);
      RepliesOnly(Now(), requestId);
      if requestId.None? || "host-" <= requestId.value {
        return;
      }
      var id := requestId.value;
      var resolve := if id in pending then Some(pending[id]) else None;
      var reject := if id in rejected then Some(rejected[id]) else None;
      pending := pending - {id};
      rejected := rejected - {id};
      if resolve.Some? {
        SettleRequest(resolve.value, Answered);
      } else if reject.Some? {
        SettleRequest(reject.value, Unexpected);
      }
    }

    /** After its timer a request is settled and no longer waits; an earlier settlement stands. */
    method OnTimeout(n: nat)
      requires Valid() && n in timers
      modifies this
      ensures Valid() && Now() == Fired(old(Now()), n)
      ensures Text(n) !in pending
      ensures settled == if n in old(settled) then old(settled) else old(settled)[n := TimedOut]
    {
      hide Text, Inv;
      TimeoutKeeps(Now(), n);
      TimedOutOnce(Now(), n);
      timers := timers - {n};
      var requestId := Text(n);
      if requestId in pending {
        pending := pending - {requestId};
        rejected := rejected - {requestId};
        SettleRequest(n, TimedOut);
      }
    }

    /** On a table in order every closure left in `rejected` is called once. */
    method OnDisconnect(p: nat)
      requires Valid() && p in open
      modifies this
      ensures Valid() && Now() == Lost(old(Now()), p)
      ensures pending == map[] && forall n :: 1 <= n <= counter ==> n in settled
      ensures port == None && open == old(open) - {p}
      ensures forall n :: n in old(settled) ==> n in settled && settled[n] == old(settled)[n]
    {
      hide Text, Inv, DistinctOwners, SettleAll;
      DisconnectKeeps(Now(), p);
      AllSettled(Now(), p);
      OwnersInOrder(Now());
      port := None;
      open := open - {p};
      RejectAll();
      pending := map[];
      rejected := map[];
    }

    method RejectAll()
      requires DistinctOwners(rejected, settled)
      modifies this`settled, this`repeats
      ensures settled == SettleAll(old(settled), rejected.Values) && repeats == old(repeats)
    {
      hide DistinctOwners, Rejecting, SettleAll;
      RejectingEnds(rejected, settled);
      var left := rejected.Keys;
      while left != {}
        invariant repeats == old(repeats) && Rejecting(rejected, left, old(settled), settled)
        decreases |left|
      {
        var id :| id in left;
        RejectingStep(rejected, left, old(settled), settled, id);
        SettleRequest(rejected[id], Disconnected);
        left := left - {id};
      }
    }

    /** The last lines of `stop`: the port is dropped, not closed. */
    method ForgetPort()
      modifies this`port
      ensures Now() == Step(old(Now()), Forget)
    {
      port := None;
    }
  }
}
