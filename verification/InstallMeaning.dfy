/** What an install plans, what it leaves behind and what a start recovers, said of the operations, the refused
    calls and the world before (`packages/extension/src/dnr.ts:149-472`). */
module InstallMeaning {
  import opened Options
  import opened Listing
  import opened MatchIndex
  import opened RuleIds
  import opened DnrInstaller
  import opened InstallTheorems

  // ----- ids

  /** The base-31 number of the text wrapped to 32 bits, its sign dropped, into 1 to 1000000. */
  lemma IdFromBase31(ruleId: string) returns (wrapped: int, turns: int)
    ensures -0x8000_0000 <= wrapped < 0x8000_0000 && wrapped == Base31(ruleId) + turns * 0x1_0000_0000
    ensures RuleIdHash(ruleId) == (if wrapped < 0 then -wrapped else wrapped) % 1_000_000 + 1
  {
    HashIsWrappedBase31(ruleId);
    wrapped := ToInt32(Base31(ruleId));
    var k := WrapApart(Base31(ruleId));
    turns := -k;
  }

  lemma {:induction false} Base31Means(text: string, c: char)
    ensures Base31("") == 0 && Base31(text + [c]) == Base31(text) * 31 + c as int
  {
    assert (text + [c])[..|text|] == text;
  }

  lemma HashOfA()
    ensures RuleIdHash("a") == 98
  {
    assert "a"[..0] == "";
    assert Hash32("a") == ToInt32(97) == 97;
  }

  /** The first id that is free from `start` on, going round once after 1000000. */
  ghost predicate FreeFrom(start: int, used: set<int>, id: int) {
    && 1 <= id <= 1_000_000 && id !in used
    && (if start <= id then forall j :: start <= j < id ==> j in used
        else (forall j :: start <= j <= 1_000_000 ==> j in used) && forall j :: 1 <= j < id ==> j in used)
  }

  lemma SlotFrom(start: int, k: nat)
    requires 1 <= start <= 1_000_000 && k < 1_000_000
    ensures Slot(start, k) == if start + k <= 1_000_000 then start + k else start + k - 1_000_000
  {
  }

  lemma FreeIdMeans(start: int, used: set<int>)
    requires 1 <= start <= 1_000_000 && |used| < 1_000_000
    ensures FreeFrom(start, used, FirstFree(start, used, 0))
  {
    hide Slot, FirstFree;
    FirstSlot(start, used);
    var id := FirstFree(start, used, 0);
    var n: nat :| id == Slot(start, n) && AllUsed(start, used, n);
    if n >= 1_000_000 {
      assert AllUsed(start, used, 1_000_000);
      ProbeFindsRoom(start, used, 1_000_000);
    }
    SlotFrom(start, n);
    var last := if start <= id then id else 1_000_001;
    forall j | start <= j < last ensures j in used {
      SlotFrom(start, j - start);
    }
    if id < start {
      forall j | 1 <= j < id ensures j in used {
        SlotFrom(start, j + 1_000_000 - start);
      }
    }
  }

  // ----- the plan

  predicate Installable(op: Operation) { op.kind == Redirect || (op.kind == Query && !op.dynamic) }

  predicate HeaderDue(op: Operation) { op.kind == Header && !op.dynamic }

  function Ids(plan: seq<Planned>): set<int> { set i | 0 <= i < |plan| :: plan[i].id }

  /** Each operation on the first free id after its hash. */
  ghost predicate Placed(ops: seq<Operation>, plan: seq<Planned>) {
    && |plan| == |ops|
    && forall i :: 0 <= i < |plan| ==>
         plan[i].op == ops[i] && FreeFrom(RuleIdHash(ops[i].ruleId), Ids(plan[..i]), plan[i].id)
  }

  function Projectable(headers: seq<Operation>): nat -> bool { (k: nat) => k < |headers| && headers[k].projectable }

  /** The projectable ones, each on the id its position among all headers gives it. */
  ghost predicate HeadersPlaced(headers: seq<Operation>, plan: seq<Planned>) {
    exists at: seq<nat> :: Lists(|headers|, Projectable(headers), at) && HeadersAt(headers, at, plan)
  }

  predicate HeadersAt(headers: seq<Operation>, at: seq<nat>, plan: seq<Planned>) {
    |plan| == |at| && forall k :: 0 <= k < |at| ==> at[k] < |headers| && plan[k] == Planned(2_000_001 + at[k], headers[at[k]])
  }

  /** Redirects and fixed-value queries in order, then the projectable fixed-value headers in order. */
  ghost predicate PlanOf(ops: seq<Operation>, plan: seq<Planned>) {
    exists front: seq<Planned>, back: seq<Planned>, installable: seq<Operation>, headers: seq<Operation> ::
      IsPlan(ops, plan, front, back, installable, headers)
  }

  ghost predicate IsPlan(ops: seq<Operation>, plan: seq<Planned>, front: seq<Planned>, back: seq<Planned>,
                         installable: seq<Operation>, headers: seq<Operation>)
  {
    && plan == front + back
    && Chosen(ops, Installable, installable) && Placed(installable, front)
    && Chosen(ops, HeaderDue, headers) && HeadersPlaced(headers, back)
  }

  lemma {:induction false} DesiredIds(plan: seq<Planned>)
    ensures Desired(plan).Keys == Ids(plan)
    decreases |plan|
  {
    hide Ids;
    if plan == [] {
      NoIds();
    } else {
      var n := |plan| - 1;
      DesiredIds(plan[..n]);
      IdsMore(plan[..n], plan[n]);
      assert plan[..n] + [plan[n]] == plan;
    }
  }

  lemma NoIds()
    ensures Ids([]) == {}
  {
  }

  lemma IdsMore(plan: seq<Planned>, p: Planned)
    ensures Ids(plan + [p]) == Ids(plan) + {p.id}
  {
    assert forall i :: 0 <= i < |plan| ==> (plan + [p])[i] == plan[i];
    assert (plan + [p])[|plan|] == p;
  }

  lemma PlacedMore(ops: seq<Operation>, plan: seq<Planned>, p: Planned)
    requires Placed(ops, plan) && FreeFrom(RuleIdHash(p.op.ruleId), Ids(plan), p.id)
    ensures Placed(ops + [p.op], plan + [p])
  {
    hide FreeFrom, RuleIdHash, Ids;
    forall i | 0 <= i < |plan| + 1
      ensures (plan + [p])[..i] == if i < |plan| then plan[..i] else plan
    {
    }
  }

  lemma {:induction false} PlaceMeans(ops: seq<Operation>) returns (installable: seq<Operation>)
    requires |ops| <= REDIRECT_QUERY_ID_MAX
    ensures Chosen(ops, Installable, installable) && Placed(installable, Place(ops))
    decreases |ops|
  {
    hide Chosen, FreeFrom, RuleIdHash, FirstFree, Desired, Ids;
    if ops == [] {
      installable := [];
      NoneChosen(Installable);
    } else {
      var n := |ops| - 1;
      var op, rest := ops[n], Place(ops[..n]);
      var front := PlaceMeans(ops[..n]);
      ChosenMore(ops[..n], Installable, front, op);
      assert ops[..n] + [op] == ops;
      installable := front + if Installable(op) then [op] else [];
      if Installable(op) {
        DesiredIds(rest);
        FreeIdMeans(RuleIdHash(op.ruleId), Desired(rest).Keys);
        PlacedMore(front, rest, Planned(FirstFree(RuleIdHash(op.ruleId), Desired(rest).Keys, 0), op));
      }
    }
  }

  lemma {:induction false} HeadersMean(headers: seq<Operation>)
    ensures HeadersPlaced(headers, HeaderPlan(headers))
    decreases |headers|
  {
    hide Lists, HeadersAt, HeaderPlan;
    if headers == [] {
      NoHeaders();
    } else {
      var n := |headers| - 1;
      HeadersMean(headers[..n]);
      var at: seq<nat> :| Lists(n, Projectable(headers[..n]), at) && HeadersAt(headers[..n], at, HeaderPlan(headers[..n]));
      SameDue(n, Projectable(headers[..n]), Projectable(headers), at);
      ListsMore(n, Projectable(headers), at);
      OneMoreHeader(headers, at);
    }
  }

  lemma NoHeaders()
    ensures HeadersPlaced([], HeaderPlan([]))
  {
    assert Lists(0, Projectable([]), []) && HeadersAt([], [], []);
  }

  lemma OneMoreHeader(headers: seq<Operation>, at: seq<nat>)
    requires headers != []
    requires var n := |headers| - 1; HeadersAt(headers[..n], at, HeaderPlan(headers[..n]))
    ensures var n := |headers| - 1; HeadersAt(headers, at + if headers[n].projectable then [n] else [], HeaderPlan(headers))
  {
    hide HeadersAt, HeaderPlan;
    HeaderUnfold(headers);
    var n := |headers| - 1;
    var front, last, plan := headers[..n], headers[n], HeaderPlan(headers[..n]);
    assert front + [last] == headers && plan + [] == plan && at + [] == at;
    if last.projectable {
      AtOneMore(front, last, at, plan);
    } else {
      AtAsBefore(front, last, at, plan);
    }
  }

  lemma HeaderUnfold(headers: seq<Operation>)
    requires headers != []
    ensures var n := |headers| - 1;
            HeaderPlan(headers)
            == HeaderPlan(headers[..n]) + if headers[n].projectable then [Planned(2_000_001 + n, headers[n])] else []
  {
  }

  lemma AtOneMore(front: seq<Operation>, last: Operation, at: seq<nat>, plan: seq<Planned>)
    requires HeadersAt(front, at, plan)
    ensures HeadersAt(front + [last], at + [|front|], plan + [Planned(2_000_001 + |front|, last)])
  {
  }

  lemma AtAsBefore(front: seq<Operation>, last: Operation, at: seq<nat>, plan: seq<Planned>)
    requires HeadersAt(front, at, plan)
    ensures HeadersAt(front + [last], at, plan)
  {
  }

  lemma NothingListed(due: nat -> bool)
    ensures Lists(0, due, [])
  {
  }

  lemma {:induction false} SelectedMeans(ops: seq<Operation>)
    ensures Chosen(ops, HeaderDue, Selected(ops, IsHeader))
    decreases |ops|
  {
    hide Chosen;
    if ops == [] {
      NoneChosen(HeaderDue);
    } else {
      var n := |ops| - 1;
      SelectedMeans(ops[..n]);
      ChosenMore(ops[..n], HeaderDue, Selected(ops[..n], IsHeader), ops[n]);
      assert ops[..n] + [ops[n]] == ops;
    }
  }

  lemma PlanIsMeant(ops: seq<Operation>)
    requires |ops| <= REDIRECT_QUERY_ID_MAX
    ensures PlanOf(ops, Plan(ops))
  {
    hide Chosen, Placed, HeadersPlaced, Place, HeaderPlan, Selected;
    var installable := PlaceMeans(ops);
    SelectedMeans(ops);
    HeadersMean(Selected(ops, IsHeader));
    assert IsPlan(ops, Plan(ops), Place(ops), HeaderPlan(Selected(ops, IsHeader)), installable, Selected(ops, IsHeader));
  }

  /** An install throws exactly for a redirect or fixed-value query without a browser form; it has read the
      operations before the first such. */
  lemma {:induction false} ReadableMeans(ops: seq<Operation>) returns (k: nat)
    ensures k <= |ops| && Readable(ops) == ops[..k]
    ensures forall i :: 0 <= i < k ==> !(Installable(ops[i]) && !ops[i].projectable)
    ensures k < |ops| ==> Installable(ops[k]) && !ops[k].projectable
  {
    k := 0;
    while k < |ops| && !Blocks(ops[k])
      invariant k <= |ops| && forall j :: 0 <= j < k ==> !Blocks(ops[j])
    {
      k := k + 1;
    }
    ReadableUpTo(ops, k);
  }

  // ----- one install

  /** Live, in one of the two owned bands, and not planned. */
  ghost predicate Orphaned(w: World, plan: seq<Planned>, id: int) {
    id in w.rules && (1 <= id <= 1_000_000 || id >= 2_000_001) && id !in Ids(plan)
  }

  ghost predicate AnyOrphan(w: World, plan: seq<Planned>) { exists id :: Orphaned(w, plan, id) }

  /** One call reads the live ids, one removes orphans if there are any, then comes one per planned rule. */
  ghost function UpdateCall(w: World, plan: seq<Planned>, i: nat): nat {
    w.calls + 1 + (if AnyOrphan(w, plan) then 1 else 0) + i
  }

  ghost predicate Writes(w: World, ops: seq<Operation>, plan: seq<Planned>, refuses: Refusals) {
    ops == [] || AnyOrphan(w, plan) || exists i: nat :: i < |plan| && !refuses(UpdateCall(w, plan, i))
  }

  predicate SameRule(w: World, after: World, id: int) {
    (id in after.rules <==> id in w.rules) && (id in w.rules ==> after.rules[id] == w.rules[id])
  }

  ghost predicate RulesAfter(w: World, plan: seq<Planned>, refuses: Refusals, after: World) {
    && (forall i: nat :: i < |plan| ==>
          if refuses(UpdateCall(w, plan, i)) then plan[i].id !in after.tracked && SameRule(w, after, plan[i].id)
          else
            && plan[i].id in after.tracked && after.tracked[plan[i].id] == plan[i].op
            && plan[i].id in after.rules && after.rules[plan[i].id] == Ours(plan[i].op))
    && (forall id :: id !in Ids(plan) ==>
          && id !in after.tracked
          && (if Orphaned(w, plan, id) && !refuses(w.calls + 1) then id !in after.rules else SameRule(w, after, id)))
  }

  function DynamicDue(ops: seq<Operation>): nat -> bool {
    (i: nat) => i < |ops| && (ops[i].kind == Query || ops[i].kind == Header) && ops[i].dynamic
  }

  function RefusedDue(refuses: Refusals, from: nat): nat -> bool { (i: nat) => refuses(from + i) }

  /** The dynamic values in order, then the refused rules in order. */
  ghost predicate ErrorsAre(ops: seq<Operation>, plan: seq<Planned>, refuses: Refusals, from: nat, errors: seq<InstallError>) {
    exists at: seq<nat>, bt: seq<nat> ::
      Lists(|ops|, DynamicDue(ops), at) && Lists(|plan|, RefusedDue(refuses, from), bt) && ErrorsAt(ops, plan, at, bt, errors)
  }

  predicate ErrorsAt(ops: seq<Operation>, plan: seq<Planned>, at: seq<nat>, bt: seq<nat>, errors: seq<InstallError>) {
    && |errors| == |at| + |bt|
    && (forall k :: 0 <= k < |at| ==> at[k] < |ops| && errors[k] == DynamicValue(ops[at[k]].ruleId))
    && (forall k :: 0 <= k < |bt| ==> bt[k] < |plan| && errors[|at| + k] == Refused(plan[bt[k]].op.ruleId))
  }

  /** Outside the two session bands the tracked operations and nothing else; inside, what the index read there, if
      the read went through and the entry is of the band's kind. */
  ghost predicate IndexAfter(san: Sanitizer, w: World, read: bool, after: World) {
    && (forall id :: !(3_000_001 <= id <= 4_000_000) && !(5_000_001 <= id <= 6_000_000) ==>
          && (id in after.index <==> id in after.tracked)
          && (id in after.index ==> id in after.tracked && after.index[id] == san(AsEntry(after.tracked[id]))))
    && (forall id :: 3_000_001 <= id <= 4_000_000 || 5_000_001 <= id <= 6_000_000 ==>
          && (id in after.index <==> read && id in w.index && Belongs(id, w.index[id].kind))
          && (id in after.index ==> id in w.index && after.index[id] == san(w.index[id])))
  }

  predicate Belongs(id: int, kind: Kind) {
    if id <= 4_000_000 then kind == RequestBody || kind == ResponseBody else kind == Mock && id != 6_000_000
  }

  ghost predicate InstallEffect(san: Sanitizer, w: World, ops: seq<Operation>, refuses: Refusals, plan: seq<Planned>,
                                after: World)
  {
    var read := UpdateCall(w, plan, |plan|);
    && PlanOf(ops, plan)
    && RulesAfter(w, plan, refuses, after)
    && ErrorsAre(ops, plan, refuses, UpdateCall(w, plan, 0), after.errors)
    && (if Writes(w, ops, plan, refuses) && !refuses(read + 1) then IndexAfter(san, w, !refuses(read), after)
        else after.index == w.index)
    && after.calls == read + (if Writes(w, ops, plan, refuses) then 2 else 0)
  }

  lemma OrphansMean(w: World, plan: seq<Planned>)
    ensures forall id :: id in Orphans(w.rules, plan) <==> Orphaned(w, plan, id)
    ensures Orphans(w.rules, plan) != {} <==> AnyOrphan(w, plan)
    ensures FirstUpdate(w, plan) == UpdateCall(w, plan, 0)
  {
    hide Desired, Ids;
    DesiredIds(plan);
    if Orphans(w.rules, plan) != {} {
      var id :| id in Orphans(w.rules, plan);
      assert Orphaned(w, plan, id);
    }
  }

  lemma {:induction false} DynamicErrorsMean(ops: seq<Operation>) returns (at: seq<nat>)
    ensures Lists(|ops|, DynamicDue(ops), at) && |DynamicErrors(ops)| == |at|
    ensures forall k :: 0 <= k < |at| ==> at[k] < |ops| && DynamicErrors(ops)[k] == DynamicValue(ops[at[k]].ruleId)
    decreases |ops|
  {
    hide Lists, DynamicErrors;
    DynamicUnfold(ops);
    if ops == [] {
      at := [];
      NothingListed(DynamicDue([]));
    } else {
      var n := |ops| - 1;
      at := DynamicErrorsMean(ops[..n]);
      SameDue(n, DynamicDue(ops[..n]), DynamicDue(ops), at);
      ListsMore(n, DynamicDue(ops), at);
      at := at + if DynamicDue(ops)(n) then [n] else [];
    }
  }

  lemma DynamicUnfold(ops: seq<Operation>)
    ensures ops == [] ==> DynamicErrors(ops) == []
    ensures ops != [] ==>
              var n := |ops| - 1;
              DynamicErrors(ops)
              == DynamicErrors(ops[..n]) + if DynamicDue(ops)(n) then [DynamicValue(ops[n].ruleId)] else []
  {
  }

  lemma {:induction false} RefusedErrorsMean(plan: seq<Planned>, refuses: Refusals, from: nat) returns (bt: seq<nat>)
    ensures Lists(|plan|, RefusedDue(refuses, from), bt) && |RefusedErrors(plan, refuses, from)| == |bt|
    ensures forall k :: 0 <= k < |bt| ==>
              bt[k] < |plan| && RefusedErrors(plan, refuses, from)[k] == Refused(plan[bt[k]].op.ruleId)
    decreases |plan|
  {
    hide Lists;
    if plan == [] {
      bt := [];
      NothingListed(RefusedDue(refuses, from));
    } else {
      var n := |plan| - 1;
      bt := RefusedErrorsMean(plan[..n], refuses, from);
      ListsMore(n, RefusedDue(refuses, from), bt);
      bt := bt + if refuses(from + n) then [n] else [];
    }
  }

  lemma ErrorsMean(ops: seq<Operation>, plan: seq<Planned>, refuses: Refusals, from: nat)
    ensures ErrorsAre(ops, plan, refuses, from, DynamicErrors(ops) + RefusedErrors(plan, refuses, from))
  {
    hide Lists, DynamicErrors, RefusedErrors;
    var at := DynamicErrorsMean(ops);
    var bt := RefusedErrorsMean(plan, refuses, from);
    assert ErrorsAt(ops, plan, at, bt, DynamicErrors(ops) + RefusedErrors(plan, refuses, from));
  }

  lemma RulesMean(san: Sanitizer, w: World, ops: seq<Operation>, refuses: Refusals)
    requires |ops| <= REDIRECT_QUERY_ID_MAX
    ensures RulesAfter(w, Plan(ops), refuses, Installed(san, w, ops, refuses))
  {
    hide Plan, Distinct, Desired, DnrInstaller.Kept, RefusedErrors, DynamicErrors, Reindexed, Orphans, Live, Installed, Ids,
         Orphaned, AnyOrphan, SameRule;
    var plan, after := Plan(ops), Installed(san, w, ops, refuses);
    var from := FirstUpdate(w, plan);
    OrphansMean(w, plan);
    DesiredIds(plan);
    forall i: nat | i < |plan|
      ensures if refuses(UpdateCall(w, plan, i)) then plan[i].id !in after.tracked && SameRule(w, after, plan[i].id)
              else
                && plan[i].id in after.tracked && after.tracked[plan[i].id] == plan[i].op
                && plan[i].id in after.rules && after.rules[plan[i].id] == Ours(plan[i].op)
    {
      PlannedRule(san, w, ops, refuses, i);
    }
    forall id | id !in Ids(plan)
      ensures id !in after.tracked
      ensures if Orphaned(w, plan, id) && !refuses(w.calls + 1) then id !in after.rules else SameRule(w, after, id)
    {
      UnplannedRule(san, w, ops, refuses, id);
    }
  }

  lemma PlannedRule(san: Sanitizer, w: World, ops: seq<Operation>, refuses: Refusals, i: nat)
    requires |ops| <= REDIRECT_QUERY_ID_MAX && i < |Plan(ops)|
    ensures var p, after := Plan(ops)[i], Installed(san, w, ops, refuses);
            if refuses(FirstUpdate(w, Plan(ops)) + i) then p.id !in after.tracked && SameRule(w, after, p.id)
            else p.id in after.tracked && after.tracked[p.id] == p.op && p.id in after.rules && after.rules[p.id] == Ours(p.op)
  {
    hide Plan, Distinct, Desired, DnrInstaller.Kept, RefusedErrors, DynamicErrors, Reindexed, Orphans, Live, Installed;
    EachRuleOnItsOwn(san, w, ops, refuses, i);
    TrackedIsLive(san, w, ops, refuses);
  }

  lemma UnplannedRule(san: Sanitizer, w: World, ops: seq<Operation>, refuses: Refusals, id: int)
    requires |ops| <= REDIRECT_QUERY_ID_MAX && id !in Desired(Plan(ops))
    ensures var after := Installed(san, w, ops, refuses);
            && id !in after.tracked
            && (if id in Orphans(w.rules, Plan(ops)) && !refuses(w.calls + 1) then id !in after.rules else SameRule(w, after, id))
  {
    hide Plan, Desired, DnrInstaller.Kept, RefusedErrors, DynamicErrors, Reindexed, Orphans, Live, FirstUpdate, Installed,
         IsOwned, SameRule, Distinct;
    var plan := Plan(ops);
    InstalledParts(san, w, ops, refuses);
    DesiredOwned(ops);
    KeptIsDesired(plan, refuses, FirstUpdate(w, plan));
    var kept := DnrInstaller.Kept(plan, refuses, FirstUpdate(w, plan));
    NotKept(w, Orphans(w.rules, plan), kept, refuses(w.calls + 1), Installed(san, w, ops, refuses), id);
  }

  lemma InstalledParts(san: Sanitizer, w: World, ops: seq<Operation>, refuses: Refusals)
    requires |ops| <= REDIRECT_QUERY_ID_MAX
    ensures var plan, after := Plan(ops), Installed(san, w, ops, refuses);
            && after.tracked == DnrInstaller.Kept(plan, refuses, FirstUpdate(w, plan))
            && after.rules
               == (if refuses(w.calls + 1) then w.rules else w.rules - Orphans(w.rules, plan)) + Live(after.tracked)
  {
    hide Plan, Desired, DnrInstaller.Kept, RefusedErrors, DynamicErrors, Reindexed, Orphans, Live, FirstUpdate;
  }

  lemma NotKept(w: World, orphans: set<int>, kept: map<int, Operation>, refused: bool, after: World, id: int)
    requires id !in kept && after.rules == (if refused then w.rules else w.rules - orphans) + Live(kept)
    ensures if id in orphans && !refused then id !in after.rules else SameRule(w, after, id)
  {
    assert id !in Live(kept);
  }

  /** The index as one write leaves it. */
  lemma WholesaleMeans(san: Sanitizer, w: World, read: bool, tracked: map<int, Operation>, after: World)
    requires after.tracked == tracked && after.index == Sanitized(san, Wholesale(if read then w.index else map[], tracked))
    requires forall id :: id in tracked ==> IsDynamicId(id) && IsDynamicKind(tracked[id].kind)
    ensures IndexAfter(san, w, read, after)
  {
  }

  lemma TrackedKinds(san: Sanitizer, w: World, ops: seq<Operation>, refuses: Refusals)
    requires |ops| <= REDIRECT_QUERY_ID_MAX
    ensures var tracked := Installed(san, w, ops, refuses).tracked;
            forall id :: id in tracked ==> IsDynamicId(id) && IsDynamicKind(tracked[id].kind)
  {
    hide Plan, Distinct, Desired, Installed, Ops, Selected;
    TrackedIsLive(san, w, ops, refuses);
    PlanMeaning(ops);
    DesiredCompiled(ops);
  }

  lemma WritesMeans(san: Sanitizer, w: World, ops: seq<Operation>, refuses: Refusals)
    requires |ops| <= REDIRECT_QUERY_ID_MAX
    ensures var plan := Plan(ops);
            Writes(w, ops, plan, refuses) <==>
            Installed(san, w, ops, refuses).tracked != map[] || Orphans(w.rules, plan) != {} || ops == []
  {
    hide Plan, Distinct, Desired, Installed, Orphans, AnyOrphan, Ids;
    var plan, after := Plan(ops), Installed(san, w, ops, refuses);
    OrphansMean(w, plan);
    forall i: nat | i < |plan| ensures !refuses(UpdateCall(w, plan, i)) ==> plan[i].id in after.tracked {
      PlannedRule(san, w, ops, refuses, i);
    }
    if forall i: nat :: i < |plan| ==> refuses(UpdateCall(w, plan, i)) {
      forall n | UpdateCall(w, plan, 0) <= n < UpdateCall(w, plan, 0) + |plan| ensures refuses(n) {
        assert refuses(UpdateCall(w, plan, n - UpdateCall(w, plan, 0)));
      }
      KeptNothing(plan, refuses, FirstUpdate(w, plan));
      InstalledParts(san, w, ops, refuses);
    }
  }

  /** Every install that got as far as the browser's rules, for every pattern of refused calls. */
  lemma InstallHasEffect(san: Sanitizer, w: World, ops: seq<Operation>, refuses: Refusals)
    requires |ops| <= REDIRECT_QUERY_ID_MAX
    ensures InstallEffect(san, w, ops, refuses, Plan(ops), Installed(san, w, ops, refuses))
  {
    hide Plan, PlanOf, DnrInstaller.Kept, RefusedErrors, DynamicErrors, ErrorsAre, RulesAfter, Orphans, AnyOrphan, Live,
         WithoutOrphans, Writes, IndexAfter, Wholesale, Sanitized;
    var plan, after := Plan(ops), Installed(san, w, ops, refuses);
    PlanIsMeant(ops);
    OrphansMean(w, plan);
    RulesMean(san, w, ops, refuses);
    ErrorsMean(ops, plan, refuses, FirstUpdate(w, plan));
    WritesMeans(san, w, ops, refuses);
    TrackedKinds(san, w, ops, refuses);
    if Writes(w, ops, plan, refuses) && !refuses(UpdateCall(w, plan, |plan|) + 1) {
      WholesaleMeans(san, w, !refuses(UpdateCall(w, plan, |plan|)), after.tracked, after);
    }
  }

  // ----- a start with a cold band

  ghost predicate RecoveredAs(ops: seq<Operation>, live: set<int>, index: Index, redirectQuery: bool, header: bool, id: int,
                              op: Operation)
  {
    && id in live && id in index && op in ops && op.ruleId == index[id].ruleId && op.kind == index[id].kind
    && ((redirectQuery && 1 <= id <= 1_000_000 && (op.kind == Redirect || op.kind == Query))
        || (header && id >= 2_000_001 && op.kind == Header))
  }

  /** An operation is recovered for an id exactly if the id is live, its index entry names the operation's rule and
      kind, and its band is cold. */
  lemma HydratedMeans(ops: seq<Operation>, live: set<int>, index: Index, redirectQuery: bool, header: bool)
    requires DistinctRuleIds(ops)
    ensures var r := Hydrated(live, index, ByRuleId(ops), redirectQuery, header);
            forall id, op :: (id in r && r[id] == op) <==> RecoveredAs(ops, live, index, redirectQuery, header, id, op)
  {
    hide ByRuleId, DistinctRuleIds;
    ByRuleIdOnly(ops);
    forall op | op in ops && IsDynamicKind(op.kind) ensures op.ruleId in ByRuleId(ops) && ByRuleId(ops)[op.ruleId] == op {
      ByRuleIdFinds(ops, op);
    }
  }

  lemma {:induction false} ByRuleIdOnly(ops: seq<Operation>)
    ensures forall ruleId :: ruleId in ByRuleId(ops) ==>
              ByRuleId(ops)[ruleId] in ops && ByRuleId(ops)[ruleId].ruleId == ruleId && IsDynamicKind(ByRuleId(ops)[ruleId].kind)
    decreases |ops|
  {
    if ops != [] {
      ByRuleIdOnly(ops[..|ops| - 1]);
    }
  }
}
