/** `packages/extension/src/dnr.ts:149-171,306-369`: which browser rule ids an install asks for. Redirect
    and query rules hash their rule id and probe onwards, wrapping round; header rules count upwards. */
module RuleIds {
  import opened MatchIndex

  /** A browser rule the installer means to add: the id and the operation it carries. */
  datatype Planned = Planned(id: int, op: Operation)

  // ----- the hash

  /** Conversion to a signed 32-bit integer. */
  function ToInt32(x: int): (r: int)
    ensures -0x8000_0000 <= r < 0x8000_0000
  {
    var m := x % 0x1_0000_0000;
    if m >= 0x8000_0000 then m - 0x1_0000_0000 else m
  }

  function Hash32(text: string): int {
    if text == "" then 0
    else ToInt32(Hash32(text[..|text| - 1]) * 31 + text[|text| - 1] as int)
  }

  function Abs(x: int): int { if x < 0 then -x else x }

  function RuleIdHash(ruleId: string): (id: int)
    ensures 1 <= id <= REDIRECT_QUERY_ID_MAX
  {
    Abs(Hash32(ruleId)) % REDIRECT_QUERY_ID_MAX + 1
  }

  method HashRuleId(ruleId: string) returns (id: int)
    ensures id == RuleIdHash(ruleId)
  {
    var hash := 0;
    for i := 0 to |ruleId|
      invariant hash == Hash32(ruleId[..i])
    {
      hash := ToInt32(hash * 31 + ruleId[i] as int);
      assert ruleId[..i + 1][..i] == ruleId[..i];
    }
    assert ruleId[..|ruleId|] == ruleId;
    id := Abs(hash) % REDIRECT_QUERY_ID_MAX + 1;
  }

  /** The text read as a number in base 31, without any width. */
  function Base31(text: string): int {
    if text == "" then 0 else Base31(text[..|text| - 1]) * 31 + text[|text| - 1] as int
  }

  lemma WrapModulo(x: int, y: int)
    requires exists k: int :: x == y + k * 0x1_0000_0000
    ensures ToInt32(x) == ToInt32(y)
  {
    var k :| x == y + k * 0x1_0000_0000;
    var a, b := x / 0x1_0000_0000, y / 0x1_0000_0000;
    assert x % 0x1_0000_0000 - y % 0x1_0000_0000 == (k + b - a) * 0x1_0000_0000;
  }

  lemma WrapApart(x: int) returns (k: int)
    ensures x == ToInt32(x) + k * 0x1_0000_0000
  {
    k := x / 0x1_0000_0000;
    if x % 0x1_0000_0000 >= 0x8000_0000 {
      k := k + 1;
    }
  }

  /** Wrapping at every character comes to wrapping the whole base-31 number once. */
  lemma {:induction false} HashIsWrappedBase31(text: string)
    ensures Hash32(text) == ToInt32(Base31(text))
    decreases |text|
  {
    if text != "" {
      var front, c := text[..|text| - 1], text[|text| - 1] as int;
      HashIsWrappedBase31(front);
      var k := WrapApart(Base31(front));
      assert Base31(text) == Hash32(front) * 31 + c + (31 * k) * 0x1_0000_0000;
      WrapModulo(Base31(text), Hash32(front) * 31 + c);
    }
  }

  // ----- the probe

  /** The id `k` steps after `start`, wrapping round. */
  function Slot(start: int, k: nat): (id: int)
    ensures 1 <= id <= REDIRECT_QUERY_ID_MAX
  {
    (start - 1 + k) % REDIRECT_QUERY_ID_MAX + 1
  }

  ghost predicate AllUsed(start: int, used: set<int>, k: nat) {
    forall j: nat :: j < k ==> Slot(start, j) in used
  }

  /** Fewer than a million used ids cannot fill a million steps. */
  lemma ProbeFindsRoom(start: int, used: set<int>, k: nat)
    requires |used| < REDIRECT_QUERY_ID_MAX && k <= REDIRECT_QUERY_ID_MAX && AllUsed(start, used, k)
    ensures k < REDIRECT_QUERY_ID_MAX
  {
    SlotsCounted(start, used, k);
  }

  lemma SlotsDiffer(start: int, i: nat, j: nat)
    requires i < j < REDIRECT_QUERY_ID_MAX
    ensures Slot(start, i) != Slot(start, j)
  {
    var m := REDIRECT_QUERY_ID_MAX;
    var a, b := start - 1 + i, start - 1 + j;
    assert a == m * (a / m) + a % m && b == m * (b / m) + b % m;
    assert b % m - a % m == (j - i) - m * (b / m - a / m);
  }

  lemma {:induction false} SlotsCounted(start: int, used: set<int>, k: nat)
    requires k <= REDIRECT_QUERY_ID_MAX && AllUsed(start, used, k)
    ensures |used| >= k
  {
    if k > 0 {
      var last := Slot(start, k - 1);
      forall j: nat | j < k - 1 ensures Slot(start, j) in used - {last} {
        SlotsDiffer(start, j, k - 1);
      }
      SlotsCounted(start, used - {last}, k - 1);
    }
  }

  /** The first id from `start` on that is not used. */
  function FirstFree(start: int, used: set<int>, k: nat): (id: int)
    requires |used| < REDIRECT_QUERY_ID_MAX && k <= REDIRECT_QUERY_ID_MAX && AllUsed(start, used, k)
    ensures id !in used && 1 <= id <= REDIRECT_QUERY_ID_MAX
    ensures exists n: nat :: id == Slot(start, n) && AllUsed(start, used, n)
    decreases REDIRECT_QUERY_ID_MAX - k
  {
    ProbeFindsRoom(start, used, k);
    if Slot(start, k) !in used then Slot(start, k) else FirstFree(start, used, k + 1)
  }

  lemma FirstSlot(start: int, used: set<int>)
    requires 1 <= start <= REDIRECT_QUERY_ID_MAX
    ensures Slot(start, 0) == start && AllUsed(start, used, 0)
  {
  }

  lemma NextSlot(start: int, used: set<int>, k: nat)
    requires |used| < REDIRECT_QUERY_ID_MAX && k < REDIRECT_QUERY_ID_MAX && AllUsed(start, used, k)
    requires Slot(start, k) in used
    ensures Slot(start, k + 1) == Slot(start, k) % REDIRECT_QUERY_ID_MAX + 1
    ensures AllUsed(start, used, k + 1) && FirstFree(start, used, k) == FirstFree(start, used, k + 1)
  {
  }

  lemma FreeSlot(start: int, used: set<int>, k: nat)
    requires |used| < REDIRECT_QUERY_ID_MAX && k <= REDIRECT_QUERY_ID_MAX && AllUsed(start, used, k)
    requires Slot(start, k) !in used
    ensures FirstFree(start, used, k) == Slot(start, k)
  {
  }

  method Probe(start: int, used: set<int>) returns (id: int)
    requires 1 <= start <= REDIRECT_QUERY_ID_MAX && |used| < REDIRECT_QUERY_ID_MAX
    ensures id == FirstFree(start, used, 0)
  {
    hide AllUsed, Slot, FirstFree;
    FirstSlot(start, used);
    id := start;
    ghost var k: nat := 0;
    while id in used
      invariant id == Slot(start, k) && k <= REDIRECT_QUERY_ID_MAX && AllUsed(start, used, k)
      invariant FirstFree(start, used, 0) == FirstFree(start, used, k)
      decreases REDIRECT_QUERY_ID_MAX - k
    {
      ProbeFindsRoom(start, used, k);
      NextSlot(start, used, k);
      id := id % REDIRECT_QUERY_ID_MAX + 1;
      k := k + 1;
    }
    FreeSlot(start, used, k);
  }

  // ----- the plan

  predicate IsRedirectOrQuery(op: Operation) {
    op.kind.Redirect? || (op.kind.Query? && !op.dynamic)
  }

  predicate IsHeader(op: Operation) { op.kind.Header? && !op.dynamic }

  predicate IsDynamicValue(op: Operation) { (op.kind.Query? || op.kind.Header?) && op.dynamic }

  predicate IsProjectable(op: Operation) { op.projectable }

  /** Translating such an operation throws. */
  predicate Blocks(op: Operation) { IsRedirectOrQuery(op) && !op.projectable }

  function Selected(ops: seq<Operation>, keep: Operation -> bool): seq<Operation> {
    if ops == [] then []
    else
      var last := ops[|ops| - 1];
      Selected(ops[..|ops| - 1], keep) + if keep(last) then [last] else []
  }

  lemma {:induction false} SelectedOnly(ops: seq<Operation>, keep: Operation -> bool)
    ensures |Selected(ops, keep)| <= |ops|
    ensures forall op :: op in Selected(ops, keep) ==> op in ops && keep(op)
    decreases |ops|
  {
    if ops != [] {
      SelectedOnly(ops[..|ops| - 1], keep);
    }
  }

  function Ops(plan: seq<Planned>): seq<Operation> {
    if plan == [] then [] else Ops(plan[..|plan| - 1]) + [plan[|plan| - 1].op]
  }

  /** What the plan wants live: its ids with their operations. */
  function Desired(plan: seq<Planned>): (r: map<int, Operation>)
    ensures |r| <= |plan|
  {
    if plan == [] then map[]
    else Desired(plan[..|plan| - 1])[plan[|plan| - 1].id := plan[|plan| - 1].op]
  }

  /** No id is planned twice. */
  predicate Distinct(plan: seq<Planned>) {
    plan == [] || (Distinct(plan[..|plan| - 1]) && plan[|plan| - 1].id !in Desired(plan[..|plan| - 1]))
  }

  /** The redirect and query operations in order, each on the first id that is free after its hash. */
  function Place(ops: seq<Operation>): (plan: seq<Planned>)
    requires |ops| <= REDIRECT_QUERY_ID_MAX
    ensures |plan| <= |ops|
  {
    if ops == [] then []
    else
      var rest, op := Place(ops[..|ops| - 1]), ops[|ops| - 1];
      if IsRedirectOrQuery(op)
      then rest + [Planned(FirstFree(RuleIdHash(op.ruleId), Desired(rest).Keys, 0), op)]
      else rest
  }

  /** Header rules: the id counts every header operation, the unprojectable ones are left out. */
  function HeaderPlan(headers: seq<Operation>): (plan: seq<Planned>) {
    if headers == [] then []
    else
      var n := |headers| - 1;
      HeaderPlan(headers[..n]) + if headers[n].projectable then [Planned(HEADER_ID_MIN + n, headers[n])] else []
  }

  function Plan(ops: seq<Operation>): (plan: seq<Planned>)
    requires |ops| <= REDIRECT_QUERY_ID_MAX
  {
    Place(ops) + HeaderPlan(Selected(ops, IsHeader))
  }

  // ----- what the plan is

  lemma OneMore(plan: seq<Planned>, p: Planned)
    ensures Desired(plan + [p]) == Desired(plan)[p.id := p.op]
    ensures Ops(plan + [p]) == Ops(plan) + [p.op]
    ensures Distinct(plan + [p]) <==> Distinct(plan) && p.id !in Desired(plan)
  {
    assert (plan + [p])[..|plan|] == plan;
  }

  lemma Bare()
    ensures Desired([]) == map[] && Ops([]) == [] && Distinct([])
  {
  }

  lemma {:induction false} PlaceMeaning(ops: seq<Operation>)
    requires |ops| <= REDIRECT_QUERY_ID_MAX
    ensures Distinct(Place(ops)) && Ops(Place(ops)) == Selected(ops, IsRedirectOrQuery)
    ensures forall id :: id in Desired(Place(ops)) ==>
              1 <= id <= REDIRECT_QUERY_ID_MAX && !Desired(Place(ops))[id].kind.Header?
    decreases |ops|
  {
    hide Desired, Distinct, Ops;
    Bare();
    if ops != [] {
      var rest, op := Place(ops[..|ops| - 1]), ops[|ops| - 1];
      PlaceMeaning(ops[..|ops| - 1]);
      if IsRedirectOrQuery(op) {
        OneMore(rest, Planned(FirstFree(RuleIdHash(op.ruleId), Desired(rest).Keys, 0), op));
      }
    }
  }

  lemma {:induction false} HeaderPlanMeaning(headers: seq<Operation>)
    requires forall op :: op in headers ==> op.kind.Header?
    ensures Distinct(HeaderPlan(headers)) && Ops(HeaderPlan(headers)) == Selected(headers, IsProjectable)
    ensures forall id :: id in Desired(HeaderPlan(headers)) ==>
              HEADER_ID_MIN <= id < HEADER_ID_MIN + |headers| && Desired(HeaderPlan(headers))[id].kind.Header?
    decreases |headers|
  {
    hide Desired, Distinct, Ops;
    Bare();
    if headers != [] {
      var n := |headers| - 1;
      HeaderPlanMeaning(headers[..n]);
      assert HeaderPlan(headers[..n]) + [] == HeaderPlan(headers[..n]);
      OneMore(HeaderPlan(headers[..n]), Planned(HEADER_ID_MIN + n, headers[n]));
    }
  }

  lemma {:induction false} JoinPlans(front: seq<Planned>, back: seq<Planned>)
    requires Distinct(front) && Distinct(back) && Desired(front).Keys !! Desired(back).Keys
    ensures Distinct(front + back) && Ops(front + back) == Ops(front) + Ops(back)
    ensures Desired(front + back) == Desired(front) + Desired(back)
    decreases |back|
  {
    hide Desired, Distinct, Ops;
    Bare();
    if back == [] {
      assert front + back == front;
    } else {
      var shorter, last := back[..|back| - 1], back[|back| - 1];
      assert back == shorter + [last];
      OneMore(shorter, last);
      JoinPlans(front, shorter);
      JoinOne(front, shorter, last);
    }
  }

  lemma MergeOne<K, V>(a: map<K, V>, b: map<K, V>, k: K, v: V)
    ensures a + b[k := v] == (a + b)[k := v]
  {
  }

  lemma JoinOne(front: seq<Planned>, shorter: seq<Planned>, last: Planned)
    requires Ops(front + shorter) == Ops(front) + Ops(shorter)
    requires Desired(front + shorter) == Desired(front) + Desired(shorter)
    requires Distinct(front + shorter) && last.id !in Desired(front) && last.id !in Desired(shorter)
    ensures Distinct(front + (shorter + [last]))
    ensures Ops(front + (shorter + [last])) == Ops(front) + Ops(shorter + [last])
    ensures Desired(front + (shorter + [last])) == Desired(front) + Desired(shorter + [last])
  {
    hide Desired, Distinct, Ops;
    assert front + (shorter + [last]) == front + shorter + [last];
    OneMore(shorter, last);
    OneMore(front + shorter, last);
    MergeOne(Desired(front), Desired(shorter), last.id, last.op);
    assert Ops(front) + (Ops(shorter) + [last.op]) == Ops(front) + Ops(shorter) + [last.op];
  }

  /** Every planned id is the plan's own and lies in the band of its kind, and an operation is planned
      exactly when it is a redirect or query with a fixed value or a projectable header with one. */
  lemma PlanMeaning(ops: seq<Operation>)
    requires |ops| <= REDIRECT_QUERY_ID_MAX
    ensures Distinct(Plan(ops))
    ensures forall id :: id in Desired(Plan(ops)) ==>
              if Desired(Plan(ops))[id].kind.Header? then HEADER_ID_MIN <= id < HEADER_ID_MIN + |ops|
              else 1 <= id <= REDIRECT_QUERY_ID_MAX
    ensures Ops(Plan(ops)) == Selected(ops, IsRedirectOrQuery)
                              + Selected(Selected(ops, IsHeader), IsProjectable)
  {
    hide Desired, Distinct, Ops, Place, HeaderPlan;
    SelectedOnly(ops, IsHeader);
    PlaceMeaning(ops);
    HeaderPlanMeaning(Selected(ops, IsHeader));
    JoinPlans(Place(ops), HeaderPlan(Selected(ops, IsHeader)));
  }

  lemma {:induction false} DistinctIds(plan: seq<Planned>, i: nat, j: nat)
    requires Distinct(plan) && i < j < |plan|
    ensures plan[i].id != plan[j].id
    decreases |plan|
  {
    if j < |plan| - 1 {
      DistinctIds(plan[..|plan| - 1], i, j);
    } else {
      PlannedIsDesired(plan[..|plan| - 1], i);
    }
  }

  lemma {:induction false} PlannedIsDesired(plan: seq<Planned>, i: nat)
    requires i < |plan|
    ensures plan[i].id in Desired(plan)
    decreases |plan|
  {
    if i < |plan| - 1 {
      PlannedIsDesired(plan[..|plan| - 1], i);
    }
  }
}
