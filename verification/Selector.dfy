/** `packages/compiler/src/selector.ts:37-106`: which of the matching operations handles a request, and what that
    means for an imported project. Whether an operation's source matches the URL is given with the operation. */
module Selector {
  import opened Options
  import opened ProjectModel
  import opened RequestlyImport

  const MAX_SAFE_INTEGER: nat := 9_007_199_254_740_991

  datatype Operation = Operation(
    groupId: string,
    rule: Rule,
    responseBody: bool,
    verb: Option<string>,
    resourceTypes: seq<string>,
    sourceMatches: bool)

  datatype Context = Context(verb: string, resourceType: string, sameOrigin: bool, response: bool)

  datatype Winner = NoWinner | Winner(operation: Operation, sourceOrder: nat)

  predicate IsCandidate(op: Operation, enabled: seq<string>, c: Context) {
    && op.groupId in enabled && op.sourceMatches && c.sameOrigin
    && (op.verb.None? || op.verb.value == c.verb)
    && c.resourceType in op.resourceTypes
    && (c.response ==> op.responseBody)
  }

  predicate SameEntity(a: Operation, b: Operation) { a.groupId == b.groupId && a.rule.id == b.rule.id }

  /** The index of the first operation with the same group and rule id. */
  function SourceOrder(op: Operation, ops: seq<Operation>): nat {
    FirstIndex(op, ops, 0)
  }

  function FirstIndex(op: Operation, ops: seq<Operation>, from: nat): nat
    requires from <= |ops|
    decreases |ops| - from
  {
    if from == |ops| then MAX_SAFE_INTEGER
    else if SameEntity(ops[from], op) then from
    else FirstIndex(op, ops, from + 1)
  }

  function Candidates(ops: seq<Operation>, enabled: seq<string>, c: Context): seq<Operation> {
    if ops == [] then []
    else
      var last := ops[|ops| - 1];
      Candidates(ops[..|ops| - 1], enabled, c) + if IsCandidate(last, enabled, c) then [last] else []
  }

  /** The comparison of the sort: `a` may stand before `b`. */
  predicate MayPrecede(a: Operation, b: Operation, ops: seq<Operation>) {
    a.rule.priority > b.rule.priority
    || (a.rule.priority == b.rule.priority && SourceOrder(a, ops) <= SourceOrder(b, ops))
  }

  ghost predicate IsSorted(s: seq<Operation>, ops: seq<Operation>) {
    forall i, j :: 0 <= i < j < |s| ==> MayPrecede(s[i], s[j], ops)
  }

  function Insert(op: Operation, s: seq<Operation>, ops: seq<Operation>): seq<Operation> {
    if s == [] || !MayPrecede(s[0], op, ops) then [op] + s else [s[0]] + Insert(op, s[1..], ops)
  }

  /** A stable sort by that comparison. */
  function Sorted(s: seq<Operation>, ops: seq<Operation>): seq<Operation> {
    if s == [] then [] else Insert(s[|s| - 1], Sorted(s[..|s| - 1], ops), ops)
  }

  function SelectWinningOperation(ops: seq<Operation>, enabled: seq<string>, c: Context): Winner {
    var sorted := Sorted(Candidates(ops, enabled, c), ops);
    if sorted == [] then NoWinner else Winner(sorted[0], SourceOrder(sorted[0], ops))
  }

  // ----- what is selected

  lemma {:induction false} FirstIndexMeaning(op: Operation, ops: seq<Operation>, from: nat)
    requires from <= |ops|
    ensures var k := FirstIndex(op, ops, from);
            if exists i :: from <= i < |ops| && SameEntity(ops[i], op) then
              from <= k < |ops| && SameEntity(ops[k], op) && forall i :: from <= i < k ==> !SameEntity(ops[i], op)
            else k == MAX_SAFE_INTEGER
    decreases |ops| - from
  {
    if from < |ops| {
      FirstIndexMeaning(op, ops, from + 1);
    }
  }

  lemma {:induction false} CandidatesMeaning(ops: seq<Operation>, enabled: seq<string>, c: Context)
    ensures forall op :: op in Candidates(ops, enabled, c) <==> op in ops && IsCandidate(op, enabled, c)
    decreases |ops|
  {
    if ops != [] {
      CandidatesMeaning(ops[..|ops| - 1], enabled, c);
      assert ops == ops[..|ops| - 1] + [ops[|ops| - 1]];
    }
  }

  lemma {:induction false} InsertMeaning(op: Operation, s: seq<Operation>, ops: seq<Operation>)
    requires IsSorted(s, ops)
    ensures IsSorted(Insert(op, s, ops), ops) && multiset(Insert(op, s, ops)) == multiset(s) + multiset{op}
    decreases |s|
  {
    hide SourceOrder;
    if s != [] && MayPrecede(s[0], op, ops) {
      InsertMeaning(op, s[1..], ops);
      var rest := Insert(op, s[1..], ops);
      assert s == [s[0]] + s[1..];
      forall o | o in rest ensures MayPrecede(s[0], o, ops) {
        assert o in multiset(rest);
        assert o in multiset(s[1..]) + multiset{op};
        assert o in s[1..] || o == op;
      }
    } else {
      forall o | o in s ensures MayPrecede(op, o, ops) {
        var i :| 0 <= i < |s| && s[i] == o;
        assert i > 0 ==> MayPrecede(s[0], s[i], ops);
      }
    }
  }

  lemma {:induction false} SortedMeaning(s: seq<Operation>, ops: seq<Operation>)
    ensures IsSorted(Sorted(s, ops), ops) && multiset(Sorted(s, ops)) == multiset(s)
    decreases |s|
  {
    if s != [] {
      SortedMeaning(s[..|s| - 1], ops);
      InsertMeaning(s[|s| - 1], Sorted(s[..|s| - 1], ops), ops);
      assert s == s[..|s| - 1] + [s[|s| - 1]];
    }
  }

  /** Whatever permutation of the candidates a sort by the comparison yields, its head is a candidate that
      no other beats: none has a higher priority, and none of the same priority comes earlier. */
  lemma HeadOfAnySort(ops: seq<Operation>, enabled: seq<string>, c: Context, sorted: seq<Operation>)
    requires multiset(sorted) == multiset(Candidates(ops, enabled, c)) && IsSorted(sorted, ops) && sorted != []
    ensures sorted[0] in ops && IsCandidate(sorted[0], enabled, c)
    ensures forall o :: o in ops && IsCandidate(o, enabled, c) ==> MayPrecede(sorted[0], o, ops)
  {
    hide IsCandidate, SourceOrder, Candidates;
    CandidatesMeaning(ops, enabled, c);
    assert sorted[0] in multiset(sorted);
    forall o | o in ops && IsCandidate(o, enabled, c) ensures MayPrecede(sorted[0], o, ops) {
      assert o in multiset(Candidates(ops, enabled, c));
      assert o in multiset(sorted);
      var i :| 0 <= i < |sorted| && sorted[i] == o;
    }
  }

  ghost predicate DistinctEntities(ops: seq<Operation>) {
    forall i, j :: 0 <= i < j < |ops| ==> !SameEntity(ops[i], ops[j])
  }

  /** With distinct entities the winner stands at its source order, every candidate of higher priority is
      ruled out, and so is every earlier one of the same priority. There is a winner exactly when there is a
      candidate, and any other sort by the same comparison would select the same operation. */
  lemma WinnerIsBest(ops: seq<Operation>, enabled: seq<string>, c: Context)
    requires DistinctEntities(ops)
    ensures var w := SelectWinningOperation(ops, enabled, c);
            if w.NoWinner? then forall op :: op in ops ==> !IsCandidate(op, enabled, c)
            else
              && w.sourceOrder < |ops| && ops[w.sourceOrder] == w.operation && IsCandidate(w.operation, enabled, c)
              && forall i :: 0 <= i < |ops| && IsCandidate(ops[i], enabled, c) ==>
                   ops[i].rule.priority < w.operation.rule.priority
                   || (ops[i].rule.priority == w.operation.rule.priority && w.sourceOrder <= i)
  {
    hide IsCandidate, Candidates, SourceOrder, Sorted;
    var sorted := Sorted(Candidates(ops, enabled, c), ops);
    SortedMeaning(Candidates(ops, enabled, c), ops);
    CandidatesMeaning(ops, enabled, c);
    if sorted == [] {
      assert multiset(Candidates(ops, enabled, c)) == multiset{};
      forall op | op in ops ensures !IsCandidate(op, enabled, c) {
        assert op in Candidates(ops, enabled, c) ==> op in multiset(Candidates(ops, enabled, c));
      }
    } else {
      HeadOfAnySort(ops, enabled, c, sorted);
      forall i | 0 <= i < |ops| ensures SourceOrder(ops[i], ops) == i {
        OrderIsIndex(ops, i);
      }
    }
  }

  lemma OrderIsIndex(ops: seq<Operation>, i: nat)
    requires DistinctEntities(ops) && i < |ops|
    ensures SourceOrder(ops[i], ops) == i
  {
    FirstIndexMeaning(ops[i], ops, 0);
    assert SameEntity(ops[i], ops[i]);
  }

  lemma AnySortAgrees(ops: seq<Operation>, enabled: seq<string>, c: Context, sorted: seq<Operation>)
    requires DistinctEntities(ops)
    requires multiset(sorted) == multiset(Candidates(ops, enabled, c)) && IsSorted(sorted, ops) && sorted != []
    ensures SelectWinningOperation(ops, enabled, c).Winner?
    ensures SelectWinningOperation(ops, enabled, c).operation == sorted[0]
  {
    hide IsCandidate, Candidates, SourceOrder, Sorted, SelectWinningOperation;
    HeadOfAnySort(ops, enabled, c, sorted);
    WinnerIsBest(ops, enabled, c);
    var w := SelectWinningOperation(ops, enabled, c);
    var i :| 0 <= i < |ops| && ops[i] == sorted[0];
    OrderIsIndex(ops, i);
    OrderIsIndex(ops, w.sourceOrder);
    assert MayPrecede(sorted[0], w.operation, ops);
  }

  // ----- imported projects

  /** The compiler keeps group order and rule order. `view` fills in what a rule matches. */
  function Compiled(groups: seq<Group>, view: (string, Rule) -> Operation): seq<Operation> {
    if groups == [] then []
    else
      var last := groups[|groups| - 1];
      Compiled(groups[..|groups| - 1], view) + seq(|last.rules|, i requires 0 <= i < |last.rules| => view(last.id, last.rules[i]))
  }

  ghost predicate KeepsRule(view: (string, Rule) -> Operation) {
    forall g: string, r: Rule :: view(g, r).rule == r
  }

  lemma {:induction false} CompiledFrom(groups: seq<Group>, view: (string, Rule) -> Operation, op: Operation)
    requires KeepsRule(view) && op in Compiled(groups, view)
    ensures exists g :: 0 <= g < |groups| && op.rule in groups[g].rules
    decreases |groups|
  {
    var front, last := groups[..|groups| - 1], groups[|groups| - 1];
    if op in Compiled(front, view) {
      CompiledFrom(front, view, op);
      var g :| 0 <= g < |front| && op.rule in front[g].rules;
      assert op.rule in groups[g].rules;
    } else {
      assert op.rule in groups[|groups| - 1].rules;
    }
  }

  lemma {:induction false} PlacedFrom(trace: seq<Placed>, place: nat, r: Rule)
    requires r in RulesAt(trace, place)
    ensures exists k :: 0 <= k < |trace| && trace[k].rule == r
    decreases |trace|
  {
    var front := trace[..|trace| - 1];
    if r in RulesAt(front, place) {
      PlacedFrom(front, place, r);
      var k :| 0 <= k < |front| && front[k].rule == r;
      assert trace[k].rule == r;
    } else {
      assert trace[|trace| - 1].rule == r;
    }
  }

  /** Produced priorities never rise, and fall strictly up to the thousandth rule. */
  lemma PrioritiesFall(trace: seq<Placed>, i: nat, j: nat)
    requires Prioritised(trace) && i < j < |trace|
    ensures trace[i].rule.priority >= trace[j].rule.priority
    ensures trace[i].rule.priority > trace[j].rule.priority <==> i < MAX_PRIORITY - 1
  {
  }

  /** Among the rules of one import of up to a thousand rules, the winner is the candidate that comes first
      in the export, however the export's rules were spread over groups. */
  lemma ExportOrderWins(trace: seq<Placed>, groups: seq<Group>, view: (string, Rule) -> Operation,
                        enabled: seq<string>, c: Context)
    requires Filled(trace, groups) && Prioritised(trace) && |trace| <= MAX_PRIORITY && KeepsRule(view)
    requires SelectWinningOperation(Compiled(groups, view), enabled, c).Winner?
    ensures var w := SelectWinningOperation(Compiled(groups, view), enabled, c).operation;
            exists k :: 0 <= k < |trace| && trace[k].rule == w.rule
              && forall op, m | op in Compiled(groups, view) && IsCandidate(op, enabled, c)
                                && 0 <= m < |trace| && trace[m].rule == op.rule :: k <= m
  {
    hide Candidates, IsCandidate, Sorted, SourceOrder, Compiled, RulesAt;
    var ops := Compiled(groups, view);
    var sorted := Sorted(Candidates(ops, enabled, c), ops);
    SortedMeaning(Candidates(ops, enabled, c), ops);
    HeadOfAnySort(ops, enabled, c, sorted);
    var w := sorted[0];
    CompiledFrom(groups, view, w);
    var g :| 0 <= g < |groups| && w.rule in groups[g].rules;
    PlacedFrom(trace, g, w.rule);
    var k :| 0 <= k < |trace| && trace[k].rule == w.rule;
    forall op, m | op in ops && IsCandidate(op, enabled, c) && 0 <= m < |trace| && trace[m].rule == op.rule
      ensures k <= m
    {
      assert MayPrecede(w, op, ops);
    }
  }

  // ----- the selection, said of the request

  /** Its group is enabled, its source, method and resource type fit, the request stays on its origin, and a
      response is for response-body rules only. */
  ghost predicate Applies(op: Operation, enabled: seq<string>, c: Context) {
    && (exists i :: 0 <= i < |enabled| && enabled[i] == op.groupId)
    && op.sourceMatches && c.sameOrigin
    && (op.verb == None || op.verb == Some(c.verb))
    && (exists i :: 0 <= i < |op.resourceTypes| && op.resourceTypes[i] == c.resourceType)
    && (c.response ==> op.responseBody)
  }

  /** No operation before `k` is of the same group and rule. */
  ghost predicate NoneBefore(op: Operation, ops: seq<Operation>, k: nat)
    requires k <= |ops|
  {
    forall i :: 0 <= i < k ==> ops[i].groupId != op.groupId || ops[i].rule.id != op.rule.id
  }

  /** On any list of operations: there is no winner exactly when nothing applies; otherwise the winner applies, its
      source order is the first place of its group and rule, and whatever else applies has a lower priority, or the
      same one and a group and rule that do not come earlier. */
  lemma SelectionMeans(ops: seq<Operation>, enabled: seq<string>, c: Context)
    ensures match SelectWinningOperation(ops, enabled, c)
            case NoWinner => forall i :: 0 <= i < |ops| ==> !Applies(ops[i], enabled, c)
            case Winner(op, order) =>
              && op in ops && Applies(op, enabled, c)
              && order < |ops| && ops[order].groupId == op.groupId && ops[order].rule.id == op.rule.id
              && NoneBefore(op, ops, order)
              && forall i :: 0 <= i < |ops| && Applies(ops[i], enabled, c) ==>
                   ops[i].rule.priority < op.rule.priority
                   || (ops[i].rule.priority == op.rule.priority && NoneBefore(ops[i], ops, order))
  {
    hide Candidates, Sorted, FirstIndex, Applies, IsCandidate;
    forall op ensures Applies(op, enabled, c) <==> IsCandidate(op, enabled, c) {
      AppliesIsCandidate(op, enabled, c);
    }
    var sorted := Sorted(Candidates(ops, enabled, c), ops);
    SortedMeaning(Candidates(ops, enabled, c), ops);
    CandidatesMeaning(ops, enabled, c);
    if sorted == [] {
      NothingSorted(ops, enabled, c);
    } else {
      HeadOfAnySort(ops, enabled, c, sorted);
      forall i | 0 <= i < |ops| ensures SourceOrder(ops[i], ops) < |ops| && NoneBefore(ops[i], ops, SourceOrder(ops[i], ops)) {
        FirstPlace(ops[i], ops);
      }
      FirstPlace(sorted[0], ops);
    }
  }

  lemma AppliesIsCandidate(op: Operation, enabled: seq<string>, c: Context)
    ensures Applies(op, enabled, c) <==> IsCandidate(op, enabled, c)
  {
  }

  lemma NothingSorted(ops: seq<Operation>, enabled: seq<string>, c: Context)
    requires multiset(Candidates(ops, enabled, c)) == multiset{}
    ensures forall op :: op in ops ==> !IsCandidate(op, enabled, c)
  {
    hide IsCandidate, Candidates;
    CandidatesMeaning(ops, enabled, c);
    forall op | op in ops ensures !IsCandidate(op, enabled, c) {
      assert op in Candidates(ops, enabled, c) ==> op in multiset(Candidates(ops, enabled, c));
    }
  }

  lemma FirstPlace(op: Operation, ops: seq<Operation>)
    requires op in ops
    ensures var k := SourceOrder(op, ops);
            k < |ops| && ops[k].groupId == op.groupId && ops[k].rule.id == op.rule.id && NoneBefore(op, ops, k)
  {
    FirstIndexMeaning(op, ops, 0);
    assert SameEntity(op, op);
  }
}
