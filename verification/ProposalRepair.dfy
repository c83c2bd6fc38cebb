/** `packages/extension/src/ai-assist.ts:261-399`: putting proposed rules into a project, with or without
    repairing the rules that carry diagnostics. A rule's fields other than its id are one opaque value. */
module ProposalRepair {
  import opened Options
  import opened Decimal
  import opened JsonPointer

  const MAX_SAFE_INTEGER: nat := 9_007_199_254_740_991

  /** A rule entry is a record, whose id may be something other than a string, or no record at all. */
  datatype RuleEntry = RuleRecord(id: Option<string>, body: int) | NoRecord(raw: int)

  datatype Group = Group(id: Option<string>, rules: seq<RuleEntry>)

  /** A stored group that is no record is read as an empty group with the id "invalid". */
  datatype StoredGroup = Stored(group: Group) | NotARecord

  datatype Proposal = Proposal(groupId: string, body: int)

  datatype Target = Target(group: nat, rule: nat)

  function Opened(stored: seq<StoredGroup>): (groups: seq<Group>)
    ensures |groups| == |stored|
    ensures forall i :: 0 <= i < |stored| ==>
              match stored[i] case Stored(group) => groups[i] == group
                              case NotARecord => groups[i].id == Some("invalid") && groups[i].rules == []
  {
    seq(|stored|, i requires 0 <= i < |stored| => if stored[i].Stored? then stored[i].group else Group(Some("invalid"), []))
  }

  // ----- targets

  /** The rule a diagnostic path points into: `/groups/<g>/rules/<r>`, alone or followed by `/`. */
  function TargetOf(path: string): Option<Target> {
    var parts := Split(path);
    if |parts| >= 5 && parts[0] == "" && parts[1] == "groups" && IsCanonical(parts[2]) && parts[3] == "rules"
       && IsCanonical(parts[4]) && ValueOf(parts[2]) <= MAX_SAFE_INTEGER && ValueOf(parts[4]) <= MAX_SAFE_INTEGER
    then Some(Target(ValueOf(parts[2]), ValueOf(parts[4])))
    else None
  }

  /** `/groups/<g>/rules/<r>` in decimal text without leading zeros, alone or with a slash behind it. */
  ghost predicate PointsInto(path: string, t: Target) {
    && t.group <= 9_007_199_254_740_991 && t.rule <= 9_007_199_254_740_991
    && exists rest :: path == "/groups/" + Text(t.group) + "/rules/" + Text(t.rule) + rest && (rest == "" || rest[0] == '/')
  }

  lemma PartsOf(g: string, r: string, rest: string)
    requires NoSlash(g) && NoSlash(r) && (rest == "" || rest[0] == '/')
    ensures Split("/groups/" + g + "/rules/" + r + rest)
         == ["", "groups", g, "rules", r] + if rest == "" then [] else Split(rest[1..])
  {
    hide Split;
    var end := r + rest;
    if rest == "" {
      assert end == r;
      SplitOne(r);
    } else {
      assert end == r + "/" + rest[1..];
      SplitPart(r, rest[1..]);
    }
    SplitPart("rules", end);
    SplitPart(g, "rules" + "/" + end);
    SplitPart("groups", g + "/" + ("rules" + "/" + end));
    SplitPart("", "groups" + "/" + (g + "/" + ("rules" + "/" + end)));
    RulePath(g, r, rest);
  }

  lemma RulePath(g: string, r: string, rest: string)
    ensures "" + "/" + ("groups" + "/" + (g + "/" + ("rules" + "/" + (r + rest)))) == "/groups/" + g + "/rules/" + r + rest
  {
    assert "" + "/" + ("groups" + "/" + (g + "/" + ("rules" + "/" + (r + rest))))
        == "/groups/" + (g + ("/rules/" + (r + rest)));
    assert "/groups/" + (g + ("/rules/" + (r + rest))) == "/groups/" + g + ("/rules/" + (r + rest));
    assert "/groups/" + g + ("/rules/" + (r + rest)) == "/groups/" + g + "/rules/" + (r + rest);
  }

  lemma {:induction false} JoinFive(parts: seq<string>)
    requires |parts| >= 5 && parts[0] == "" && parts[1] == "groups" && parts[3] == "rules"
    ensures Join(parts) == "/groups/" + parts[2] + "/rules/" + parts[4] + if |parts| == 5 then "" else "/" + Join(parts[5..])
  {
    hide Join;
    JoinHead(parts);
    JoinHead(parts[1..]);
    JoinHead(parts[2..]);
    JoinHead(parts[3..]);
    JoinHead(parts[4..]);
    assert parts[1..][1..] == parts[2..] && parts[2..][1..] == parts[3..] && parts[3..][1..] == parts[4..]
        && parts[4..][1..] == parts[5..];
    var rest := if |parts| == 5 then "" else "/" + Join(parts[5..]);
    assert Join(parts[4..]) == parts[4] + rest;
    RulePath(parts[2], parts[4], rest);
  }

  lemma JoinHead(parts: seq<string>)
    requires parts != []
    ensures Join(parts) == if |parts| == 1 then parts[0] else parts[0] + "/" + Join(parts[1..])
  {
  }

  lemma TargetMeans(path: string)
    ensures forall t :: TargetOf(path) == Some(t) <==> PointsInto(path, t)
  {
    hide Split, Join, Text, ValueOf, IsCanonical;
    var parts := Split(path);
    JoinSplit(path);
    forall t ensures TargetOf(path) == Some(t) <==> PointsInto(path, t) {
      if TargetOf(path) == Some(t) {
        JoinFive(parts);
        CanonicalIsText(parts[2]);
        CanonicalIsText(parts[4]);
        var rest := if |parts| == 5 then "" else "/" + Join(parts[5..]);
        assert path == "/groups/" + Text(t.group) + "/rules/" + Text(t.rule) + rest && (rest == "" || rest[0] == '/');
      }
      if PointsInto(path, t) {
        var rest :| path == "/groups/" + Text(t.group) + "/rules/" + Text(t.rule) + rest && (rest == "" || rest[0] == '/');
        DigitsNoSlash(Text(t.group));
        DigitsNoSlash(Text(t.rule));
        PartsOf(Text(t.group), Text(t.rule), rest);
        TextIsCanonical(t.group);
        TextIsCanonical(t.rule);
      }
    }
  }

  lemma DigitsNoSlash(s: string)
    requires AllDigits(s)
    ensures NoSlash(s)
  {
  }

  predicate Below(a: Target, b: Target) { a.group < b.group || (a.group == b.group && a.rule < b.rule) }

  ghost predicate Ascending(targets: seq<Target>) {
    forall i, j :: 0 <= i < j < |targets| ==> Below(targets[i], targets[j])
  }

  ghost predicate Pointed(paths: seq<string>, t: Target) {
    exists i :: 0 <= i < |paths| && TargetOf(paths[i]) == Some(t)
  }

  /** The sort of the source, one element at a time. */
  function Insert(t: Target, sorted: seq<Target>): seq<Target> {
    if sorted == [] || Below(t, sorted[0]) then [t] + sorted
    else [sorted[0]] + Insert(t, sorted[1..])
  }

  lemma {:induction false} InsertMeaning(t: Target, sorted: seq<Target>)
    requires Ascending(sorted) && t !in sorted
    ensures Ascending(Insert(t, sorted))
    ensures forall u :: u in Insert(t, sorted) <==> u == t || u in sorted
    decreases |sorted|
  {
    if sorted != [] && !Below(t, sorted[0]) {
      InsertMeaning(t, sorted[1..]);
      var rest := Insert(t, sorted[1..]);
      assert Below(sorted[0], t);
      forall u | u in rest ensures Below(sorted[0], u) {
        if u != t {
          var i :| 0 <= i < |sorted[1..]| && sorted[1..][i] == u;
          assert sorted[i + 1] == u;
        }
      }
      assert sorted == [sorted[0]] + sorted[1..];
    }
  }

  method RepairTargets(paths: seq<string>) returns (targets: seq<Target>)
    ensures Ascending(targets)
    ensures forall t :: t in targets <==> Pointed(paths, t)
    ensures forall t :: t in targets <==> exists i :: 0 <= i < |paths| && PointsInto(paths[i], t)
  {
    hide TargetOf, Ascending, Insert, PointsInto;
    forall path: string ensures forall t :: TargetOf(path) == Some(t) <==> PointsInto(path, t) {
      TargetMeans(path);
    }
    NoTargets();
    targets := [];
    for i := 0 to |paths|
      invariant Ascending(targets)
      invariant forall t :: t in targets <==> Pointed(paths[..i], t)
    {
      var target := TargetOf(paths[i]);
      PointedGrows(paths, i);
      if target.Some? && target.value !in targets {
        InsertMeaning(target.value, targets);
        targets := Insert(target.value, targets);
      }
    }
    assert paths[..|paths|] == paths;
  }

  lemma NoTargets()
    ensures Ascending([]) && forall paths: seq<string> :: paths[..0] == []
  {
  }

  lemma PointedGrows(paths: seq<string>, i: nat)
    requires i < |paths|
    ensures forall t :: Pointed(paths[..i + 1], t) <==> Pointed(paths[..i], t) || TargetOf(paths[i]) == Some(t)
  {
    hide TargetOf;
    var shorter, longer := paths[..i], paths[..i + 1];
    assert longer == shorter + [paths[i]];
    forall t | Pointed(shorter, t) ensures Pointed(longer, t) {
      var j :| 0 <= j < |shorter| && TargetOf(shorter[j]) == Some(t);
      assert longer[j] == shorter[j];
    }
    assert longer[i] == paths[i];
  }

  // ----- queues

  predicate Repairable(groups: seq<Group>, t: Target) {
    t.group < |groups| && t.rule < |groups[t.group].rules| && groups[t.group].rules[t.rule].RuleRecord?
  }

  ghost predicate Rising(q: seq<nat>) { forall i, j :: 0 <= i < j < |q| ==> q[i] < q[j] }

  /** The queue of each group: its repairable targets, in index order. */
  ghost predicate QueuesFor(groups: seq<Group>, targets: seq<Target>, queues: seq<seq<nat>>) {
    && |queues| == |groups|
    && forall g :: 0 <= g < |groups| ==>
         && Rising(queues[g])
         && forall r :: r in queues[g] <==> Target(g, r) in targets && Repairable(groups, Target(g, r))
  }

  method BuildQueues(groups: seq<Group>, targets: seq<Target>) returns (queues: seq<seq<nat>>)
    requires Ascending(targets)
    ensures QueuesFor(groups, targets, queues)
  {
    queues := seq(|groups|, _ => []);
    for i := 0 to |targets|
      invariant QueuesFor(groups, targets[..i], queues)
    {
      var t := targets[i];
      assert targets[..i + 1] == targets[..i] + [t];
      if Repairable(groups, t) {
        LastInQueue(groups, targets, i, queues[t.group]);
        queues := queues[t.group := queues[t.group] + [t.rule]];
      }
    }
    assert targets[..|targets|] == targets;
  }

  lemma LastInQueue(groups: seq<Group>, targets: seq<Target>, i: nat, queue: seq<nat>)
    requires Ascending(targets) && i < |targets| && Rising(queue)
    requires forall r :: r in queue ==> Target(targets[i].group, r) in targets[..i]
    ensures Rising(queue + [targets[i].rule])
  {
    forall j | 0 <= j < |queue| ensures queue[j] < targets[i].rule {
      var k :| 0 <= k < i && targets[k] == Target(targets[i].group, queue[j]);
      assert Below(targets[k], targets[i]);
    }
  }

  // ----- where a proposal goes

  /** The first group with the id, or the number of groups. */
  function Home(ids: seq<Option<string>>, groupId: string): (g: nat)
    ensures g <= |ids| && (g < |ids| ==> ids[g] == Some(groupId))
    ensures forall i :: 0 <= i < g ==> ids[i] != Some(groupId)
  {
    if ids == [] || ids[0] == Some(groupId) then 0 else 1 + Home(ids[1..], groupId)
  }

  function IdsOf(groups: seq<Group>): (ids: seq<Option<string>>)
    ensures |ids| == |groups| && forall i :: 0 <= i < |ids| ==> ids[i] == groups[i].id
  {
    seq(|groups|, i requires 0 <= i < |groups| => groups[i].id)
  }

  /** The proposals that belong to group `g`, in order. */
  function Chosen(proposals: seq<Proposal>, ids: seq<Option<string>>, g: nat): seq<Proposal> {
    if proposals == [] then []
    else
      var last := proposals[|proposals| - 1];
      Chosen(proposals[..|proposals| - 1], ids, g) + if Home(ids, last.groupId) == g then [last] else []
  }

  function Min(a: nat, b: nat): nat { if a <= b then a else b }

  /** In place, under the old id if that was a string. */
  predicate Replaces(was: RuleEntry, p: Proposal, now: RuleEntry) {
    && now.RuleRecord? && now.body == p.body && now.id.Some?
    && (was.RuleRecord? && was.id.Some? ==> now.id == was.id)
  }

  predicate Adds(p: Proposal, now: RuleEntry) { now.RuleRecord? && now.body == p.body && now.id.Some? }

  /** What becomes of one group: as many of its targets as there are proposals are replaced, first target by
      first proposal; the other rules stay; the proposals left over follow in order. */
  ghost predicate Repaired(before: seq<RuleEntry>, queue: seq<nat>, proposals: seq<Proposal>, after: seq<RuleEntry>) {
    var k := Min(|queue|, |proposals|);
    && (forall i :: 0 <= i < |queue| ==> queue[i] < |before|)
    && |after| == |before| + |proposals| - k
    && (forall i :: 0 <= i < k ==> Replaces(before[queue[i]], proposals[i], after[queue[i]]))
    && (forall r :: 0 <= r < |before| && r !in queue[..k] ==> after[r] == before[r])
    && (forall i :: k <= i < |proposals| ==> Adds(proposals[i], after[|before| + i - k]))
  }

  function Before(groups: seq<Group>, g: nat): seq<RuleEntry> { if g < |groups| then groups[g].rules else [] }

  function QueueOf(queues: seq<seq<nat>>, g: nat): seq<nat> { if g < |queues| then queues[g] else [] }

  /** Every group is repaired with the proposals that belong to it; new groups come last. */
  ghost predicate AllRepaired(before: seq<Group>, queues: seq<seq<nat>>, proposals: seq<Proposal>, after: seq<Group>) {
    && IdsOf(before) <= IdsOf(after)
    && (forall i :: 0 <= i < |proposals| ==> Home(IdsOf(after), proposals[i].groupId) < |after|)
    && (forall g :: |before| <= g < |after| ==> Chosen(proposals, IdsOf(after), g) != [])
    && forall g :: 0 <= g < |after| ==>
         Repaired(Before(before, g), QueueOf(queues, g), Chosen(proposals, IdsOf(after), g), after[g].rules)
  }

  // ----- the plain merge

  function PlaceAtEnd(groups: seq<Group>, p: Proposal, id: string): seq<Group> {
    var g := Home(IdsOf(groups), p.groupId);
    if g < |groups| then groups[g := groups[g].(rules := groups[g].rules + [RuleRecord(Some(id), p.body)])]
    else groups + [Group(Some(p.groupId), [RuleRecord(Some(id), p.body)])]
  }

  function MergedProposals(groups: seq<Group>, proposals: seq<Proposal>, mint: nat -> string): seq<Group> {
    if proposals == [] then groups
    else
      var n := |proposals| - 1;
      PlaceAtEnd(MergedProposals(groups, proposals[..n], mint), proposals[n], mint(n))
  }

  method MergeProposalIntoProject(stored: seq<StoredGroup>, proposals: seq<Proposal>, mint: nat -> string)
    returns (groups: seq<Group>)
    ensures groups == MergedProposals(Opened(stored), proposals, mint)
  {
    groups := Opened(stored);
    for i := 0 to |proposals|
      invariant groups == MergedProposals(Opened(stored), proposals[..i], mint)
    {
      assert proposals[..i + 1][..i] == proposals[..i];
      groups := PlaceAtEnd(groups, proposals[i], mint(i));
    }
    assert proposals[..|proposals|] == proposals;
  }

  // ----- the repair

  /** The queues are those of the rules the paths point into, and every group is repaired along its queue. */
  ghost predicate RepairedAlong(before: seq<Group>, paths: seq<string>, proposals: seq<Proposal>, after: seq<Group>,
                                targets: seq<Target>, queues: seq<seq<nat>>) {
    && Ascending(targets) && (forall t :: t in targets <==> Pointed(paths, t))
    && QueuesFor(before, targets, queues) && AllRepaired(before, queues, proposals, after)
  }

  /** Repairing conserves the project, and with nothing to repair it is the plain merge. */
  method RepairProposalIntoProject(stored: seq<StoredGroup>, paths: seq<string>, proposals: seq<Proposal>, mint: nat -> string)
    returns (groups: seq<Group>)
    ensures exists targets, queues :: RepairedAlong(Opened(stored), paths, proposals, groups, targets, queues)
    ensures (forall t :: Pointed(paths, t) ==> !Repairable(Opened(stored), t)) ==>
              groups == MergedProposals(Opened(stored), proposals, mint)
  {
    var targets := RepairTargets(paths);
    var project := Opened(stored);
    var queues := BuildQueues(project, targets);
    QueuesInside(project, targets, queues);
    groups := PlaceAll(project, queues, proposals, mint);
    if forall t :: t in targets ==> !Repairable(project, t) {
      NothingQueued(project, targets, queues);
    }
    assert RepairedAlong(project, paths, proposals, groups, targets, queues);
  }

  lemma NothingQueued(groups: seq<Group>, targets: seq<Target>, queues: seq<seq<nat>>)
    requires QueuesFor(groups, targets, queues) && forall t :: t in targets ==> !Repairable(groups, t)
    ensures forall g :: 0 <= g < |queues| ==> queues[g] == []
  {
    forall g | 0 <= g < |queues| ensures queues[g] == [] {
      if queues[g] != [] {
        HasFirst(queues[g]);
      }
    }
  }

  lemma HasFirst(q: seq<nat>)
    requires q != []
    ensures q[0] in q
  {
  }

  lemma QueuesInside(groups: seq<Group>, targets: seq<Target>, queues: seq<seq<nat>>)
    requires QueuesFor(groups, targets, queues)
    ensures Inside(groups, queues)
  {
    forall g, i | 0 <= g < |queues| && 0 <= i < |queues[g]| ensures queues[g][i] < |groups[g].rules| {
      assert queues[g][i] in queues[g];
    }
  }

  ghost predicate Inside(groups: seq<Group>, queues: seq<seq<nat>>) {
    && |queues| == |groups|
    && forall g :: 0 <= g < |queues| ==>
         Rising(queues[g]) && forall i :: 0 <= i < |queues[g]| ==> queues[g][i] < |groups[g].rules|
  }

  /** The targets of group `g` still to come after some proposals were placed. */
  function LeftOf(queues: seq<seq<nat>>, proposals: seq<Proposal>, ids: seq<Option<string>>, g: nat): seq<nat>
    requires g < |queues|
  {
    queues[g][Min(|queues[g]|, |Chosen(proposals, ids, g)|)..]
  }

  method PlaceAll(before: seq<Group>, queues: seq<seq<nat>>, proposals: seq<Proposal>, mint: nat -> string)
    returns (groups: seq<Group>)
    requires Inside(before, queues)
    ensures AllRepaired(before, queues, proposals, groups)
    ensures (forall g :: 0 <= g < |queues| ==> queues[g] == []) ==> groups == MergedProposals(before, proposals, mint)
  {
    hide AllRepaired, Chosen, Home, IdsOf, LeftOf, Inside, PlaceAtEnd;
    groups := before;
    var left, minted := queues, 0;
    NothingPlaced(before, queues);
    for n := 0 to |proposals|
      invariant AllRepaired(before, queues, proposals[..n], groups)
      invariant (forall g :: 0 <= g < |queues| ==> queues[g] == []) ==>
                  minted == n && groups == MergedProposals(before, proposals[..n], mint)
      invariant |left| == |queues| <= |groups|
      invariant (forall g :: 0 <= g < |queues| ==> queues[g] == []) ==> forall g :: 0 <= g < |queues| ==> left[g] == []
      invariant forall g :: 0 <= g < |queues| ==> left[g] == LeftOf(queues, proposals[..n], IdsOf(groups), g)
    {
      var p := proposals[n];
      assert proposals[..n + 1] == proposals[..n] + [p];
      assert proposals[..n + 1][..n] == proposals[..n];
      var g := Home(IdsOf(groups), p.groupId);
      if g < |left| && left[g] != [] {
        ReplaceStep(before, queues, proposals[..n], groups, p);
        var r := left[g][0];
        var existing := groups[g].rules[r];
        var keptId;
        if existing.RuleRecord? && existing.id.Some? {
          keptId := existing.id.value;
        } else {
          keptId := mint(minted);
          minted := minted + 1;
        }
        left := left[g := left[g][1..]];
        groups := groups[g := groups[g].(rules := groups[g].rules[r := RuleRecord(Some(keptId), p.body)])];
      } else {
        PlaceStep(before, queues, proposals[..n], groups, p, mint(minted));
        groups := PlaceAtEnd(groups, p, mint(minted));
        minted := minted + 1;
      }
    }
    assert proposals[..|proposals|] == proposals;
  }

  // ----- nothing is lost

  function RulesUpTo(groups: seq<Group>, n: nat): nat {
    if n == 0 then 0 else RulesUpTo(groups, n - 1) + |Before(groups, n - 1)|
  }

  function ChosenUpTo(proposals: seq<Proposal>, ids: seq<Option<string>>, n: nat): nat {
    if n == 0 then 0 else ChosenUpTo(proposals, ids, n - 1) + |Chosen(proposals, ids, n - 1)|
  }

  function ReplacedUpTo(queues: seq<seq<nat>>, proposals: seq<Proposal>, ids: seq<Option<string>>, n: nat): nat {
    if n == 0 then 0
    else ReplacedUpTo(queues, proposals, ids, n - 1) + Min(|QueueOf(queues, n - 1)|, |Chosen(proposals, ids, n - 1)|)
  }

  lemma {:induction false} CountedUpTo(before: seq<Group>, queues: seq<seq<nat>>, proposals: seq<Proposal>, after: seq<Group>, n: nat)
    requires AllRepaired(before, queues, proposals, after) && n <= |after|
    ensures RulesUpTo(after, n) + ReplacedUpTo(queues, proposals, IdsOf(after), n)
         == RulesUpTo(before, n) + ChosenUpTo(proposals, IdsOf(after), n)
  {
    hide Chosen, Repaired, Home;
    if n > 0 {
      CountedUpTo(before, queues, proposals, after, n - 1);
      RepairedLength(Before(before, n - 1), QueueOf(queues, n - 1), Chosen(proposals, IdsOf(after), n - 1), after[n - 1].rules);
    }
  }

  lemma RepairedLength(before: seq<RuleEntry>, queue: seq<nat>, proposals: seq<Proposal>, after: seq<RuleEntry>)
    requires Repaired(before, queue, proposals, after)
    ensures |after| + Min(|queue|, |proposals|) == |before| + |proposals|
  {
  }

  lemma {:induction false} OneMoreChosen(proposals: seq<Proposal>, p: Proposal, ids: seq<Option<string>>, n: nat)
    ensures ChosenUpTo(proposals + [p], ids, n)
         == ChosenUpTo(proposals, ids, n) + if Home(ids, p.groupId) < n then 1 else 0
  {
    hide Chosen, Home;
    if n > 0 {
      OneMoreChosen(proposals, p, ids, n - 1);
      ChosenGrows(proposals, p, ids, n - 1);
    }
  }

  lemma {:induction false} NoneChosen(ids: seq<Option<string>>, n: nat)
    ensures ChosenUpTo([], ids, n) == 0
  {
    if n > 0 {
      NoneChosen(ids, n - 1);
    }
  }

  lemma {:induction false} EachChosenOnce(proposals: seq<Proposal>, ids: seq<Option<string>>)
    requires forall i :: 0 <= i < |proposals| ==> Home(ids, proposals[i].groupId) < |ids|
    ensures ChosenUpTo(proposals, ids, |ids|) == |proposals|
    decreases |proposals|
  {
    hide Chosen, Home;
    if proposals == [] {
      NoneChosen(ids, |ids|);
    } else {
      var front, last := proposals[..|proposals| - 1], proposals[|proposals| - 1];
      EachChosenOnce(front, ids);
      OneMoreChosen(front, last, ids, |ids|);
      assert proposals == front + [last];
    }
  }

  lemma {:induction false} NoRulesBeyond(groups: seq<Group>, n: nat)
    requires n >= |groups|
    ensures RulesUpTo(groups, n) == RulesUpTo(groups, |groups|)
  {
    if n > |groups| {
      NoRulesBeyond(groups, n - 1);
    }
  }

  /** The rules afterwards are the rules before and the proposals, less the rules that were replaced. */
  lemma RepairConserves(before: seq<Group>, queues: seq<seq<nat>>, proposals: seq<Proposal>, after: seq<Group>)
    requires AllRepaired(before, queues, proposals, after)
    ensures RulesUpTo(after, |after|) + ReplacedUpTo(queues, proposals, IdsOf(after), |after|)
         == RulesUpTo(before, |before|) + |proposals|
  {
    hide Repaired, Chosen, Home;
    CountedUpTo(before, queues, proposals, after, |after|);
    EachChosenOnce(proposals, IdsOf(after));
    assert |IdsOf(before)| <= |IdsOf(after)|;
    NoRulesBeyond(before, |after|);
  }

  // ----- steps of the proofs above

  lemma NothingPlaced(before: seq<Group>, queues: seq<seq<nat>>)
    requires Inside(before, queues)
    ensures AllRepaired(before, queues, [], before) && |queues| == |before|
    ensures forall g :: 0 <= g < |queues| ==> queues[g] == LeftOf(queues, [], IdsOf(before), g)
    ensures forall p: seq<Proposal> :: p[..0] == []
  {
  }

  lemma ChosenGrows(proposals: seq<Proposal>, p: Proposal, ids: seq<Option<string>>, g: nat)
    ensures Chosen(proposals + [p], ids, g) == Chosen(proposals, ids, g) + if Home(ids, p.groupId) == g then [p] else []
  {
    assert (proposals + [p])[..|proposals|] == proposals;
  }

  /** One group, one more proposal, a target left. */
  lemma RepairedReplaces(before: seq<RuleEntry>, queue: seq<nat>, chosen: seq<Proposal>, after: seq<RuleEntry>,
                         p: Proposal, id: string)
    requires Repaired(before, queue, chosen, after) && Rising(queue) && |chosen| < |queue|
    ensures queue[|chosen|] < |after| && after[queue[|chosen|]] == before[queue[|chosen|]]
    ensures var r := queue[|chosen|];
            (before[r].RuleRecord? && before[r].id.Some? ==> before[r].id == Some(id)) ==>
              Repaired(before, queue, chosen + [p], after[r := RuleRecord(Some(id), p.body)])
  {
    var k, r := |chosen|, queue[|chosen|];
    assert r !in queue[..k];
    assert queue[..k + 1] == queue[..k] + [r];
  }

  /** One group, one more proposal, no target left. */
  lemma RepairedAdds(before: seq<RuleEntry>, queue: seq<nat>, chosen: seq<Proposal>, after: seq<RuleEntry>, p: Proposal, id: string)
    requires Repaired(before, queue, chosen, after) && |chosen| >= |queue|
    ensures Repaired(before, queue, chosen + [p], after + [RuleRecord(Some(id), p.body)])
  {
  }

  lemma ReplaceStep(before: seq<Group>, queues: seq<seq<nat>>, proposals: seq<Proposal>, groups: seq<Group>, p: Proposal)
    requires Inside(before, queues) && AllRepaired(before, queues, proposals, groups)
    requires var g := Home(IdsOf(groups), p.groupId); g < |queues| <= |groups| && LeftOf(queues, proposals, IdsOf(groups), g) != []
    ensures var g := Home(IdsOf(groups), p.groupId);
            var r := LeftOf(queues, proposals, IdsOf(groups), g)[0];
            && r < |groups[g].rules|
            && forall id: string ::
                 (groups[g].rules[r].RuleRecord? && groups[g].rules[r].id.Some? ==> groups[g].rules[r].id == Some(id)) ==>
                   StepDone(before, queues, proposals, groups, p,
                            groups[g := groups[g].(rules := groups[g].rules[r := RuleRecord(Some(id), p.body)])])
  {
    hide Chosen, Home, Repaired;
    var ids := IdsOf(groups);
    var g := Home(ids, p.groupId);
    var chosen := Chosen(proposals, ids, g);
    var r := LeftOf(queues, proposals, ids, g)[0];
    assert r == queues[g][|chosen|];
    assert Repaired(before[g].rules, queues[g], chosen, groups[g].rules);
    forall id: string
      ensures r < |groups[g].rules| && groups[g].rules[r] == before[g].rules[r]
      ensures (before[g].rules[r].RuleRecord? && before[g].rules[r].id.Some? ==> before[g].rules[r].id == Some(id)) ==>
                   StepDone(before, queues, proposals, groups, p,
                            groups[g := groups[g].(rules := groups[g].rules[r := RuleRecord(Some(id), p.body)])])
    {
      RepairedReplaces(before[g].rules, queues[g], chosen, groups[g].rules, p, id);
      if before[g].rules[r].RuleRecord? && before[g].rules[r].id.Some? ==> before[g].rules[r].id == Some(id) {
        OneGroupStep(before, queues, proposals, groups, p, groups[g].rules[r := RuleRecord(Some(id), p.body)]);
      }
    }
  }

  /** The state after one more proposal, and how the queues moved. */
  ghost predicate StepDone(before: seq<Group>, queues: seq<seq<nat>>, proposals: seq<Proposal>, groups: seq<Group>,
                           p: Proposal, next: seq<Group>) {
    && |groups| <= |next| && AllRepaired(before, queues, proposals + [p], next)
    && forall g :: 0 <= g < |queues| ==>
         var left := LeftOf(queues, proposals, IdsOf(groups), g);
         LeftOf(queues, proposals + [p], IdsOf(next), g)
         == if g == Home(IdsOf(groups), p.groupId) && left != [] then left[1..] else left
  }

  lemma OneGroupStep(before: seq<Group>, queues: seq<seq<nat>>, proposals: seq<Proposal>, groups: seq<Group>,
                     p: Proposal, rules: seq<RuleEntry>)
    requires Inside(before, queues) && AllRepaired(before, queues, proposals, groups)
    requires var g := Home(IdsOf(groups), p.groupId);
             g < |groups| && Repaired(Before(before, g), QueueOf(queues, g), Chosen(proposals, IdsOf(groups), g) + [p], rules)
    ensures var g := Home(IdsOf(groups), p.groupId);
            StepDone(before, queues, proposals, groups, p, groups[g := groups[g].(rules := rules)])
  {
    hide Chosen, Home, Repaired, Inside;
    var ids := IdsOf(groups);
    var g := Home(ids, p.groupId);
    var next := groups[g := groups[g].(rules := rules)];
    assert IdsOf(next) == ids;
    assert [] + [p] == [p];
    forall h | 0 <= h < |next|
      ensures Chosen(proposals, ids, h) + [] == Chosen(proposals, ids, h)
    {
    }
    forall h | 0 <= h < |next|
      ensures Chosen(proposals + [p], ids, h) == Chosen(proposals, ids, h) + if h == g then [p] else []
    {
      ChosenGrows(proposals, p, ids, h);
    }
    PreviousLength(before, queues, groups);
  }

  lemma PreviousLength(before: seq<Group>, queues: seq<seq<nat>>, groups: seq<Group>)
    requires Inside(before, queues) && IdsOf(before) <= IdsOf(groups)
    ensures |queues| == |before| <= |groups|
  {
  }

  lemma HomeStays(ids: seq<Option<string>>, x: string, y: string)
    ensures Home(ids, x) < |ids| ==> Home(ids + [Some(y)], x) == Home(ids, x)
    ensures Home(ids, y) == |ids| ==> Home(ids + [Some(y)], y) == |ids|
  {
    var a, b := Home(ids, x), Home(ids + [Some(y)], x);
    assert (ids + [Some(y)])[|ids|] == Some(y);
    assert a < |ids| ==> (ids + [Some(y)])[a] == Some(x);
    assert forall i :: 0 <= i < |ids| ==> (ids + [Some(y)])[i] == ids[i];
  }

  lemma {:induction false} ChosenStays(proposals: seq<Proposal>, ids: seq<Option<string>>, y: string, g: nat)
    requires forall i :: 0 <= i < |proposals| ==> Home(ids, proposals[i].groupId) < |ids|
    ensures Chosen(proposals, ids + [Some(y)], g) == Chosen(proposals, ids, g)
    ensures g >= |ids| ==> Chosen(proposals, ids, g) == []
    decreases |proposals|
  {
    hide Home;
    if proposals != [] {
      ChosenStays(proposals[..|proposals| - 1], ids, y, g);
      HomeStays(ids, proposals[|proposals| - 1].groupId, y);
    }
  }

  lemma NewGroupStep(before: seq<Group>, queues: seq<seq<nat>>, proposals: seq<Proposal>, groups: seq<Group>, p: Proposal, id: string)
    requires Inside(before, queues) && AllRepaired(before, queues, proposals, groups)
    requires Home(IdsOf(groups), p.groupId) == |groups|
    ensures StepDone(before, queues, proposals, groups, p, groups + [Group(Some(p.groupId), [RuleRecord(Some(id), p.body)])])
  {
    hide Chosen, Home, Repaired, Inside;
    var ids := IdsOf(groups);
    var next := groups + [Group(Some(p.groupId), [RuleRecord(Some(id), p.body)])];
    var nextIds := ids + [Some(p.groupId)];
    assert IdsOf(next) == nextIds;
    PreviousLength(before, queues, groups);
    HomeStays(ids, p.groupId, p.groupId);
    forall h | 0 <= h < |next|
      ensures Chosen(proposals + [p], nextIds, h) == Chosen(proposals, ids, h) + if h == |groups| then [p] else []
      ensures h == |groups| ==> Chosen(proposals, ids, h) == []
    {
      ChosenGrows(proposals, p, nextIds, h);
      ChosenStays(proposals, ids, p.groupId, h);
    }
    forall i | 0 <= i < |proposals| ensures Home(nextIds, proposals[i].groupId) < |next| {
      HomeStays(ids, proposals[i].groupId, p.groupId);
    }
    FirstInNewGroup(p, id);
    forall h | 0 <= h < |next|
      ensures Repaired(Before(before, h), QueueOf(queues, h), Chosen(proposals + [p], IdsOf(next), h), next[h].rules)
    {
      if h < |groups| {
        assert Repaired(Before(before, h), QueueOf(queues, h), Chosen(proposals, ids, h), groups[h].rules);
        assert Chosen(proposals, ids, h) + [] == Chosen(proposals, ids, h);
      } else {
        assert [] + [p] == [p];
      }
    }
  }

  lemma FirstInNewGroup(p: Proposal, id: string)
    ensures Repaired([], [], [p], [RuleRecord(Some(id), p.body)])
  {
  }

  lemma PlaceStep(before: seq<Group>, queues: seq<seq<nat>>, proposals: seq<Proposal>, groups: seq<Group>, p: Proposal, id: string)
    requires Inside(before, queues) && AllRepaired(before, queues, proposals, groups)
    requires var g := Home(IdsOf(groups), p.groupId); g < |queues| ==> LeftOf(queues, proposals, IdsOf(groups), g) == []
    ensures StepDone(before, queues, proposals, groups, p, PlaceAtEnd(groups, p, id))
  {
    hide Chosen, Home, Repaired, StepDone, Inside;
    var ids := IdsOf(groups);
    var g := Home(ids, p.groupId);
    if g < |groups| {
      RepairedAdds(Before(before, g), QueueOf(queues, g), Chosen(proposals, ids, g), groups[g].rules, p, id);
      OneGroupStep(before, queues, proposals, groups, p, groups[g].rules + [RuleRecord(Some(id), p.body)]);
    } else {
      NewGroupStep(before, queues, proposals, groups, p, id);
    }
  }
}
