/** What one install guarantees, whichever calls the browser refuses, and what a restart finds again. */
module InstallTheorems {
  import opened MatchIndex
  import opened RuleIds
  import opened DnrInstaller

  // ----- the rules that were kept

  lemma {:induction false} KeptIsDesired(plan: seq<Planned>, refuses: Refusals, from: nat)
    requires Distinct(plan)
    ensures var kept := Kept(plan, refuses, from);
            forall id :: id in kept ==> id in Desired(plan) && kept[id] == Desired(plan)[id]
    decreases |plan|
  {
    if plan != [] {
      KeptIsDesired(plan[..|plan| - 1], refuses, from);
    }
  }

  /** A planned rule is kept exactly when its own update goes through. */
  lemma {:induction false} KeptIffAccepted(plan: seq<Planned>, refuses: Refusals, from: nat, i: nat)
    requires Distinct(plan) && i < |plan|
    ensures plan[i].id in Kept(plan, refuses, from) <==> !refuses(from + i)
    decreases |plan|
  {
    var front := plan[..|plan| - 1];
    KeptIsDesired(front, refuses, from);
    if i < |plan| - 1 {
      KeptIffAccepted(front, refuses, from, i);
      DistinctIds(plan, i, |plan| - 1);
    }
  }

  lemma {:induction false} KeptWhole(plan: seq<Planned>, refuses: Refusals, from: nat)
    requires forall n :: from <= n < from + |plan| ==> !refuses(n)
    ensures Kept(plan, refuses, from) == Desired(plan) && RefusedErrors(plan, refuses, from) == []
    decreases |plan|
  {
    if plan != [] {
      KeptWhole(plan[..|plan| - 1], refuses, from);
    }
  }

  lemma {:induction false} KeptNothing(plan: seq<Planned>, refuses: Refusals, from: nat)
    requires forall n :: from <= n < from + |plan| ==> refuses(n)
    ensures Kept(plan, refuses, from) == map[] && |RefusedErrors(plan, refuses, from)| == |plan|
    decreases |plan|
  {
    if plan != [] {
      KeptNothing(plan[..|plan| - 1], refuses, from);
    }
  }

  lemma DesiredOwned(ops: seq<Operation>)
    requires |ops| <= REDIRECT_QUERY_ID_MAX
    ensures Distinct(Plan(ops))
    ensures forall id :: id in Desired(Plan(ops)) ==> IsOwned(id)
  {
    hide Plan, Distinct, Desired, Ops, Selected;
    PlanMeaning(ops);
  }

  // ----- safety for every pattern of refusals

  /** Rules of others stay as they are. */
  lemma ForeignRulesStay(san: Sanitizer, w: World, ops: seq<Operation>, refuses: Refusals)
    requires |ops| <= REDIRECT_QUERY_ID_MAX
    ensures var after := Installed(san, w, ops, refuses);
            forall id :: !IsOwned(id) ==>
              (id in after.rules <==> id in w.rules) && (id in w.rules ==> after.rules[id] == w.rules[id])
  {
    hide Plan, Distinct, Desired, Kept, RefusedErrors, DynamicErrors, Reindexed;
    DesiredOwned(ops);
    KeptIsDesired(Plan(ops), refuses, FirstUpdate(w, Plan(ops)));
  }

  /** Every tracked id is live and carries the operation the plan gave it. */
  lemma TrackedIsLive(san: Sanitizer, w: World, ops: seq<Operation>, refuses: Refusals)
    requires |ops| <= REDIRECT_QUERY_ID_MAX
    ensures var after, plan := Installed(san, w, ops, refuses), Plan(ops);
            forall id :: id in after.tracked ==>
              && id in Desired(plan) && after.tracked[id] == Desired(plan)[id] && IsOwned(id)
              && id in after.rules && after.rules[id] == Ours(after.tracked[id])
  {
    hide Plan, Distinct, Desired, Kept, RefusedErrors, DynamicErrors, Reindexed, Orphans;
    DesiredOwned(ops);
    KeptIsDesired(Plan(ops), refuses, FirstUpdate(w, Plan(ops)));
  }

  /** An owned rule nobody planned is gone exactly when the orphan call went through. */
  lemma OrphansGoTogether(san: Sanitizer, w: World, ops: seq<Operation>, refuses: Refusals)
    requires |ops| <= REDIRECT_QUERY_ID_MAX
    ensures var after := Installed(san, w, ops, refuses);
            forall id :: id in Orphans(w.rules, Plan(ops)) ==> (id !in after.rules <==> !refuses(w.calls + 1))
  {
    hide Plan, Distinct, Desired, Kept, RefusedErrors, DynamicErrors, Reindexed, FirstUpdate, Orphans, Live;
    DesiredOwned(ops);
    var plan := Plan(ops);
    var kept := Kept(plan, refuses, FirstUpdate(w, plan));
    KeptIsDesired(plan, refuses, FirstUpdate(w, plan));
    OrphansApart(w.rules, plan, kept);
    AddKept(w.rules, Orphans(w.rules, plan), kept, refuses(w.calls + 1));
  }

  lemma OrphansApart(rules: map<int, DynamicRule>, plan: seq<Planned>, kept: map<int, Operation>)
    requires forall id :: id in kept ==> id in Desired(plan)
    ensures Orphans(rules, plan) <= rules.Keys && Orphans(rules, plan) !! kept.Keys
  {
  }

  lemma AddKept(rules: map<int, DynamicRule>, orphans: set<int>, kept: map<int, Operation>, refused: bool)
    requires orphans <= rules.Keys && orphans !! kept.Keys
    ensures var left := (if refused then rules else rules - orphans) + Live(kept);
            forall id :: id in orphans ==> (id !in left <==> !refused)
  {
  }

  /** Each planned rule is replaced or left as it was, and which of the two is up to its own update alone. */
  lemma EachRuleOnItsOwn(san: Sanitizer, w: World, ops: seq<Operation>, refuses: Refusals, i: nat)
    requires |ops| <= REDIRECT_QUERY_ID_MAX && i < |Plan(ops)|
    ensures var after, p, n := Installed(san, w, ops, refuses), Plan(ops)[i], FirstUpdate(w, Plan(ops));
            if refuses(n + i) then
              && p.id !in after.tracked
              && (p.id in after.rules <==> p.id in w.rules)
              && (p.id in w.rules ==> after.rules[p.id] == w.rules[p.id])
            else
              p.id in after.tracked && p.id in after.rules && after.rules[p.id] == Ours(p.op)
  {
    hide Plan, Distinct, Desired, Kept, RefusedErrors, DynamicErrors, Reindexed;
    var plan := Plan(ops);
    DesiredOwned(ops);
    KeptIsDesired(plan, refuses, FirstUpdate(w, plan));
    KeptIffAccepted(plan, refuses, FirstUpdate(w, plan), i);
    DesiredAt(plan, i);
  }

  lemma {:induction false} DesiredAt(plan: seq<Planned>, i: nat)
    requires Distinct(plan) && i < |plan|
    ensures plan[i].id in Desired(plan) && Desired(plan)[plan[i].id] == plan[i].op
    decreases |plan|
  {
    if i < |plan| - 1 {
      DesiredAt(plan[..|plan| - 1], i);
      DistinctIds(plan, i, |plan| - 1);
    }
  }

  /** When nothing is refused, exactly the desired rules are live in the owned bands, all are tracked, and
      the only errors are the dynamic values. */
  lemma InstallWithoutRefusal(san: Sanitizer, w: World, ops: seq<Operation>, refuses: Refusals)
    requires |ops| <= REDIRECT_QUERY_ID_MAX && forall n: nat :: n >= w.calls ==> !refuses(n)
    ensures var after, plan := Installed(san, w, ops, refuses), Plan(ops);
            && after.tracked == Desired(plan) && after.errors == DynamicErrors(ops)
            && (forall id :: IsOwned(id) ==>
                  (id in after.rules <==> id in Desired(plan))
                  && (id in after.rules ==> after.rules[id] == Ours(Desired(plan)[id])))
  {
    hide Plan, Distinct, Desired, Kept, RefusedErrors, DynamicErrors, Reindexed;
    KeptWhole(Plan(ops), refuses, FirstUpdate(w, Plan(ops)));
  }

  // ----- the index

  /** With every add refused, the stored index survives exactly as far as the code goes: untouched when
      there was no orphan, and without any entry of the installer's own bands when there was one, even
      though a refused rule may still be live under its old id. */
  lemma EveryAddRefused(san: Sanitizer, w: World, ops: seq<Operation>, refuses: Refusals)
    requires |ops| <= REDIRECT_QUERY_ID_MAX && ops != []
    requires var n := FirstUpdate(w, Plan(ops));
             (forall k :: n <= k < n + |Plan(ops)| ==> refuses(k)) && !refuses(n + |Plan(ops)| + 1)
    ensures var after := Installed(san, w, ops, refuses);
            if Orphans(w.rules, Plan(ops)) == {} then after.index == w.index
            else forall id :: id in after.index ==> IsBodyBand(id) || IsMockBand(id)
  {
    hide Plan, Distinct, Desired, Kept, RefusedErrors, DynamicErrors, Orphans;
    KeptNothing(Plan(ops), refuses, FirstUpdate(w, Plan(ops)));
  }

  predicate SameOperations(a: map<int, Operation>, b: map<int, Operation>) {
    (forall id :: id in a ==> id in b) && forall id :: id in b ==> id in a && a[id] == b[id]
  }

  /** Any such case: a header rule from before is live, an owned orphan is there, the replacement of the header
      rule is refused while the index can be written. The rule stays live and its index entry is gone. */
  lemma LiveRuleLosesItsEntry(san: Sanitizer, w: World, op: Operation, orphan: int, refuses: Refusals)
    requires IsHeader(op) && op.projectable && HEADER_ID_MIN in w.rules
    requires orphan in w.rules && IsOwned(orphan) && orphan != HEADER_ID_MIN
    requires refuses(w.calls + 2) && !refuses(w.calls + 4)
    ensures var after := Installed(san, w, [op], refuses);
            HEADER_ID_MIN in after.rules && after.rules[HEADER_ID_MIN] == w.rules[HEADER_ID_MIN]
            && HEADER_ID_MIN !in after.index
  {
    hide Installed, Plan, Desired, Kept, RefusedErrors, Place, HeaderPlan, Selected, Reindexed;
    HeaderAlone(op);
    OneDesired(Planned(HEADER_ID_MIN, op));
    assert orphan in Orphans(w.rules, Plan([op]));
    EveryAddRefused(san, w, [op], refuses);
    EachRuleOnItsOwn(san, w, [op], refuses, 0);
  }

  lemma OneDesired(p: Planned)
    ensures Desired([p]) == map[p.id := p.op]
  {
    assert [p][..0] == [];
  }

  lemma HeaderAlone(op: Operation)
    requires IsHeader(op) && op.projectable
    ensures Plan([op]) == [Planned(HEADER_ID_MIN, op)]
  {
    assert [op][..0] == [];
    assert Selected([], IsHeader) == [] && Place([]) == [] && HeaderPlan([]) == [];
    assert Selected([op], IsHeader) == [op];
  }

  const MAX_ID_LENGTH: nat := 64

  /** Log texts are cut far above the length a rule id may have. */
  ghost predicate KeepsIdentity(san: Sanitizer) {
    forall e: Entry :: san(e).kind == e.kind && (|e.ruleId| <= MAX_ID_LENGTH ==> san(e).ruleId == e.ruleId)
  }

  lemma {:induction false} ByRuleIdFinds(ops: seq<Operation>, op: Operation)
    requires DistinctRuleIds(ops) && op in ops && IsDynamicKind(op.kind)
    ensures op.ruleId in ByRuleId(ops) && ByRuleId(ops)[op.ruleId] == op
    decreases |ops|
  {
    var front, last := ops[..|ops| - 1], ops[|ops| - 1];
    if op in front {
      ByRuleIdFinds(front, op);
    }
  }

  lemma {:induction false} DesiredFromOps(plan: seq<Planned>)
    ensures forall id :: id in Desired(plan) ==> Desired(plan)[id] in Ops(plan)
    decreases |plan|
  {
    if plan != [] {
      DesiredFromOps(plan[..|plan| - 1]);
    }
  }

  lemma DesiredCompiled(ops: seq<Operation>)
    requires |ops| <= REDIRECT_QUERY_ID_MAX
    ensures forall id :: id in Desired(Plan(ops)) ==>
              && Desired(Plan(ops))[id] in ops && IsDynamicKind(Desired(Plan(ops))[id].kind)
              && !IsBodyBand(id) && !IsMockBand(id)
  {
    hide Plan, Distinct, Desired, Ops, Selected;
    PlanMeaning(ops);
    DesiredFromOps(Plan(ops));
    SelectedOnly(ops, IsRedirectOrQuery);
    SelectedOnly(ops, IsHeader);
    SelectedOnly(Selected(ops, IsHeader), IsProjectable);
  }

  /** A restart finds again exactly what an install tracked, whatever was refused, as long as the index
      was written: both bands start cold, the compiled operations are the same, rule ids are distinct and
      within their length, and the log sanitiser keeps kinds and such ids. */
  lemma RestartRecovers(san: Sanitizer, w: World, ops: seq<Operation>, refuses: Refusals)
    requires |ops| <= REDIRECT_QUERY_ID_MAX && DistinctRuleIds(ops) && KeepsIdentity(san)
    requires forall op :: op in ops ==> |op.ruleId| <= MAX_ID_LENGTH
    requires var after, n := Installed(san, w, ops, refuses), FirstUpdate(w, Plan(ops)) + |Plan(ops)|;
             after.calls == n + 2 && !refuses(n + 1)
    ensures var after := Installed(san, w, ops, refuses);
            SameOperations(Hydrated(after.rules.Keys, after.index, ByRuleId(ops), true, true), after.tracked)
  {
    hide Plan, Distinct, Desired, Kept, RefusedErrors, DynamicErrors, Orphans, ByRuleId, DistinctRuleIds, Wholesale,
         Sanitized, InBandOfKind, IsBodyBand, IsMockBand, IsDynamicKind, Live, Recovers, Hydrated, KeepsIdentity;
    var after, plan := Installed(san, w, ops, refuses), Plan(ops);
    TrackedIsLive(san, w, ops, refuses);
    DesiredCompiled(ops);
    DesiredBands(ops);
    forall id | id in after.tracked ensures Findable(id, after, ByRuleId(ops)) {
      ByRuleIdFinds(ops, after.tracked[id]);
    }
    RecoveredExactly(san, after, ByRuleId(ops), if refuses(FirstUpdate(w, plan) + |plan|) then map[] else w.index);
  }

  lemma DesiredBands(ops: seq<Operation>)
    requires |ops| <= REDIRECT_QUERY_ID_MAX
    ensures forall id :: id in Desired(Plan(ops)) ==> InBandOfKind(id, Desired(Plan(ops))[id].kind)
  {
    hide Plan, Distinct, Desired, Ops, Selected;
    PlanMeaning(ops);
    DesiredCompiled(ops);
  }

  predicate InBandOfKind(id: int, kind: Kind) {
    if kind.Header? then id >= HEADER_ID_MIN
    else 1 <= id <= REDIRECT_QUERY_ID_MAX && (kind.Redirect? || kind.Query?)
  }

  predicate Findable(id: int, after: World, byRuleId: map<string, Operation>)
    requires id in after.tracked
  {
    && id in after.rules && !IsBodyBand(id) && !IsMockBand(id)
    && InBandOfKind(id, after.tracked[id].kind) && |after.tracked[id].ruleId| <= MAX_ID_LENGTH
    && after.tracked[id].ruleId in byRuleId && byRuleId[after.tracked[id].ruleId] == after.tracked[id]
  }

  lemma RecoveredExactly(san: Sanitizer, after: World, byRuleId: map<string, Operation>, prior: Index)
    requires KeepsIdentity(san) && after.index == Sanitized(san, Wholesale(prior, after.tracked))
    requires forall id :: id in after.tracked ==> Findable(id, after, byRuleId)
    ensures SameOperations(Hydrated(after.rules.Keys, after.index, byRuleId, true, true), after.tracked)
  {
    hide Wholesale, Sanitized, Hydrated;
    var recovered := Hydrated(after.rules.Keys, after.index, byRuleId, true, true);
    RecoversTracked(san, after, byRuleId, prior, recovered);
    RecoversNoMore(san, after, byRuleId, prior, recovered);
  }

  lemma RecoversTracked(san: Sanitizer, after: World, byRuleId: map<string, Operation>, prior: Index,
                        recovered: map<int, Operation>)
    requires KeepsIdentity(san) && after.index == Sanitized(san, Wholesale(prior, after.tracked))
    requires forall id :: id in after.tracked ==> Findable(id, after, byRuleId)
    requires recovered == Hydrated(after.rules.Keys, after.index, byRuleId, true, true)
    ensures forall id :: id in after.tracked ==> id in recovered && recovered[id] == after.tracked[id]
  {
    forall id | id in after.tracked
      ensures id in after.index && after.index[id] == san(RawEntry(after.tracked[id]).value)
    {
      assert Findable(id, after, byRuleId);
    }
  }

  lemma RecoversNoMore(san: Sanitizer, after: World, byRuleId: map<string, Operation>, prior: Index,
                       recovered: map<int, Operation>)
    requires KeepsIdentity(san) && after.index == Sanitized(san, Wholesale(prior, after.tracked))
    requires recovered == Hydrated(after.rules.Keys, after.index, byRuleId, true, true)
    ensures forall id :: id in recovered ==> id in after.tracked
  {
    forall id | id in after.index && id !in after.tracked ensures !Recovers(id, after.index[id], byRuleId, true, true) {
      assert Preserved(id, prior[id]) && after.index[id] == san(prior[id]);
    }
  }
}
