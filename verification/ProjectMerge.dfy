/** `mergeProjects` (`packages/requestly-import/src/merge.ts:19-98`) on the groups of two projects. Cloning
    through JSON and the other project fields are not part of this model. */
module ProjectMerge {
  import opened ProjectModel

  datatype MergeResult = LimitExceeded | Merged(groups: seq<Group>, renamed: nat)

  /** The same rule under an id and a name that may differ. */
  predicate SameRule(a: Rule, b: Rule) { a.priority == b.priority && a.body == b.body }

  predicate SameRules(a: seq<Rule>, b: seq<Rule>) {
    |a| == |b| && forall i :: 0 <= i < |a| ==> SameRule(a[i], b[i])
  }

  predicate SameGroups(a: seq<Group>, b: seq<Group>) {
    |a| == |b| && forall i :: 0 <= i < |a| ==> SameRules(a[i].rules, b[i].rules)
  }

  /** A valid id that is not in use yet is kept, any other is derived from the name. */
  ghost predicate IdKept(n: Naming, preferred: string, kind: EntityKind, id: string, name: string, used: multiset<string>) {
    id == if IsRogatioId(preferred) && preferred !in used then preferred else n.derive(name, kind, Support(used))
  }

  function Support(m: multiset<string>): set<string> { set x | x in m }

  function FirstRules(g: Group, n: nat): Group
    requires n <= |g.rules|
  {
    g.(rules := g.rules[..n])
  }

  /** In an appended group each id is kept if it was valid and free when its turn came, and each name is the free
      one for the name it had. */
  ghost predicate IdsKept(n: Naming, before: seq<Group>, group: Group, merged: Group) {
    && |merged.rules| <= |group.rules|
    && merged.name == n.unique(group.name, Support(AllKeys(n, before)))
    && IdKept(n, group.id, GroupEntity, merged.id, merged.name, AllIds(before))
    && forall i :: 0 <= i < |merged.rules| ==>
         RuleKept(n, before + [FirstRules(merged, i)], group.rules[i], merged.rules[i])
  }

  ghost predicate RuleKept(n: Naming, before: seq<Group>, rule: Rule, made: Rule) {
    && made.name == n.unique(rule.name, Support(AllKeys(n, before)))
    && IdKept(n, rule.id, RuleEntity, made.id, made.name, AllIds(before))
  }

  /** What is taken is what the groups hold; it is all distinct if it was distinct before. */
  ghost predicate Taken(n: Naming, ids: set<string>, names: set<string>, groups: seq<Group>, distinct: bool) {
    && IsSupport(ids, AllIds(groups)) && IsSupport(names, AllKeys(n, groups))
    && (distinct ==> DistinctIdentity(n, groups))
  }

  /** `retakeId`. */
  method RetakeId(n: Naming, preferred: string, name: string, kind: EntityKind, reserved: set<string>)
    returns (id: string, renamed: bool)
    requires IsFree(n)
    ensures id !in reserved
    ensures renamed <==> !(IsRogatioId(preferred) && preferred !in reserved)
    ensures id == if renamed then n.derive(name, kind, reserved) else preferred
  {
    if IsRogatioId(preferred) && preferred !in reserved {
      return preferred, false;
    }
    id, renamed := n.derive(name, kind, reserved), true;
  }

  method MergeGroup(n: Naming, group: Group, ids: set<string>, names: set<string>, ghost before: seq<Group>, ghost distinct: bool)
    returns (merged: Group, idsAfter: set<string>, namesAfter: set<string>, renamed: nat)
    requires IsFree(n) && Taken(n, ids, names, before, distinct)
    ensures SameRules(group.rules, merged.rules) && IdsKept(n, before, group, merged)
    ensures Taken(n, idsAfter, namesAfter, before + [merged], distinct)
    ensures renamed == 0 ==> merged == group
  {
    hide Taken, IsRogatioId, SameRule, IdsKept, AllIds;
    var name := n.unique(group.name, names);
    namesAfter := names + {n.norm(name)};
    var id, idRenamed := RetakeId(n, group.id, name, GroupEntity, ids);
    idsAfter := ids + {id};
    renamed := (if name != group.name then 1 else 0) + if idRenamed then 1 else 0;
    merged := Group(id, name, []);
    GroupTaken(n, ids, names, before, distinct, merged);
    FirstIdKept(n, ids, names, before, distinct, group, id, name);
    for i := 0 to |group.rules|
      invariant merged.id == id && merged.name == name && |merged.rules| == i
      invariant forall j :: 0 <= j < i ==> SameRule(group.rules[j], merged.rules[j])
      invariant Taken(n, idsAfter, namesAfter, before + [merged], distinct) && IdsKept(n, before, group, merged)
      invariant renamed == 0 ==> id == group.id && name == group.name && merged.rules == group.rules[..i]
    {
      var rule := group.rules[i];
      var ruleName := n.unique(rule.name, namesAfter);
      var ruleId, ruleRenamed := RetakeId(n, rule.id, ruleName, RuleEntity, idsAfter);
      var made := Rule(ruleId, ruleName, rule.priority, rule.body);
      RuleTaken(n, idsAfter, namesAfter, before, distinct, merged, made);
      NextIdKept(n, idsAfter, namesAfter, before, distinct, group, merged, made);
      SameAs(rule, made);
      namesAfter := namesAfter + {n.norm(ruleName)};
      idsAfter := idsAfter + {ruleId};
      renamed := renamed + (if ruleName != rule.name then 1 else 0) + if ruleRenamed then 1 else 0;
      merged := WithRule(merged, made);
      assert renamed == 0 ==> made == rule;
    }
    assert group.rules[..|group.rules|] == group.rules;
  }

  /** A merge keeps the existing groups as an unchanged prefix and appends every imported group, of whose
      entries only ids and names may differ; nothing differs when nothing was renamed. It is refused exactly
      when the two projects together are too large. An existing project whose ids and names are distinct
      stays so. */
  method MergeProjects(n: Naming, existing: seq<Group>, incoming: seq<Group>) returns (result: MergeResult)
    requires IsFree(n)
    ensures result.LimitExceeded? <==> !WithinLimits(existing + incoming)
    ensures result.Merged? ==>
              && existing <= result.groups && SameGroups(incoming, result.groups[|existing|..])
              && (DistinctIdentity(n, existing) ==> DistinctIdentity(n, result.groups))
              && (forall i :: 0 <= i < |incoming| ==>
                    IdsKept(n, result.groups[..|existing| + i], incoming[i], result.groups[|existing| + i]))
              && (result.renamed == 0 ==> result.groups == existing + incoming)
  {
    hide Taken, SameRules, WithinLimits, IdsKept, AllKept, AllIds, AllKeys, DistinctIdentity, IsSupport, IsFree;
    NoneKept(n, existing, incoming);
    var ids, names := CollectIdentity(n, existing);
    ghost var distinct := DistinctIdentity(n, existing);
    StartTaken(n, ids, names, existing);
    var appended: seq<Group> := [];
    var renamed := 0;
    assert existing + appended == existing;
    for i := 0 to |incoming|
      invariant |appended| == i && forall j :: 0 <= j < i ==> SameRules(incoming[j].rules, appended[j].rules)
      invariant Taken(n, ids, names, existing + appended, distinct)
      invariant AllKept(n, existing, incoming, appended)
      invariant renamed == 0 ==> appended == incoming[..i]
    {
      var merged, idsAfter, namesAfter, more := MergeGroup(n, incoming[i], ids, names, existing + appended, distinct);
      assert existing + (appended + [merged]) == existing + appended + [merged];
      OneMoreKept(n, existing, incoming, appended, merged);
      ids, names, appended, renamed := idsAfter, namesAfter, appended + [merged], renamed + more;
    }
    assert incoming[..|incoming|] == incoming;
    var groups := existing + appended;
    assert groups[|existing|..] == appended;
    AllKeptThere(n, existing, incoming, appended);
    SameLimits(existing, incoming, appended);
    EndTaken(n, ids, names, groups, distinct);
    var error := LimitError(groups);
    result := if error then LimitExceeded else Merged(groups, renamed);
  }

  // ----- steps of the proofs above

  /** What is taken are the names and ids in use. */
  lemma TakenIsSupport(n: Naming, ids: set<string>, names: set<string>, groups: seq<Group>, distinct: bool)
    requires Taken(n, ids, names, groups, distinct)
    ensures ids == Support(AllIds(groups)) && names == Support(AllKeys(n, groups))
    ensures forall x :: x in ids <==> x in AllIds(groups)
  {
    hide AllIds, AllKeys;
  }

  lemma FirstIdKept(n: Naming, ids: set<string>, names: set<string>, before: seq<Group>, distinct: bool, group: Group,
                    id: string, name: string)
    requires Taken(n, ids, names, before, distinct) && name == n.unique(group.name, names)
    requires id == if IsRogatioId(group.id) && group.id !in ids then group.id else n.derive(name, GroupEntity, ids)
    ensures IdsKept(n, before, group, Group(id, name, []))
  {
    hide AllIds, AllKeys, IsRogatioId, Support;
    TakenIsSupport(n, ids, names, before, distinct);
  }

  lemma NextIdKept(n: Naming, ids: set<string>, names: set<string>, before: seq<Group>, distinct: bool,
                   group: Group, merged: Group, made: Rule)
    requires Taken(n, ids, names, before + [merged], distinct) && IdsKept(n, before, group, merged)
    requires |merged.rules| < |group.rules| && made.name == n.unique(group.rules[|merged.rules|].name, names)
    requires var preferred := group.rules[|merged.rules|].id;
             made.id == if IsRogatioId(preferred) && preferred !in ids then preferred else n.derive(made.name, RuleEntity, ids)
    ensures IdsKept(n, before, group, WithRule(merged, made))
  {
    hide AllIds, AllKeys, IsRogatioId, Support, RuleKept;
    var next := WithRule(merged, made);
    RuleIsKept(n, ids, names, before + [merged], distinct, group.rules[|merged.rules|], made);
    forall i | 0 <= i < |next.rules| ensures RuleKept(n, before + [FirstRules(next, i)], group.rules[i], next.rules[i]) {
      if i < |merged.rules| {
        assert FirstRules(next, i) == FirstRules(merged, i);
        assert RuleKept(n, before + [FirstRules(merged, i)], group.rules[i], merged.rules[i]);
      } else {
        assert FirstRules(next, i) == merged;
      }
    }
  }

  lemma RuleIsKept(n: Naming, ids: set<string>, names: set<string>, before: seq<Group>, distinct: bool, rule: Rule, made: Rule)
    requires Taken(n, ids, names, before, distinct) && made.name == n.unique(rule.name, names)
    requires made.id == if IsRogatioId(rule.id) && rule.id !in ids then rule.id else n.derive(made.name, RuleEntity, ids)
    ensures RuleKept(n, before, rule, made)
  {
    hide AllIds, AllKeys, IsRogatioId, Support;
    TakenIsSupport(n, ids, names, before, distinct);
  }

  ghost predicate AllKept(n: Naming, existing: seq<Group>, incoming: seq<Group>, appended: seq<Group>) {
    && |appended| <= |incoming|
    && forall j :: 0 <= j < |appended| ==> IdsKept(n, existing + appended[..j], incoming[j], appended[j])
  }

  lemma NoneKept(n: Naming, existing: seq<Group>, incoming: seq<Group>)
    ensures AllKept(n, existing, incoming, [])
  {
  }

  lemma OneMoreKept(n: Naming, existing: seq<Group>, incoming: seq<Group>, appended: seq<Group>, merged: Group)
    requires AllKept(n, existing, incoming, appended) && |appended| < |incoming|
    requires IdsKept(n, existing + appended, incoming[|appended|], merged)
    ensures AllKept(n, existing, incoming, appended + [merged])
  {
    hide IdsKept;
    var more := appended + [merged];
    forall j | 0 <= j < |more| ensures IdsKept(n, existing + more[..j], incoming[j], more[j]) {
      if j < |appended| {
        assert more[..j] == appended[..j];
      } else {
        assert more[..j] == appended;
      }
    }
  }

  lemma AllKeptThere(n: Naming, existing: seq<Group>, incoming: seq<Group>, appended: seq<Group>)
    requires AllKept(n, existing, incoming, appended)
    ensures var groups := existing + appended;
            forall j :: 0 <= j < |appended| ==> IdsKept(n, groups[..|existing| + j], incoming[j], groups[|existing| + j])
  {
    hide IdsKept;
    var groups := existing + appended;
    forall j | 0 <= j < |appended| ensures IdsKept(n, groups[..|existing| + j], incoming[j], groups[|existing| + j]) {
      assert groups[..|existing| + j] == existing + appended[..j];
    }
  }

  lemma SameAs(a: Rule, b: Rule)
    requires a.priority == b.priority && a.body == b.body
    ensures SameRule(a, b)
  {
  }

  lemma StartTaken(n: Naming, ids: set<string>, names: set<string>, groups: seq<Group>)
    requires IsSupport(ids, AllIds(groups)) && IsSupport(names, AllKeys(n, groups))
    ensures Taken(n, ids, names, groups, DistinctIdentity(n, groups))
  {
  }

  lemma EndTaken(n: Naming, ids: set<string>, names: set<string>, groups: seq<Group>, distinct: bool)
    requires Taken(n, ids, names, groups, distinct)
    ensures distinct ==> DistinctIdentity(n, groups)
  {
  }

  lemma GroupTaken(n: Naming, ids: set<string>, names: set<string>, before: seq<Group>, distinct: bool, g: Group)
    requires Taken(n, ids, names, before, distinct) && g.rules == [] && g.id !in ids && n.norm(g.name) !in names
    ensures Taken(n, ids + {g.id}, names + {n.norm(g.name)}, before + [g], distinct)
  {
    hide AllIds, AllKeys, IsSupport, AllOnce;
    OneMoreGroup(n, before, g);
    assert AllIds(before + [g]) == AllIds(before) + multiset{g.id};
    assert AllKeys(n, before + [g]) == AllKeys(n, before) + multiset{n.norm(g.name)};
    Taking(ids, AllIds(before), distinct, g.id);
    Taking(names, AllKeys(n, before), distinct, n.norm(g.name));
  }

  lemma RuleTaken(n: Naming, ids: set<string>, names: set<string>, before: seq<Group>, distinct: bool, g: Group, r: Rule)
    requires Taken(n, ids, names, before + [g], distinct) && r.id !in ids && n.norm(r.name) !in names
    ensures Taken(n, ids + {r.id}, names + {n.norm(r.name)}, before + [WithRule(g, r)], distinct)
  {
    hide AllIds, AllKeys, IsSupport, AllOnce;
    var groups := before + [g];
    RuleAdded(n, groups, |before|, r);
    assert groups[|before| := WithRule(groups[|before|], r)] == before + [WithRule(g, r)];
    Taking(ids, AllIds(groups), distinct, r.id);
    Taking(names, AllKeys(n, groups), distinct, n.norm(r.name));
  }

  lemma Taking(s: set<string>, m: multiset<string>, distinct: bool, x: string)
    requires IsSupport(s, m) && x !in s
    ensures IsSupport(s + {x}, m + multiset{x})
    ensures AllOnce(m) ==> AllOnce(m + multiset{x})
  {
    SupportGrows(s, m, x);
    if AllOnce(m) {
      OnceGrows(s, m, x);
    }
  }

  lemma {:induction false} SameTotals(existing: seq<Group>, a: seq<Group>, b: seq<Group>)
    requires SameGroups(a, b)
    ensures Total(existing + a) == Total(existing + b)
    decreases |a|
  {
    if a == [] {
      assert existing + a == existing + b;
    } else {
      var n := |a| - 1;
      SameTotals(existing, a[..n], b[..n]);
      assert (existing + a)[..|existing| + n] == existing + a[..n];
      assert (existing + b)[..|existing| + n] == existing + b[..n];
    }
  }

  lemma SameLimits(existing: seq<Group>, incoming: seq<Group>, appended: seq<Group>)
    requires SameGroups(incoming, appended)
    ensures WithinLimits(existing + incoming) <==> WithinLimits(existing + appended)
  {
    SameTotals(existing, incoming, appended);
    forall i | 0 <= i < |existing| + |incoming|
      ensures |(existing + incoming)[i].rules| == |(existing + appended)[i].rules|
    {
    }
  }
}
