/** Groups and rules of a project as the Requestly import and merge see them
    (`packages/requestly-import/src/project.ts`, `packages/requestly-import/src/merge.ts`). */
module ProjectModel {
  const MAX_PRIORITY: nat := 1000
  const MIN_PRIORITY: nat := 1
  const MAX_GROUPS: nat := 64
  const MAX_RULES_PER_GROUP: nat := 256
  const MAX_RULES_PER_PROJECT: nat := 4096
  const MAX_ID_LENGTH: nat := 64

  /** `body` stands for everything about a rule that is neither id, name nor priority. */
  datatype Rule = Rule(id: string, name: string, priority: int, body: int)

  datatype Group = Group(id: string, name: string, rules: seq<Rule>)

  datatype EntityKind = GroupEntity | RuleEntity

  /** `normalizeNameKey`, `uniqueName` and `deriveEntityId`; the last two see what is taken already. */
  datatype Naming = Naming(
    norm: string -> string,
    unique: (string, set<string>) -> string,
    derive: (string, EntityKind, set<string>) -> string)

  /** Both come back with something that was not taken. */
  ghost predicate IsFree(n: Naming) {
    && (forall base: string, taken: set<string> :: n.norm(n.unique(base, taken)) !in taken)
    && (forall name: string, kind: EntityKind, taken: set<string> :: n.derive(name, kind, taken) !in taken)
  }

  predicate IsIdStart(c: char) { 'A' <= c <= 'Z' || 'a' <= c <= 'z' || '0' <= c <= '9' }

  predicate IsIdChar(c: char) { IsIdStart(c) || c == '.' || c == '_' || c == '-' }

  predicate IsRogatioId(s: string) {
    0 < |s| <= MAX_ID_LENGTH && IsIdStart(s[0]) && forall i :: 0 <= i < |s| ==> IsIdChar(s[i])
  }

  /** One to 64 letters, digits, dots, underscores and hyphens, the first a letter or digit. */
  lemma RogatioIdMeans(s: string)
    ensures IsRogatioId(s) <==>
            && 1 <= |s| <= 64 && s[0] !in "._-"
            && forall i :: 0 <= i < |s| ==>
                 'A' <= s[i] <= 'Z' || 'a' <= s[i] <= 'z' || '0' <= s[i] <= '9' || s[i] in "._-"
  {
  }

  // ----- identity, counted

  function RuleIds(rules: seq<Rule>): multiset<string> {
    if rules == [] then multiset{} else RuleIds(rules[..|rules| - 1]) + multiset{rules[|rules| - 1].id}
  }

  function RuleKeys(n: Naming, rules: seq<Rule>): multiset<string> {
    if rules == [] then multiset{} else RuleKeys(n, rules[..|rules| - 1]) + multiset{n.norm(rules[|rules| - 1].name)}
  }

  /** Every id of the groups and their rules, as often as it occurs. */
  function AllIds(groups: seq<Group>): multiset<string> {
    if groups == [] then multiset{}
    else
      var last := groups[|groups| - 1];
      AllIds(groups[..|groups| - 1]) + multiset{last.id} + RuleIds(last.rules)
  }

  /** Every normalized name of the groups and their rules, as often as it occurs. */
  function AllKeys(n: Naming, groups: seq<Group>): multiset<string> {
    if groups == [] then multiset{}
    else
      var last := groups[|groups| - 1];
      AllKeys(n, groups[..|groups| - 1]) + multiset{n.norm(last.name)} + RuleKeys(n, last.rules)
  }

  function Total(groups: seq<Group>): nat {
    if groups == [] then 0 else Total(groups[..|groups| - 1]) + |groups[|groups| - 1].rules|
  }

  ghost predicate AllOnce(m: multiset<string>) { forall x :: m[x] <= 1 }

  ghost predicate DistinctIdentity(n: Naming, groups: seq<Group>) {
    AllOnce(AllIds(groups)) && AllOnce(AllKeys(n, groups))
  }

  lemma OneMoreGroup(n: Naming, groups: seq<Group>, g: Group)
    ensures AllIds(groups + [g]) == AllIds(groups) + multiset{g.id} + RuleIds(g.rules)
    ensures AllKeys(n, groups + [g]) == AllKeys(n, groups) + multiset{n.norm(g.name)} + RuleKeys(n, g.rules)
    ensures Total(groups + [g]) == Total(groups) + |g.rules|
  {
    assert (groups + [g])[..|groups|] == groups;
  }

  lemma OneMoreRule(n: Naming, rules: seq<Rule>, r: Rule)
    ensures RuleIds(rules + [r]) == RuleIds(rules) + multiset{r.id}
    ensures RuleKeys(n, rules + [r]) == RuleKeys(n, rules) + multiset{n.norm(r.name)}
  {
    assert (rules + [r])[..|rules|] == rules;
  }

  function WithRule(g: Group, r: Rule): Group { g.(rules := g.rules + [r]) }

  lemma {:induction false} RuleAdded(n: Naming, groups: seq<Group>, i: nat, r: Rule)
    requires i < |groups|
    ensures var after := groups[i := WithRule(groups[i], r)];
            && AllIds(after) == AllIds(groups) + multiset{r.id}
            && AllKeys(n, after) == AllKeys(n, groups) + multiset{n.norm(r.name)}
            && Total(after) == Total(groups) + 1
    decreases |groups|
  {
    hide AllIds, AllKeys, Total, RuleIds, RuleKeys;
    var after, front, last := groups[i := WithRule(groups[i], r)], groups[..|groups| - 1], groups[|groups| - 1];
    OneMoreGroup(n, front, last);
    assert groups == front + [last];
    if i < |groups| - 1 {
      var frontAfter := front[i := WithRule(front[i], r)];
      RuleAdded(n, front, i, r);
      OneMoreGroup(n, frontAfter, last);
      assert after == frontAfter + [last];
    } else {
      OneMoreRule(n, last.rules, r);
      OneMoreGroup(n, front, WithRule(last, r));
      assert after == front + [WithRule(last, r)];
    }
  }

  // ----- limits

  predicate WithinLimits(groups: seq<Group>) {
    && |groups| <= MAX_GROUPS
    && (forall i :: 0 <= i < |groups| ==> |groups[i].rules| <= MAX_RULES_PER_GROUP)
    && Total(groups) <= MAX_RULES_PER_PROJECT
  }

  method LimitError(groups: seq<Group>) returns (error: bool)
    ensures error <==> !WithinLimits(groups)
  {
    if |groups| > MAX_GROUPS {
      return true;
    }
    var total := 0;
    for i := 0 to |groups|
      invariant total == Total(groups[..i])
      invariant forall j :: 0 <= j < i ==> |groups[j].rules| <= MAX_RULES_PER_GROUP
    {
      assert groups[..i + 1][..i] == groups[..i];
      if |groups[i].rules| > MAX_RULES_PER_GROUP {
        return true;
      }
      total := total + |groups[i].rules|;
    }
    assert groups[..|groups|] == groups;
    error := total > MAX_RULES_PER_PROJECT;
  }

  // ----- what is taken already

  /** `collectIdentity`. */
  method CollectIdentity(n: Naming, groups: seq<Group>) returns (ids: set<string>, names: set<string>)
    ensures IsSupport(ids, AllIds(groups)) && IsSupport(names, AllKeys(n, groups))
  {
    hide AllIds, AllKeys, RuleIds, RuleKeys, IsSupport;
    NothingTaken(n);
    ids, names := {}, {};
    for i := 0 to |groups|
      invariant IsSupport(ids, AllIds(groups[..i])) && IsSupport(names, AllKeys(n, groups[..i]))
    {
      var g := groups[i];
      assert groups[..i + 1] == groups[..i] + [g];
      OneMoreGroup(n, groups[..i], g);
      var ruleIds, ruleNames := CollectRules(n, g.rules);
      SupportsJoin(ids, AllIds(groups[..i]), g.id, ruleIds, RuleIds(g.rules));
      SupportsJoin(names, AllKeys(n, groups[..i]), n.norm(g.name), ruleNames, RuleKeys(n, g.rules));
      ids := ids + {g.id} + ruleIds;
      names := names + {n.norm(g.name)} + ruleNames;
    }
    assert groups[..|groups|] == groups;
  }

  method CollectRules(n: Naming, rules: seq<Rule>) returns (ids: set<string>, names: set<string>)
    ensures IsSupport(ids, RuleIds(rules)) && IsSupport(names, RuleKeys(n, rules))
  {
    hide IsSupport, RuleIds, RuleKeys;
    NothingTaken(n);
    ids, names := {}, {};
    for j := 0 to |rules|
      invariant IsSupport(ids, RuleIds(rules[..j])) && IsSupport(names, RuleKeys(n, rules[..j]))
    {
      assert rules[..j + 1] == rules[..j] + [rules[j]];
      OneMoreRule(n, rules[..j], rules[j]);
      SupportGrows(ids, RuleIds(rules[..j]), rules[j].id);
      SupportGrows(names, RuleKeys(n, rules[..j]), n.norm(rules[j].name));
      ids := ids + {rules[j].id};
      names := names + {n.norm(rules[j].name)};
    }
    assert rules[..|rules|] == rules;
  }

  /** `s` holds exactly what occurs in `m`. */
  ghost predicate IsSupport(s: set<string>, m: multiset<string>) { forall x :: x in s <==> x in m }

  lemma NothingTaken(n: Naming)
    ensures IsSupport({}, AllIds([])) && IsSupport({}, AllKeys(n, []))
    ensures IsSupport({}, RuleIds([])) && IsSupport({}, RuleKeys(n, []))
    ensures forall g: seq<Group> :: g[..0] == []
    ensures forall r: seq<Rule> :: r[..0] == []
  {
  }

  lemma SupportGrows(s: set<string>, m: multiset<string>, x: string)
    requires IsSupport(s, m)
    ensures IsSupport(s + {x}, m + multiset{x})
  {
  }

  lemma SupportsJoin(s: set<string>, m: multiset<string>, x: string, t: set<string>, k: multiset<string>)
    requires IsSupport(s, m) && IsSupport(t, k)
    ensures IsSupport(s + {x} + t, m + multiset{x} + k)
  {
  }

  lemma OnceGrows(s: set<string>, m: multiset<string>, x: string)
    requires IsSupport(s, m) && AllOnce(m) && x !in s
    ensures AllOnce(m + multiset{x})
  {
  }

  // ----- what is counted

  ghost predicate HasId(groups: seq<Group>, x: string) {
    exists g :: 0 <= g < |groups| && (groups[g].id == x || exists r :: 0 <= r < |groups[g].rules| && groups[g].rules[r].id == x)
  }

  ghost predicate HasKey(n: Naming, groups: seq<Group>, x: string) {
    exists g :: 0 <= g < |groups| && (n.norm(groups[g].name) == x
                                      || exists r :: 0 <= r < |groups[g].rules| && n.norm(groups[g].rules[r].name) == x)
  }

  lemma {:induction false} RulesCounted(n: Naming, rules: seq<Rule>)
    ensures |RuleIds(rules)| == |rules| && |RuleKeys(n, rules)| == |rules|
    ensures forall x :: x in RuleIds(rules) <==> exists r :: 0 <= r < |rules| && rules[r].id == x
    ensures forall x :: x in RuleKeys(n, rules) <==> exists r :: 0 <= r < |rules| && n.norm(rules[r].name) == x
    decreases |rules|
  {
    hide RuleIds, RuleKeys;
    if rules == [] {
      NothingTaken(n);
      NoneCounted(n);
    } else {
      var front, last := rules[..|rules| - 1], rules[|rules| - 1];
      RulesCounted(n, front);
      OneMoreRule(n, front, last);
      assert front + [last] == rules && forall r :: 0 <= r < |front| ==> rules[r] == front[r];
    }
  }

  lemma NoneCounted(n: Naming)
    ensures |RuleIds([])| == 0 && |RuleKeys(n, [])| == 0
  {
  }

  /** There are as many ids, and as many names, as groups and rules, and they are theirs. */
  lemma {:induction false} AllCounted(n: Naming, groups: seq<Group>)
    ensures |AllIds(groups)| == |groups| + Total(groups) && |AllKeys(n, groups)| == |groups| + Total(groups)
    ensures forall x :: x in AllIds(groups) <==> HasId(groups, x)
    ensures forall x :: x in AllKeys(n, groups) <==> HasKey(n, groups, x)
    decreases |groups|
  {
    hide RuleIds, RuleKeys, HasId, HasKey;
    if groups == [] {
      NothingHad(n);
    } else {
      var front, last := groups[..|groups| - 1], groups[|groups| - 1];
      AllCounted(n, front);
      RulesCounted(n, last.rules);
      HadBefore(n, front, last);
      assert front + [last] == groups;
    }
  }

  lemma NothingHad(n: Naming)
    ensures forall x :: !HasId([], x) && !HasKey(n, [], x)
  {
  }

  lemma HadBefore(n: Naming, front: seq<Group>, last: Group)
    ensures forall x :: HasId(front + [last], x) <==>
              HasId(front, x) || last.id == x || exists r :: 0 <= r < |last.rules| && last.rules[r].id == x
    ensures forall x :: HasKey(n, front + [last], x) <==>
              HasKey(n, front, x) || n.norm(last.name) == x || exists r :: 0 <= r < |last.rules| && n.norm(last.rules[r].name) == x
  {
    var groups := front + [last];
    assert groups[|front|] == last && forall g :: 0 <= g < |front| ==> groups[g] == front[g];
    forall x | HasId(front, x) ensures HasId(groups, x) {
      var g :| 0 <= g < |front| && (front[g].id == x || exists r :: 0 <= r < |front[g].rules| && front[g].rules[r].id == x);
      assert groups[g] == front[g];
    }
    forall x | HasKey(n, front, x) ensures HasKey(n, groups, x) {
      var g :| 0 <= g < |front| && (n.norm(front[g].name) == x
                                    || exists r :: 0 <= r < |front[g].rules| && n.norm(front[g].rules[r].name) == x);
      assert groups[g] == front[g];
    }
  }
}
