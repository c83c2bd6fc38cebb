/** `importRequestlyExport` (`packages/requestly-import/src/project.ts:84-292`). Parsing and mapping of single
    records are not part of this model: a parsed rule brings its drafts, already labelled. */
module RequestlyImport {
  import opened Options
  import opened ProjectModel
  import opened Listing

  datatype Draft = Draft(title: string, keepId: bool, body: int)

  /** `mapped` is `None` for a rule the importer cannot map; `changed` says whether mapping, an inactive flag
      or a description already calls for a note. */
  datatype ParsedRule = ParsedRule(id: Option<string>, groupId: string, mapped: Option<seq<Draft>>, changed: bool)

  datatype ParsedGroup = ParsedGroup(id: string, name: string, inactive: bool)

  datatype Export = Export(groups: seq<ParsedGroup>, rules: seq<ParsedRule>, unknown: nat)

  datatype Status = Imported | Changed | Skipped

  datatype Row = Row(status: Status, ids: seq<string>)

  datatype ImportResult =
    | LimitExceeded
    | Converted(groups: seq<Group>, rows: seq<Row>, imported: nat, changed: nat, skipped: nat, floorNote: bool)

  /** One rule the import produced, and the group it went to. */
  datatype Placed = Placed(rule: Rule, place: nat)

  function PriorityAt(k: nat): int {
    if MAX_PRIORITY - k >= MIN_PRIORITY then MAX_PRIORITY - k else MIN_PRIORITY
  }

  /** The produced rules of one group, in the order they were produced. */
  function RulesAt(trace: seq<Placed>, place: nat): seq<Rule> {
    if trace == [] then []
    else
      var last := trace[|trace| - 1];
      RulesAt(trace[..|trace| - 1], place) + if last.place == place then [last.rule] else []
  }

  function TraceIds(trace: seq<Placed>): (r: seq<string>)
    ensures |r| == |trace|
  {
    seq(|trace|, i requires 0 <= i < |trace| => trace[i].rule.id)
  }

  function RowIds(rows: seq<Row>): seq<string> {
    if rows == [] then [] else RowIds(rows[..|rows| - 1]) + rows[|rows| - 1].ids
  }

  function Count(rows: seq<Row>, status: Status): nat {
    if rows == [] then 0
    else Count(rows[..|rows| - 1], status) + if rows[|rows| - 1].status == status then 1 else 0
  }

  /** The parsed groups that get a group of their own: the first of each id. */
  function Slots(groups: seq<ParsedGroup>): seq<ParsedGroup> {
    if groups == [] then []
    else
      var before, last := Slots(groups[..|groups| - 1]), groups[|groups| - 1];
      if SlotOf(before, last.id) < |before| then before else before + [last]
  }

  /** Where rules of that group id go; past the end is the ungrouped bucket. */
  function SlotOf(slots: seq<ParsedGroup>, groupId: string): (k: nat)
    ensures k <= |slots| && (k < |slots| ==> slots[k].id == groupId)
    ensures forall i :: 0 <= i < k ==> slots[i].id != groupId
  {
    if slots == [] || slots[0].id == groupId then 0 else 1 + SlotOf(slots[1..], groupId)
  }

  /** A draft and the parsed rule it comes from. */
  datatype Source = Source(rule: ParsedRule, draft: Draft)

  function SourcesOf(rule: ParsedRule): seq<Source> {
    if rule.mapped.None? then []
    else
      var drafts := rule.mapped.value;
      seq(|drafts|, i requires 0 <= i < |drafts| => Source(rule, drafts[i]))
  }

  /** All drafts in export order. */
  function AllSources(rules: seq<ParsedRule>): seq<Source> {
    if rules == [] then [] else AllSources(rules[..|rules| - 1]) + SourcesOf(rules[|rules| - 1])
  }

  predicate ComesFrom(slots: seq<ParsedGroup>, source: Source, placed: Placed) {
    placed.rule.body == source.draft.body && placed.place == SlotOf(slots, source.rule.groupId)
  }

  /** The k-th produced rule is the k-th draft, in the group its rule names. */
  ghost predicate InExportOrder(slots: seq<ParsedGroup>, sources: seq<Source>, trace: seq<Placed>) {
    |sources| == |trace| && forall k :: 0 <= k < |trace| ==> ComesFrom(slots, sources[k], trace[k])
  }

  /** How many drafts go to a group. */
  function CountAt(slots: seq<ParsedGroup>, sources: seq<Source>, place: nat): nat {
    if sources == [] then 0
    else
      CountAt(slots, sources[..|sources| - 1], place)
      + if SlotOf(slots, sources[|sources| - 1].rule.groupId) == place then 1 else 0
  }

  /** The ungrouped bucket counts only when something goes to it. */
  function GroupsNeeded(slots: seq<ParsedGroup>, sources: seq<Source>): nat {
    |slots| + if CountAt(slots, sources, |slots|) > 0 then 1 else 0
  }

  /** The export is small enough: groups, drafts of each group, and drafts in all. */
  predicate Fits(e: Export) {
    var slots, sources := Slots(e.groups), AllSources(e.rules);
    && GroupsNeeded(slots, sources) <= MAX_GROUPS
    && |sources| <= MAX_RULES_PER_PROJECT
    && forall g :: 0 <= g <= |slots| ==> CountAt(slots, sources, g) <= MAX_RULES_PER_GROUP
  }

  /** The made rule has another name or, where the id was to be kept, another id. */
  predicate Altered(rule: ParsedRule, draft: Draft, made: Rule) {
    made.name != draft.title || (draft.keepId && rule.id.Some? && made.id != rule.id.value)
  }

  predicate BadGroup(slots: seq<ParsedGroup>, groupId: string) {
    var k := SlotOf(slots, groupId);
    if k < |slots| then slots[k].inactive else groupId != ""
  }

  function DraftsOf(rule: ParsedRule): seq<Draft> {
    if rule.mapped.Some? then rule.mapped.value else []
  }

  /** The row of a parsed rule whose drafts became the produced rules from number `from` on. */
  predicate RowRight(slots: seq<ParsedGroup>, rule: ParsedRule, row: Row, trace: seq<Placed>, from: nat) {
    var drafts := DraftsOf(rule);
    && |row.ids| == |drafts| && from + |drafts| <= |trace|
    && (forall j :: 0 <= j < |drafts| ==> row.ids[j] == trace[from + j].rule.id)
    && (row.status == Skipped <==> drafts == [])
    && (drafts != [] ==>
          (row.status == Imported <==>
           !rule.changed && !BadGroup(slots, rule.groupId)
           && forall j :: 0 <= j < |drafts| ==> !Altered(rule, drafts[j], trace[from + j].rule)))
  }

  /** Where the drafts of each parsed rule start. */
  predicate Laid(rules: seq<ParsedRule>, starts: seq<nat>) {
    && |starts| == |rules| + 1 && starts[0] == 0
    && forall i :: 0 <= i < |rules| ==> starts[i + 1] == starts[i] + |DraftsOf(rules[i])|
  }

  predicate SameHeads(a: seq<Group>, b: seq<Group>) {
    |a| <= |b| && forall g :: 0 <= g < |a| ==> a[g].id == b[g].id && a[g].name == b[g].name
  }

  /** Group by group: a free name, and the id of the export where it is valid and free. */
  ghost predicate GroupsMade(n: Naming, slots: seq<ParsedGroup>, groups: seq<Group>) {
    |slots| <= |groups| && forall g :: 0 <= g < |slots| ==> GroupMade(n, slots[g], groups[g], groups[..g])
  }

  ghost predicate GroupMade(n: Naming, slot: ParsedGroup, made: Group, before: seq<Group>) {
    var ids, names := (set i | 0 <= i < |before| :: before[i].id), (set i | 0 <= i < |before| :: n.norm(before[i].name));
    && made.name == n.unique(slot.name, names)
    && made.id == if IsRogatioId(slot.id) && slot.id !in ids then slot.id else n.derive(made.name, GroupEntity, ids)
  }

  ghost predicate SitsWell(n: Naming, ids: set<string>, names: set<string>, groups: seq<Group>) {
    && IsSupport(ids, AllIds(groups)) && AllOnce(AllIds(groups))
    && IsSupport(names, AllKeys(n, groups)) && AllOnce(AllKeys(n, groups))
  }

  /** The groups hold the produced rules, each in its place and in order. */
  ghost predicate Filled(trace: seq<Placed>, groups: seq<Group>) {
    && (forall g :: 0 <= g < |groups| ==> groups[g].rules == RulesAt(trace, g))
    && (forall k :: 0 <= k < |trace| ==> trace[k].place < |groups|)
  }

  ghost predicate Prioritised(trace: seq<Placed>) {
    forall k :: 0 <= k < |trace| ==> trace[k].rule.priority == PriorityAt(k)
  }

  /** The bucket map and the inactive flags agree with the slots. */
  ghost predicate Bucketed(slots: seq<ParsedGroup>, buckets: map<string, nat>, inactive: seq<bool>) {
    && |inactive| == |slots|
    && (forall i :: 0 <= i < |slots| ==>
          slots[i].id in buckets && buckets[slots[i].id] == i && inactive[i] == slots[i].inactive && slots[i].id != "")
    && (forall id :: id in buckets ==> buckets[id] < |slots| && slots[buckets[id]].id == id)
  }

  class Importer {
    const n: Naming
    var ids: set<string>
    var names: set<string>
    var ordered: seq<Group>
    var inactive: seq<bool>
    var buckets: map<string, nat>
    var ungrouped: Option<Group>
    var priority: int
    var assignedAtFloor: nat
    ghost var trace: seq<Placed>
    ghost var slots: seq<ParsedGroup>
    ghost var sources: seq<Source>

    ghost function All(): seq<Group>
      reads this
    {
      ordered + if ungrouped.Some? then [ungrouped.value] else []
    }

    ghost predicate Valid()
      reads this
    {
      && IsFree(n) && SitsWell(n, ids, names, All())
      && |slots| == |ordered| && Bucketed(slots, buckets, inactive) && InExportOrder(slots, sources, trace)
      && Filled(trace, All()) && Prioritised(trace) && priority == PriorityAt(|trace|)
      && Total(All()) == |trace|
      && assignedAtFloor == if |trace| >= MAX_PRIORITY then |trace| - MAX_PRIORITY + 1 else 0
    }

    constructor (n: Naming)
      requires IsFree(n)
      ensures Valid() && trace == [] && sources == [] && slots == [] && this.n == n && ordered == [] && ungrouped == None
    {
      this.n := n;
      ids, names, ordered, inactive, buckets, ungrouped := {}, {}, [], [], map[], None;
      priority, assignedAtFloor, trace, slots, sources := MAX_PRIORITY, 0, [], [], [];
      new;
      NothingTaken(n);
      assert Total([]) == 0;
    }

    /** `takeId`. */
    method TakeId(preferred: Option<string>, name: string, kind: EntityKind, keep: bool) returns (id: string)
      requires IsFree(n)
      modifies this`ids
      ensures id !in old(ids) && ids == old(ids) + {id}
      ensures id == if keep && preferred.Some? && IsRogatioId(preferred.value) && preferred.value !in old(ids)
                    then preferred.value else n.derive(name, kind, old(ids))
    {
      if keep && preferred.Some? && IsRogatioId(preferred.value) && preferred.value !in ids {
        id := preferred.value;
      } else {
        id := n.derive(name, kind, ids);
      }
      ids := ids + {id};
    }

    method TakeName(base: string) returns (name: string)
      requires IsFree(n)
      modifies this`names
      ensures name == n.unique(base, old(names))
      ensures n.norm(name) !in old(names) && names == old(names) + {n.norm(name)}
    {
      name := n.unique(base, names);
      names := names + {n.norm(name)};
    }

    method AddGroup(group: ParsedGroup)
      requires Valid() && ungrouped.None? && trace == [] && group.id != ""
      modifies this
      ensures Valid() && ungrouped.None? && trace == []
      ensures slots == old(slots) + if SlotOf(old(slots), group.id) < |old(slots)| then [] else [group]
      ensures if SlotOf(old(slots), group.id) < |old(slots)| then ordered == old(ordered)
              else
                && |ordered| == |old(ordered)| + 1 && ordered[..|old(ordered)|] == old(ordered)
                && var made := ordered[|old(ordered)|];
                   && made.rules == [] && made.name == n.unique(group.name, old(names))
                   && made.id == if IsRogatioId(group.id) && group.id !in old(ids) then group.id
                                 else n.derive(made.name, GroupEntity, old(ids))
      ensures old(GroupsMade(n, slots, ordered)) ==> GroupsMade(n, slots, ordered)
    {
      hide SitsWell, Filled, Prioritised, Bucketed, SlotOf, IsRogatioId, IsFree, AllIds, AllKeys, Total, PriorityAt, GroupsMade;

      assert All() == ordered;
      TakenByGroups(n, ids, names, ordered, trace);
      BucketIsSlot(slots, buckets, inactive, group.id);
      if group.id in buckets {
        return;
      }
      var name := TakeName(group.name);
      var id := TakeId(Some(group.id), name, GroupEntity, true);
      EmptyGroupAdded(n, old(ids), old(names), All(), trace, Group(id, name, []));
      ordered, inactive := ordered + [Group(id, name, [])], inactive + [group.inactive];
      NewBucket(slots, buckets, old(inactive), group);
      NewGroupMade(n, slots, old(ordered), group, ordered[|old(ordered)|], old(ids), old(names));
      slots := slots + [group];
      buckets := buckets[group.id := |ordered| - 1];
      assert All() == old(All()) + [Group(id, name, [])];
    }

    method EnsureUngrouped()
      requires Valid()
      modifies this
      ensures Valid() && ungrouped.Some? && trace == old(trace) && sources == old(sources) && slots == old(slots)
      ensures ordered == old(ordered) && inactive == old(inactive) && buckets == old(buckets)
      ensures SameHeads(old(All()), All())
    {
      hide SitsWell, Filled, Bucketed, InExportOrder;
      if ungrouped.Some? {
        return;
      }
      var name := TakeName("Ungrouped");
      var id := TakeId(Some("Ungrouped"), name, GroupEntity, true);
      EmptyGroupAdded(n, old(ids), old(names), All(), trace, Group(id, name, []));
      ungrouped := Some(Group(id, name, []));
      assert All() == old(All()) + [Group(id, name, [])];
    }

    /** The rule goes to the end of its group. */
    method Push(made: Rule, place: nat)
      requires place < |All()|
      modifies this`ordered, this`ungrouped, this`trace
      ensures All() == old(All())[place := WithRule(old(All())[place], made)]
      ensures |ordered| == old(|ordered|) && ungrouped.Some? == old(ungrouped.Some?)
      ensures trace == old(trace) + [Placed(made, place)] && SameHeads(old(All()), All())
    {
      if place < |ordered| {
        ordered := ordered[place := WithRule(ordered[place], made)];
      } else {
        ungrouped := Some(WithRule(ungrouped.value, made));
      }
      trace := trace + [Placed(made, place)];
    }

    /** The rule made of a draft takes a free name, a free id and the next priority. */
    method MakeRule(rule: ParsedRule, draft: Draft) returns (made: Rule, changed: bool)
      requires IsFree(n) && priority == PriorityAt(|trace|)
      requires assignedAtFloor == if |trace| >= MAX_PRIORITY then |trace| - MAX_PRIORITY + 1 else 0
      modifies this`ids, this`names, this`priority, this`assignedAtFloor
      ensures made.id !in old(ids) && ids == old(ids) + {made.id}
      ensures n.norm(made.name) !in old(names) && names == old(names) + {n.norm(made.name)}
      ensures made.priority == PriorityAt(|trace|) && made.body == draft.body
      ensures priority == PriorityAt(|trace| + 1)
      ensures assignedAtFloor == if |trace| + 1 >= MAX_PRIORITY then |trace| + 1 - MAX_PRIORITY + 1 else 0
      ensures changed <==> Altered(rule, draft, made)
      ensures made.name == n.unique(draft.title, old(names))
      ensures made.id == if draft.keepId && rule.id.Some? && IsRogatioId(rule.id.value) && rule.id.value !in old(ids)
                         then rule.id.value else n.derive(made.name, RuleEntity, old(ids))
    {
      hide IsRogatioId;
      var name := TakeName(draft.title);
      var id := TakeId(rule.id, name, RuleEntity, draft.keepId);
      changed := name != draft.title || (draft.keepId && rule.id.Some? && id != rule.id.value);
      made := Rule(id, name, priority, draft.body);
      if priority == MIN_PRIORITY {
        assignedAtFloor := assignedAtFloor + 1;
      } else {
        priority := priority - 1;
      }
    }

    /** One draft becomes one rule at the end of its group. */
    method AddRule(rule: ParsedRule, draft: Draft, place: nat) returns (made: Rule, changed: bool)
      requires Valid() && place < |All()| && place == SlotOf(slots, rule.groupId)
      modifies this
      ensures slots == old(slots) && sources == old(sources) + [Source(rule, draft)]
      ensures changed <==> Altered(rule, draft, made)
      ensures Valid() && |All()| == old(|All()|) && |ordered| == old(|ordered|) && ungrouped.Some? == old(ungrouped.Some?)
      ensures inactive == old(inactive) && buckets == old(buckets) && SameHeads(old(All()), All())
      ensures trace == old(trace) + [Placed(made, place)] && made.body == draft.body
      ensures made.name == n.unique(draft.title, old(names))
      ensures made.id == if draft.keepId && rule.id.Some? && IsRogatioId(rule.id.value) && rule.id.value !in old(ids)
                         then rule.id.value else n.derive(made.name, RuleEntity, old(ids))
    {
      hide SitsWell, Filled, Prioritised, IsRogatioId, AllIds, AllKeys, Total, Bucketed, InExportOrder, SlotOf, PriorityAt,
           Altered, IsFree;
      ghost var groups := All();
      made, changed := MakeRule(rule, draft);
      RuleTaken(n, old(ids), old(names), groups, place, made);
      RulePlaced(trace, groups, place, made);
      RulePrioritised(trace, Placed(made, place));
      RuleAdded(n, groups, place, made);
      OneMoreInOrder(slots, sources, trace, Source(rule, draft), Placed(made, place));
      sources := sources + [Source(rule, draft)];
      assert All() == groups;
      Push(made, place);
    }

    /** `placeRule` for a rule that could be mapped: its group, and whether that or the mapping calls for a note. */
    method PlaceRule(rule: ParsedRule) returns (place: nat, changed: bool)
      requires Valid()
      modifies this
      ensures Valid() && slots == old(slots) && sources == old(sources) && trace == old(trace) && |ordered| == old(|ordered|)
      ensures place < |All()| && place == SlotOf(slots, rule.groupId) && SameHeads(old(All()), All())
      ensures changed <==> rule.changed || BadGroup(slots, rule.groupId)
    {
      hide SitsWell, Filled, Prioritised, Total, Bucketed, InExportOrder, SlotOf, IsFree, PriorityAt;
      BucketIsSlot(slots, buckets, inactive, rule.groupId);
      var known := rule.groupId != "" && rule.groupId in buckets;
      changed := rule.changed || (rule.groupId != "" && !known);
      if !known {
        EnsureUngrouped();
      }
      place := if known then buckets[rule.groupId] else |ordered|;
      if known && inactive[place] {
        changed := true;
      }
    }

    /** One parsed rule: its place, its drafts, and the row of the report. */
    method AddParsedRule(rule: ParsedRule) returns (row: Row)
      requires Valid()
      modifies this
      ensures Valid() && old(trace) <= trace && |trace| == |old(trace)| + |row.ids|
      ensures slots == old(slots) && sources == old(sources) + SourcesOf(rule) && |ordered| == old(|ordered|)
      ensures SameHeads(old(All()), All()) && RowRight(slots, rule, row, trace, |old(trace)|)
    {
      hide SitsWell, Filled, Prioritised, Total, Bucketed, InExportOrder, SlotOf, Altered, IsFree, PriorityAt, BadGroup, SameHeads;
      if rule.mapped.None? {
        HeadsSame(All());
        return Row(Skipped, []);
      }
      var place, changed := PlaceRule(rule);
      ghost var placed := All();
      var ids, altered := AddDrafts(rule, place);
      HeadsTwice(old(All()), placed, All());
      row := Row(if ids == [] then Skipped else if changed || altered then Changed else Imported, ids);
    }

    /** The drafts of one parsed rule, one after the other. */
    method AddDrafts(rule: ParsedRule, place: nat) returns (ids: seq<string>, altered: bool)
      requires Valid() && place < |All()| && place == SlotOf(slots, rule.groupId) && rule.mapped.Some?
      modifies this
      ensures Valid() && slots == old(slots) && |ordered| == old(|ordered|) && sources == old(sources) + SourcesOf(rule)
      ensures old(trace) <= trace && |trace| == |old(trace)| + |ids| && |ids| == |rule.mapped.value|
      ensures forall j :: 0 <= j < |ids| ==> ids[j] == trace[|old(trace)| + j].rule.id
      ensures altered <==> exists j :: 0 <= j < |ids| && Altered(rule, rule.mapped.value[j], trace[|old(trace)| + j].rule)
      ensures SameHeads(old(All()), All())
    {
      hide SitsWell, Filled, Prioritised, Total, Bucketed, InExportOrder, SlotOf, Altered, IsFree, PriorityAt, IsRogatioId,
           SameHeads;
      var drafts := rule.mapped.value;
      ids, altered := [], false;
      HeadsSame(All());
      for i := 0 to |drafts|
        invariant Valid() && place < |All()| && |ids| == i && slots == old(slots) && place == SlotOf(slots, rule.groupId)
        invariant old(trace) <= trace && |trace| == |old(trace)| + i && |ordered| == old(|ordered|)
        invariant forall j :: 0 <= j < i ==> ids[j] == trace[|old(trace)| + j].rule.id
        invariant sources == old(sources) + SourcesOf(rule)[..i] && SameHeads(old(All()), All())
        invariant altered <==> exists j :: 0 <= j < i && Altered(rule, drafts[j], trace[|old(trace)| + j].rule)
      {
        ghost var before := All();
        var made, changed := AddRule(rule, drafts[i], place);
        HeadsTwice(old(All()), before, All());
        altered := altered || changed;
        ids := ids + [made.id];
      }
    }
  }

  lemma HeadsSame(a: seq<Group>)
    ensures SameHeads(a, a)
  {
  }

  lemma HeadsTwice(a: seq<Group>, b: seq<Group>, c: seq<Group>)
    requires SameHeads(a, b) && SameHeads(b, c)
    ensures SameHeads(a, c)
  {
  }

  // ----- the whole import

  method ReadGroups(n: Naming, groups: seq<ParsedGroup>) returns (importer: Importer)
    requires IsFree(n) && forall i :: 0 <= i < |groups| ==> groups[i].id != ""
    ensures fresh(importer) && importer.n == n && importer.Valid() && importer.trace == [] && importer.ungrouped.None?
    ensures importer.slots == Slots(groups) && GroupsMade(n, importer.slots, importer.ordered)
  {
    hide SitsWell, Filled, Prioritised, Bucketed, InExportOrder, IsFree, IsRogatioId, Total, GroupMade, Slots, SlotOf, PriorityAt;
    importer := new Importer(n);
    SlotsUnfold([]);
    assert groups[..0] == [];
    for i := 0 to |groups|
      invariant fresh(importer) && importer.n == n && importer.Valid() && importer.trace == [] && importer.ungrouped.None?
      invariant importer.slots == Slots(groups[..i]) && GroupsMade(n, importer.slots, importer.ordered)
    {
      assert groups[..i + 1][..i] == groups[..i];
      SlotsUnfold(groups[..i + 1]);
      importer.AddGroup(groups[i]);
    }
    assert groups[..|groups|] == groups;
  }

  method ReadRules(importer: Importer, rules: seq<ParsedRule>) returns (rows: seq<Row>, ghost starts: seq<nat>)
    requires importer.Valid() && importer.trace == []
    modifies importer
    ensures importer.Valid() && |importer.ordered| == old(|importer.ordered|)
    ensures importer.slots == old(importer.slots) && importer.sources == AllSources(rules)
    ensures SameHeads(old(importer.All()), importer.All())
    ensures Laid(rules, starts) && starts[|rules|] == |importer.trace|
    ensures RowsRight(importer.slots, rules, rows, importer.trace, starts)
  {
    hide Filled, Prioritised, SitsWell, Total, Bucketed, RowRight, SameHeads;
    rows, starts := [], [0];
    assert rules[..0] == [];
    HeadsSame(importer.All());
    for i := 0 to |rules|
      invariant importer.slots == old(importer.slots) && importer.sources == AllSources(rules[..i])
      invariant importer.Valid() && |importer.ordered| == old(|importer.ordered|)
      invariant SameHeads(old(importer.All()), importer.All())
      invariant Laid(rules[..i], starts) && starts[i] == |importer.trace|
      invariant RowsRight(importer.slots, rules[..i], rows, importer.trace, starts)
    {
      assert rules[..i + 1] == rules[..i] + [rules[i]];
      ghost var heads, trace := importer.All(), importer.trace;
      var row := importer.AddParsedRule(rules[i]);
      HeadsTwice(old(importer.All()), heads, importer.All());
      RowHasLength(importer.slots, rules[i], row, importer.trace, |trace|);
      MoreRows(importer.slots, rules[..i], rows, trace, starts, rules[i], row, importer.trace);
      rows, starts := rows + [row], starts + [|importer.trace|];
    }
    assert rules[..|rules|] == rules;
  }

  ghost predicate RowsRight(slots: seq<ParsedGroup>, rules: seq<ParsedRule>, rows: seq<Row>, trace: seq<Placed>, starts: seq<nat>) {
    && |rows| == |rules| && |starts| == |rules| + 1
    && forall i :: 0 <= i < |rules| ==> RowRight(slots, rules[i], rows[i], trace, starts[i])
  }

  lemma RowHasLength(slots: seq<ParsedGroup>, rule: ParsedRule, row: Row, trace: seq<Placed>, from: nat)
    requires RowRight(slots, rule, row, trace, from)
    ensures |row.ids| == |DraftsOf(rule)|
  {
  }

  lemma RowStaysRight(slots: seq<ParsedGroup>, rule: ParsedRule, row: Row, trace: seq<Placed>, from: nat, longer: seq<Placed>)
    requires RowRight(slots, rule, row, trace, from) && trace <= longer
    ensures RowRight(slots, rule, row, longer, from)
  {
    hide Altered, BadGroup;
  }

  lemma MoreRows(slots: seq<ParsedGroup>, rules: seq<ParsedRule>, rows: seq<Row>, trace: seq<Placed>, starts: seq<nat>,
                 rule: ParsedRule, row: Row, longer: seq<Placed>)
    requires Laid(rules, starts) && RowsRight(slots, rules, rows, trace, starts) && starts[|rules|] == |trace|
    requires trace <= longer && |longer| == |trace| + |DraftsOf(rule)| && RowRight(slots, rule, row, longer, |trace|)
    ensures Laid(rules + [rule], starts + [|longer|])
    ensures RowsRight(slots, rules + [rule], rows + [row], longer, starts + [|longer|])
  {
    hide RowRight;
    forall i | 0 <= i < |rules| ensures RowRight(slots, rules[i], rows[i], longer, starts[i]) {
      RowStaysRight(slots, rules[i], rows[i], trace, starts[i], longer);
    }
  }

  method AddUnknown(known: seq<Row>, unknown: nat) returns (rows: seq<Row>)
    ensures |rows| == |known| + unknown && known <= rows && RowIds(rows) == RowIds(known)
    ensures forall i :: |known| <= i < |rows| ==> rows[i] == Row(Skipped, [])
  {
    rows := known;
    for i := 0 to unknown
      invariant |rows| == |known| + i && known <= rows && RowIds(rows) == RowIds(known)
      invariant forall j :: |known| <= j < |rows| ==> rows[j] == Row(Skipped, [])
    {
      OneMoreRow(rows, Row(Skipped, []));
      rows := rows + [Row(Skipped, [])];
    }
  }

  /** `summarize`. */
  method Summarize(rows: seq<Row>) returns (imported: nat, changed: nat, skipped: nat)
    ensures imported == Count(rows, Imported) && changed == Count(rows, Changed) && skipped == Count(rows, Skipped)
  {
    imported, changed, skipped := 0, 0, 0;
    for i := 0 to |rows|
      invariant imported == Count(rows[..i], Imported)
      invariant changed == Count(rows[..i], Changed) && skipped == Count(rows[..i], Skipped)
    {
      assert rows[..i + 1][..i] == rows[..i];
      match rows[i].status {
        case Imported => imported := imported + 1;
        case Changed => changed := changed + 1;
        case Skipped => skipped := skipped + 1;
      }
    }
    assert rows[..|rows|] == rows;
  }

  // ----- the result, said of the export

  ghost function FirstOfItsId(groups: seq<ParsedGroup>): nat -> bool {
    (i: nat) => i < |groups| && forall j :: 0 <= j < i ==> groups[j].id != groups[i].id
  }

  /** The place of the first group with that id among the first of each id; behind them when there is none. */
  ghost predicate PlacedFor(groups: seq<ParsedGroup>, at: seq<nat>, groupId: string, place: nat) {
    && place <= |at| && (place < |at| ==> at[place] < |groups| && groups[at[place]].id == groupId)
    && (place == |at| ==> forall i :: 0 <= i < |groups| ==> groups[i].id != groupId)
  }

  /** The mapping, a missing group or an inactive one calls for a note. */
  ghost predicate CallsForNote(groups: seq<ParsedGroup>, rule: ParsedRule) {
    || rule.changed
    || (rule.groupId != "" && forall i :: 0 <= i < |groups| ==> groups[i].id != rule.groupId)
    || exists i: nat :: i < |groups| && groups[i].id == rule.groupId && FirstOfItsId(groups)(i) && groups[i].inactive
  }

  /** One parsed rule: its drafts became the rules from number `from` on, in order, with falling priorities, at the
      end of its group; the row names them, and tells whether anything about them is not as in the export. */
  ghost predicate RuleReported(groups: seq<ParsedGroup>, at: seq<nat>, rule: ParsedRule, row: Row, trace: seq<Placed>, from: nat) {
    var drafts := DraftsOf(rule);
    && |row.ids| == |drafts| && from + |drafts| <= |trace|
    && (forall j :: 0 <= j < |drafts| ==>
          row.ids[j] == trace[from + j].rule.id && DraftMade(groups, at, rule, drafts[j], trace[from + j], from + j))
    && row.status == StatusOf(groups, rule, trace, from)
  }

  /** The draft became the k-th rule produced. */
  ghost predicate DraftMade(groups: seq<ParsedGroup>, at: seq<nat>, rule: ParsedRule, draft: Draft, made: Placed, k: nat) {
    && made.rule.body == draft.body && made.rule.priority == (if k < 1000 then 1000 - k else 1)
    && PlacedFor(groups, at, rule.groupId, made.place)
  }

  ghost function StatusOf(groups: seq<ParsedGroup>, rule: ParsedRule, trace: seq<Placed>, from: nat): Status
    requires from + |DraftsOf(rule)| <= |trace|
  {
    var drafts := DraftsOf(rule);
    if drafts == [] then Skipped
    else if CallsForNote(groups, rule) || exists j :: 0 <= j < |drafts| && Differs(rule, drafts[j], trace[from + j].rule)
    then Changed else Imported
  }

  ghost predicate Differs(rule: ParsedRule, draft: Draft, made: Rule) {
    made.name != draft.title || (draft.keepId && rule.id != None && Some(made.id) != rule.id)
  }

  /** Every parsed rule has its row, in order; behind them the unknown records have theirs. */
  ghost predicate Reported(e: Export, at: seq<nat>, rows: seq<Row>, trace: seq<Placed>, starts: seq<nat>) {
    && |rows| == |e.rules| + e.unknown && Laid(e.rules, starts) && starts[|e.rules|] == |trace|
    && (forall i :: 0 <= i < |e.rules| ==> RuleReported(e.groups, at, e.rules[i], rows[i], trace, starts[i]))
    && forall i :: |e.rules| <= i < |rows| ==> rows[i] == Row(Skipped, [])
  }

  function PlacedAt(trace: seq<Placed>, place: nat): nat -> bool { (k: nat) => k < |trace| && trace[k].place == place }

  /** The rules of a group are the produced rules of its place, in order. */
  ghost predicate HoldsPlace(trace: seq<Placed>, place: nat, rules: seq<Rule>) {
    exists at: seq<nat> :: Lists(|trace|, PlacedAt(trace, place), at) && RulesFrom(trace, at, rules)
  }

  predicate RulesFrom(trace: seq<Placed>, at: seq<nat>, rules: seq<Rule>) {
    |rules| == |at| && forall k :: 0 <= k < |at| ==> at[k] < |trace| && rules[k] == trace[at[k]].rule
  }

  /** More than 64 groups, with one for the rules of no group if there are any, more than 4096 rules, or more than
      256 of one place. */
  ghost predicate TooMuch(slots: nat, trace: seq<Placed>) {
    || slots + (if exists k :: 0 <= k < |trace| && trace[k].place == slots then 1 else 0) > 64
    || |trace| > 4096
    || exists place: nat :: CountIn(trace, place) > 256
  }

  ghost function CountIn(trace: seq<Placed>, place: nat): nat {
    |set k: nat | k < |trace| && trace[k].place == place|
  }

  /** `slots` are the groups at the positions `at`, and every id has its slot. */
  predicate SlotsFit(groups: seq<ParsedGroup>, slots: seq<ParsedGroup>, at: seq<nat>) {
    && |slots| == |at| && (forall g :: 0 <= g < |at| ==> at[g] < |groups| && slots[g] == groups[at[g]])
    && forall i :: 0 <= i < |groups| ==> SlotOf(slots, groups[i].id) < |at|
  }

  lemma {:induction false} SlotsMean(groups: seq<ParsedGroup>) returns (at: seq<nat>)
    ensures Lists(|groups|, FirstOfItsId(groups), at) && SlotsFit(groups, Slots(groups), at)
    decreases |groups|
  {
    hide Lists, FirstOfItsId, Slots, SlotOf, SlotsFit;
    SlotsUnfold(groups);
    if groups == [] {
      at := [];
      NoSlots();
    } else {
      var n := |groups| - 1;
      var front, last := groups[..n], groups[n];
      var before := SlotsMean(front);
      assert groups == front + [last];
      FirstInFront(front, last, Slots(front), before);
      SameDue(n, FirstOfItsId(front), FirstOfItsId(groups), before);
      ListsMore(n, FirstOfItsId(groups), before);
      at := before + if FirstOfItsId(groups)(n) then [n] else [];
      assert before + [] == before;
      if FirstOfItsId(groups)(n) {
        SlotsFitNew(front, last, Slots(front), before);
      } else {
        SlotsFitStill(front, last, Slots(front), before);
      }
    }
  }

  lemma SlotsFitStill(front: seq<ParsedGroup>, last: ParsedGroup, slots: seq<ParsedGroup>, at: seq<nat>)
    requires SlotsFit(front, slots, at) && SlotOf(slots, last.id) < |slots|
    ensures SlotsFit(front + [last], slots, at)
  {
    hide SlotOf;
  }

  lemma SlotsFitNew(front: seq<ParsedGroup>, last: ParsedGroup, slots: seq<ParsedGroup>, at: seq<nat>)
    requires SlotsFit(front, slots, at) && SlotOf(slots, last.id) == |slots|
    ensures SlotsFit(front + [last], slots + [last], at + [|front|])
  {
    hide SlotOf;
    var groups, more := front + [last], slots + [last];
    forall i | 0 <= i < |groups| ensures SlotOf(more, groups[i].id) < |more| {
      SlotFound(more, slots, groups[i].id);
      assert more[|slots|] == last;
      assert i < |front| ==> groups[i] == front[i];
    }
  }

  lemma SlotsUnfold(groups: seq<ParsedGroup>)
    ensures groups == [] ==> Slots(groups) == []
    ensures groups != [] ==>
              var before, last := Slots(groups[..|groups| - 1]), groups[|groups| - 1];
              Slots(groups) == if SlotOf(before, last.id) < |before| then before else before + [last]
  {
    hide SlotOf;
  }

  lemma NoSlots()
    ensures Lists(0, FirstOfItsId([]), []) && SlotsFit([], [], [])
  {
  }

  lemma SlotFound(slots: seq<ParsedGroup>, before: seq<ParsedGroup>, id: string)
    requires before <= slots
    ensures SlotOf(before, id) < |before| ==> SlotOf(slots, id) < |slots|
    ensures forall k :: 0 <= k < |slots| && slots[k].id == id ==> SlotOf(slots, id) < |slots|
  {
    hide SlotOf;
    if SlotOf(before, id) < |before| {
      assert slots[SlotOf(before, id)].id == id;
    }
  }

  lemma FirstInFront(front: seq<ParsedGroup>, last: ParsedGroup, slots: seq<ParsedGroup>, at: seq<nat>)
    requires SlotsFit(front, slots, at)
    ensures forall i: nat :: i < |front| ==> FirstOfItsId(front)(i) == FirstOfItsId(front + [last])(i)
    ensures FirstOfItsId(front + [last])(|front|) <==> SlotOf(slots, last.id) == |slots|
    ensures (front + [last])[..|front|] == front && (front + [last])[|front|] == last
  {
    var groups := front + [last];
    assert forall i :: 0 <= i < |front| ==> groups[i] == front[i];
    var k := SlotOf(slots, last.id);
    forall i | 0 <= i < |front| && front[i].id == last.id ensures k < |slots| {
      assert SlotOf(slots, front[i].id) < |at|;
    }
    if k < |slots| {
      assert groups[at[k]].id == last.id;
    }
  }

  /** From its start on stand the drafts of the rule. */
  predicate DraftsFrom(sources: seq<Source>, start: nat, rule: ParsedRule) {
    && start + |DraftsOf(rule)| <= |sources|
    && forall j :: 0 <= j < |DraftsOf(rule)| ==> sources[start + j] == Source(rule, DraftsOf(rule)[j])
  }

  lemma {:induction false} SourcesMean(rules: seq<ParsedRule>, starts: seq<nat>)
    requires Laid(rules, starts)
    ensures |AllSources(rules)| == starts[|rules|]
    ensures forall i :: 0 <= i < |rules| ==> DraftsFrom(AllSources(rules), starts[i], rules[i])
    decreases |rules|
  {
    hide AllSources, DraftsFrom, SourcesOf;
    SourcesUnfold(rules);
    if rules != [] {
      var n := |rules| - 1;
      SourcesMean(rules[..n], starts[..n + 1]);
      forall i | 0 <= i < n ensures DraftsFrom(AllSources(rules), starts[i], rules[i]) {
        assert rules[..n][i] == rules[i] && starts[..n + 1][i] == starts[i];
        DraftsStay(AllSources(rules[..n]), starts[i], rules[i], SourcesOf(rules[n]));
      }
      DraftsLast(AllSources(rules[..n]), rules[n]);
    }
  }

  lemma DraftsStay(sources: seq<Source>, start: nat, rule: ParsedRule, more: seq<Source>)
    requires DraftsFrom(sources, start, rule)
    ensures DraftsFrom(sources + more, start, rule)
  {
  }

  lemma DraftsLast(sources: seq<Source>, rule: ParsedRule)
    ensures DraftsFrom(sources + SourcesOf(rule), |sources|, rule) && |SourcesOf(rule)| == |DraftsOf(rule)|
  {
  }

  lemma SourcesUnfold(rules: seq<ParsedRule>)
    ensures rules == [] ==> AllSources(rules) == []
    ensures rules != [] ==> AllSources(rules) == AllSources(rules[..|rules| - 1]) + SourcesOf(rules[|rules| - 1])
  {
  }

  lemma {:induction false} RulesAtMean(trace: seq<Placed>, place: nat)
    ensures HoldsPlace(trace, place, RulesAt(trace, place)) && |RulesAt(trace, place)| == CountIn(trace, place)
    decreases |trace|
  {
    hide HoldsPlace, CountIn;
    if trace == [] {
      NothingPlaced(place);
      OneMoreCounted([], Placed(Rule("", "", 0, 0), 0), place);
    } else {
      var front, last := trace[..|trace| - 1], trace[|trace| - 1];
      RulesAtMean(front, place);
      OneMoreCounted(front, last, place);
      OneMoreHeld(front, last, place, RulesAt(front, place));
      assert trace == front + [last];
    }
  }

  lemma OneMoreHeld(trace: seq<Placed>, last: Placed, place: nat, rules: seq<Rule>)
    requires HoldsPlace(trace, place, rules)
    ensures HoldsPlace(trace + [last], place, rules + if last.place == place then [last.rule] else [])
  {
    hide Lists;
    var all, n := trace + [last], |trace|;
    var at: seq<nat> :| Lists(n, PlacedAt(trace, place), at) && RulesFrom(trace, at, rules);
    SameDue(n, PlacedAt(trace, place), PlacedAt(all, place), at);
    ListsMore(n, PlacedAt(all, place), at);
    assert RulesFrom(all, at + if last.place == place then [n] else [], rules + if last.place == place then [last.rule] else []);
  }

  lemma OneMoreCounted(trace: seq<Placed>, last: Placed, place: nat)
    ensures CountIn(trace + [last], place) == CountIn(trace, place) + if last.place == place then 1 else 0
    ensures CountIn([], place) == 0
  {
    var all := trace + [last];
    var before, after := (set k: nat | k < |trace| && trace[k].place == place), (set k: nat | k < |all| && all[k].place == place);
    assert after == if last.place == place then before + {|trace|} else before;
  }

  lemma NothingPlaced(place: nat)
    ensures HoldsPlace([], place, [])
  {
    assert Lists(0, PlacedAt([], place), []) && RulesFrom([], [], []);
  }

  lemma RowReported(e: Export, at: seq<nat>, i: nat, row: Row, trace: seq<Placed>, starts: seq<nat>)
    requires i < |e.rules| && Laid(e.rules, starts) && InExportOrder(Slots(e.groups), AllSources(e.rules), trace) && Prioritised(trace)
    requires RowRight(Slots(e.groups), e.rules[i], row, trace, starts[i])
    requires Lists(|e.groups|, FirstOfItsId(e.groups), at) && |Slots(e.groups)| == |at|
    requires forall g :: 0 <= g < |at| ==> at[g] < |e.groups| && Slots(e.groups)[g] == e.groups[at[g]]
    requires forall k :: 0 <= k < |e.groups| ==> SlotOf(Slots(e.groups), e.groups[k].id) < |at|
    ensures RuleReported(e.groups, at, e.rules[i], row, trace, starts[i])
  {
    hide Slots, AllSources, SlotOf, FirstOfItsId, Lists;
    var rule, slots := e.rules[i], Slots(e.groups);
    SourcesMean(e.rules, starts);
    NoteMeans(e.groups, at, slots, rule);
    forall j | 0 <= j < |DraftsOf(rule)|
      ensures DraftMade(e.groups, at, rule, DraftsOf(rule)[j], trace[starts[i] + j], starts[i] + j)
    {
      assert ComesFrom(slots, AllSources(e.rules)[starts[i] + j], trace[starts[i] + j]);
      SlotIsPlace(e.groups, at, slots, rule.groupId);
    }
    StatusMeans(slots, e.groups, rule, row, trace, starts[i]);
  }

  lemma StatusMeans(slots: seq<ParsedGroup>, groups: seq<ParsedGroup>, rule: ParsedRule, row: Row, trace: seq<Placed>, from: nat)
    requires RowRight(slots, rule, row, trace, from)
    requires rule.changed || BadGroup(slots, rule.groupId) <==> CallsForNote(groups, rule)
    ensures row.status == StatusOf(groups, rule, trace, from)
  {
    hide CallsForNote, BadGroup;
    var drafts := DraftsOf(rule);
    assert forall j :: 0 <= j < |drafts| ==>
      (Differs(rule, drafts[j], trace[from + j].rule) <==> Altered(rule, drafts[j], trace[from + j].rule));
  }

  lemma SlotIsPlace(groups: seq<ParsedGroup>, at: seq<nat>, slots: seq<ParsedGroup>, groupId: string)
    requires |slots| == |at| && forall g :: 0 <= g < |at| ==> at[g] < |groups| && slots[g] == groups[at[g]]
    requires forall k :: 0 <= k < |groups| ==> SlotOf(slots, groups[k].id) < |at|
    ensures PlacedFor(groups, at, groupId, SlotOf(slots, groupId))
  {
    hide SlotOf;
  }

  lemma NoteMeans(groups: seq<ParsedGroup>, at: seq<nat>, slots: seq<ParsedGroup>, rule: ParsedRule)
    requires Lists(|groups|, FirstOfItsId(groups), at) && |slots| == |at|
    requires forall g :: 0 <= g < |at| ==> at[g] < |groups| && slots[g] == groups[at[g]]
    requires forall k :: 0 <= k < |groups| ==> SlotOf(slots, groups[k].id) < |at|
    ensures rule.changed || BadGroup(slots, rule.groupId) <==> CallsForNote(groups, rule)
  {
    hide SlotOf;
    var g := SlotOf(slots, rule.groupId);
    if g < |slots| {
      assert FirstOfItsId(groups)(at[g]) && groups[at[g]].id == rule.groupId;
      forall i: nat | i < |groups| && groups[i].id == rule.groupId && FirstOfItsId(groups)(i) ensures i == at[g] {
      }
    }
  }

  lemma TooMuchMeans(e: Export, trace: seq<Placed>)
    requires InExportOrder(Slots(e.groups), AllSources(e.rules), trace)
    ensures !Fits(e) <==> TooMuch(|Slots(e.groups)|, trace)
  {
    hide Slots, AllSources, CountAt, RulesAt;
    var slots, sources := Slots(e.groups), AllSources(e.rules);
    forall place: nat ensures CountAt(slots, sources, place) == CountIn(trace, place) {
      CountMatches(slots, sources, trace, place);
      RulesAtMean(trace, place);
    }
    PlacesBound(trace, |slots|, (place: nat) => CountAt(slots, sources, place)) by {
      assert forall k :: 0 <= k < |trace| ==> ComesFrom(slots, sources[k], trace[k]);
    }
  }

  lemma PlacesBound(trace: seq<Placed>, last: nat, count: nat -> nat)
    requires forall place: nat :: count(place) == CountIn(trace, place)
    requires forall k :: 0 <= k < |trace| ==> trace[k].place <= last
    ensures count(last) > 0 <==> exists k :: 0 <= k < |trace| && trace[k].place == last
    ensures (exists place: nat :: CountIn(trace, place) > 256) <==>
            exists place: nat :: place <= last && count(place) > 256
  {
    var behind := set k: nat | k < |trace| && trace[k].place == last;
    if k: nat :| k < |trace| && trace[k].place == last {
      assert k in behind;
    }
    if |behind| > 0 {
      var k :| k in behind;
    }
    forall place: nat | place > last ensures count(place) == 0 {
      assert (set k: nat | k < |trace| && trace[k].place == place) == {};
    }
  }

  lemma {:induction false} RowIdsTraced(rules: seq<ParsedRule>, slots: seq<ParsedGroup>, rows: seq<Row>, trace: seq<Placed>,
                                        starts: seq<nat>)
    requires Laid(rules, starts) && RowsRight(slots, rules, rows, trace, starts) && starts[|rules|] <= |trace|
    ensures RowIds(rows) == TraceIds(trace[..starts[|rules|]])
    decreases |rules|
  {
    hide RowRight, TraceIds, RowIds;
    NothingTraced();
    if rules != [] {
      var n := |rules| - 1;
      RowHasLength(slots, rules[n], rows[n], trace, starts[n]);
      RowIdsTraced(rules[..n], slots, rows[..n], trace, starts[..n + 1]);
      assert starts[..n + 1][n] == starts[n];
      RowIdsOf(slots, rules[n], rows[n], trace, starts[n]);
      OneMoreRow(rows[..n], rows[n]);
      assert rows[..n] + [rows[n]] == rows;
    } else {
      assert rows == [] && trace[..0] == [];
    }
  }

  lemma RowIdsOf(slots: seq<ParsedGroup>, rule: ParsedRule, row: Row, trace: seq<Placed>, from: nat)
    requires RowRight(slots, rule, row, trace, from)
    ensures from + |row.ids| <= |trace| && TraceIds(trace[..from + |row.ids|]) == TraceIds(trace[..from]) + row.ids
  {
    hide Altered, BadGroup;
  }

  /** Importing conserves rules and identity. Every parsed rule and every unknown record has its row, and the rows
      name the produced rules in order; the k-th rule produced is the k-th draft with the k-th priority, in the group
      its rule names; every group holds its rules in that order, and no produced rule is lost; all ids, and all
      normalized names, of groups and rules are distinct. It is refused exactly when that would be too much. */
  method Import(n: Naming, e: Export)
    returns (result: ImportResult, ghost trace: seq<Placed>, ghost at: seq<nat>, ghost starts: seq<nat>)
    requires IsFree(n) && forall i :: 0 <= i < |e.groups| ==> e.groups[i].id != ""
    ensures Prioritised(trace) && InExportOrder(Slots(e.groups), AllSources(e.rules), trace)
    ensures Lists(|e.groups|, FirstOfItsId(e.groups), at)
    ensures result.LimitExceeded? <==> TooMuch(|at|, trace)
    ensures result.LimitExceeded? <==> !Fits(e)
    ensures result.Converted? ==>
              && DistinctIdentity(n, result.groups) && WithinLimits(result.groups)
              && Filled(trace, result.groups) && Total(result.groups) == |trace|
              && RowIds(result.rows) == TraceIds(trace)
              && result.imported == Count(result.rows, Imported) && result.changed == Count(result.rows, Changed)
              && result.skipped == Count(result.rows, Skipped)
              && (result.floorNote <==> |trace| > 1000)
    ensures result.Converted? ==> Reported(e, at, result.rows, trace, starts)
    ensures result.Converted? ==>
              && GroupsMade(n, Slots(e.groups), result.groups) && |at| <= |result.groups| <= |at| + 1
              && |Slots(e.groups)| == |at|
              && (forall g :: 0 <= g < |at| ==> at[g] < |e.groups| && Slots(e.groups)[g] == e.groups[at[g]])
              && (|result.groups| == |at| + 1 <==> exists k :: 0 <= k < |trace| && trace[k].place == |at|)
              && forall g :: 0 <= g < |result.groups| ==> HoldsPlace(trace, g, result.groups[g].rules)
  {
    hide Filled, Prioritised, TraceIds, RowIds, AllIds, AllKeys, Total, Count, Slots, AllSources, InExportOrder, Bucketed,
         Fits, GroupsNeeded, WithinLimits, RowsRight, Lists, FirstOfItsId, TooMuch, RuleReported, GroupsMade, HoldsPlace;
    var importer := ReadGroups(n, e.groups);
    ghost var heads := importer.All();
    assert heads == importer.ordered;
    var rows;
    rows, starts := ReadRules(importer, e.rules);
    trace := importer.trace;
    at := SlotsMean(e.groups);
    TooMuchMeans(e, trace);
    rows := AddReports(e, importer.slots, rows, trace, at, starts);
    var groups := importer.ordered;
    GroupCount(importer.slots, importer.sources, trace, importer.ordered, importer.ungrouped);
    if importer.ungrouped.Some? && importer.ungrouped.value.rules != [] {
      groups := groups + [importer.ungrouped.value];
    } else {
      UnusedUngrouped(n, importer.ids, importer.names, groups, importer.ungrouped, trace);
    }
    assert DistinctIdentity(n, groups) && Filled(trace, groups) && Total(groups) == |trace|;
    HeadsMade(n, importer.slots, heads, groups);
    GroupsHold(e, groups, trace);
    LimitsMatch(e, groups, trace);
    var error := LimitError(groups);
    if error {
      result := LimitExceeded;
      return;
    }
    var imported, changed, skipped := Summarize(rows);
    result := Converted(groups, rows, imported, changed, skipped, importer.assignedAtFloor > 1);
  }

  /** The rows of unknown records come last. */
  method AddReports(e: Export, ghost slots: seq<ParsedGroup>, known: seq<Row>, ghost trace: seq<Placed>, ghost at: seq<nat>,
                    ghost starts: seq<nat>) returns (rows: seq<Row>)
    requires slots == Slots(e.groups) && Laid(e.rules, starts) && starts[|e.rules|] == |trace|
    requires RowsRight(slots, e.rules, known, trace, starts)
    requires InExportOrder(slots, AllSources(e.rules), trace) && Prioritised(trace)
    requires Lists(|e.groups|, FirstOfItsId(e.groups), at) && |slots| == |at|
    requires forall g :: 0 <= g < |at| ==> at[g] < |e.groups| && slots[g] == e.groups[at[g]]
    requires forall k :: 0 <= k < |e.groups| ==> SlotOf(slots, e.groups[k].id) < |at|
    ensures Reported(e, at, rows, trace, starts) && RowIds(rows) == TraceIds(trace)
  {
    hide Lists, FirstOfItsId, RowRight, RuleReported, InExportOrder, Prioritised, Slots, SlotOf, AllSources, RowIds, TraceIds;
    rows := AddUnknown(known, e.unknown);
    RowIdsTraced(e.rules, slots, known, trace, starts);
    assert trace[..|trace|] == trace;
    forall i | 0 <= i < |e.rules| ensures RuleReported(e.groups, at, e.rules[i], rows[i], trace, starts[i]) {
      RowReported(e, at, i, known[i], trace, starts);
    }
  }

  lemma HeadsMade(n: Naming, slots: seq<ParsedGroup>, heads: seq<Group>, groups: seq<Group>)
    requires GroupsMade(n, slots, heads) && |slots| == |heads| <= |groups|
    requires forall g :: 0 <= g < |heads| ==> heads[g].id == groups[g].id && heads[g].name == groups[g].name
    ensures GroupsMade(n, slots, groups)
  {
    forall g | 0 <= g < |slots| ensures GroupMade(n, slots[g], groups[g], groups[..g]) {
      assert GroupMade(n, slots[g], heads[g], heads[..g]);
      assert (set i | 0 <= i < g :: heads[..g][i].id) == (set i | 0 <= i < g :: groups[..g][i].id) by {
        assert forall i :: 0 <= i < g ==> heads[..g][i].id == groups[..g][i].id;
      }
      assert (set i | 0 <= i < g :: n.norm(heads[..g][i].name)) == (set i | 0 <= i < g :: n.norm(groups[..g][i].name)) by {
        assert forall i :: 0 <= i < g ==> heads[..g][i].name == groups[..g][i].name;
      }
    }
  }

  lemma GroupsHold(e: Export, groups: seq<Group>, trace: seq<Placed>)
    requires InExportOrder(Slots(e.groups), AllSources(e.rules), trace) && Filled(trace, groups)
    requires |groups| == GroupsNeeded(Slots(e.groups), AllSources(e.rules))
    ensures forall g :: 0 <= g < |groups| ==> HoldsPlace(trace, g, groups[g].rules)
    ensures |groups| == |Slots(e.groups)| + if exists k :: 0 <= k < |trace| && trace[k].place == |Slots(e.groups)| then 1 else 0
  {
    hide Slots, AllSources, CountAt, RulesAt, HoldsPlace;
    forall g | 0 <= g < |groups| ensures HoldsPlace(trace, g, groups[g].rules) {
      RulesAtMean(trace, g);
    }
    var slots := |Slots(e.groups)|;
    CountMatches(Slots(e.groups), AllSources(e.rules), trace, slots);
    if k :| 0 <= k < |trace| && trace[k].place == slots {
      SomethingAt(trace, k);
    } else {
      NothingAt(trace, slots);
    }
  }

  lemma {:induction false} CountMatches(slots: seq<ParsedGroup>, sources: seq<Source>, trace: seq<Placed>, place: nat)
    requires InExportOrder(slots, sources, trace)
    ensures |RulesAt(trace, place)| == CountAt(slots, sources, place)
    decreases |trace|
  {
    hide SlotOf;
    if trace != [] {
      CountMatches(slots, sources[..|sources| - 1], trace[..|trace| - 1], place);
    }
  }

  lemma GroupCount(slots: seq<ParsedGroup>, sources: seq<Source>, trace: seq<Placed>, ordered: seq<Group>, ungrouped: Option<Group>)
    requires InExportOrder(slots, sources, trace) && |slots| == |ordered|
    requires Filled(trace, ordered + if ungrouped.Some? then [ungrouped.value] else [])
    ensures GroupsNeeded(slots, sources) == |ordered| + if ungrouped.Some? && ungrouped.value.rules != [] then 1 else 0
  {
    hide RulesAt, CountAt, InExportOrder;
    CountMatches(slots, sources, trace, |slots|);
    if ungrouped.Some? {
      assert (ordered + [ungrouped.value])[|ordered|] == ungrouped.value;
    } else {
      NothingAt(trace, |ordered|);
    }
  }

  lemma LimitsMatch(e: Export, groups: seq<Group>, trace: seq<Placed>)
    requires InExportOrder(Slots(e.groups), AllSources(e.rules), trace) && Filled(trace, groups) && Total(groups) == |trace|
    requires |groups| == GroupsNeeded(Slots(e.groups), AllSources(e.rules))
    ensures WithinLimits(groups) <==> Fits(e)
  {
    hide RulesAt, CountAt, Slots, AllSources, Total, InExportOrder, Filled, SlotOf;
    SizesMatch(Slots(e.groups), AllSources(e.rules), trace, groups);
    InOrderLength(Slots(e.groups), AllSources(e.rules), trace);
  }

  lemma InOrderLength(slots: seq<ParsedGroup>, sources: seq<Source>, trace: seq<Placed>)
    requires InExportOrder(slots, sources, trace)
    ensures |sources| == |trace|
  {
  }

  lemma SizesMatch(slots: seq<ParsedGroup>, sources: seq<Source>, trace: seq<Placed>, groups: seq<Group>)
    requires InExportOrder(slots, sources, trace) && Filled(trace, groups)
    ensures forall g :: 0 <= g < |groups| ==> |groups[g].rules| == CountAt(slots, sources, g)
  {
    hide RulesAt, CountAt, InExportOrder, SlotOf;
    forall g | 0 <= g < |groups| ensures |groups[g].rules| == CountAt(slots, sources, g) {
      CountMatches(slots, sources, trace, g);
    }
  }

  /** An ungrouped bucket nothing went to is dropped. */
  lemma UnusedUngrouped(n: Naming, ids: set<string>, names: set<string>, ordered: seq<Group>,
                        ungrouped: Option<Group>, trace: seq<Placed>)
    requires ungrouped.None? || ungrouped.value.rules == []
    requires var all := ordered + if ungrouped.Some? then [ungrouped.value] else [];
             SitsWell(n, ids, names, all) && Filled(trace, all) && Total(all) == |trace|
    ensures DistinctIdentity(n, ordered) && Filled(trace, ordered) && Total(ordered) == |trace|
  {
    hide AllIds, AllKeys, Total, RulesAt, IsSupport;
    if ungrouped.None? {
      assert ordered + [] == ordered;
    } else {
      OneMoreGroup(n, ordered, ungrouped.value);
      OnceShrinks(AllIds(ordered), multiset{ungrouped.value.id} + RuleIds(ungrouped.value.rules),
                  AllIds(ordered + [ungrouped.value]));
      OnceShrinks(AllKeys(n, ordered), multiset{n.norm(ungrouped.value.name)} + RuleKeys(n, ungrouped.value.rules),
                  AllKeys(n, ordered + [ungrouped.value]));
      UnusedPlace(ordered, ungrouped.value, trace);
    }
  }

  lemma OnceShrinks(part: multiset<string>, rest: multiset<string>, whole: multiset<string>)
    requires AllOnce(whole) && whole == part + rest
    ensures AllOnce(part)
  {
    forall x ensures part[x] <= 1 {
      assert whole[x] == part[x] + rest[x];
    }
  }

  lemma UnusedPlace(ordered: seq<Group>, last: Group, trace: seq<Placed>)
    requires Filled(trace, ordered + [last]) && last.rules == []
    ensures Filled(trace, ordered)
  {
    hide RulesAt;
    var all := ordered + [last];
    assert all[|ordered|] == last;
    forall k | 0 <= k < |trace| ensures trace[k].place < |ordered| {
      SomethingAt(trace, k);
    }
    assert forall g :: 0 <= g < |ordered| ==> ordered[g] == all[g];
  }

  lemma {:induction false} SomethingAt(trace: seq<Placed>, k: nat)
    requires k < |trace|
    ensures RulesAt(trace, trace[k].place) != []
    decreases |trace|
  {
    if k < |trace| - 1 {
      SomethingAt(trace[..|trace| - 1], k);
    }
  }

  lemma NothingTraced()
    ensures TraceIds([]) == [] && RowIds([]) == []
  {
  }

  lemma OneMoreRow(rows: seq<Row>, row: Row)
    ensures RowIds(rows + [row]) == RowIds(rows) + row.ids
  {
    assert (rows + [row])[..|rows|] == rows;
  }

  /** No row is counted twice or left out. */
  lemma {:induction false} CountsAddUp(rows: seq<Row>)
    ensures Count(rows, Imported) + Count(rows, Changed) + Count(rows, Skipped) == |rows|
    decreases |rows|
  {
    if rows != [] {
      CountsAddUp(rows[..|rows| - 1]);
    }
  }

  // ----- steps of the proofs above

  lemma EmptyGroupAdded(n: Naming, ids: set<string>, names: set<string>, groups: seq<Group>, trace: seq<Placed>, g: Group)
    requires SitsWell(n, ids, names, groups) && Filled(trace, groups)
    requires g.rules == [] && g.id !in ids && n.norm(g.name) !in names
    ensures SitsWell(n, ids + {g.id}, names + {n.norm(g.name)}, groups + [g])
    ensures Filled(trace, groups + [g]) && Total(groups + [g]) == Total(groups)
  {
    hide AllIds, AllKeys, Total, IsSupport, AllOnce;
    OneMoreGroup(n, groups, g);
    assert AllIds(groups + [g]) == AllIds(groups) + multiset{g.id};
    assert AllKeys(n, groups + [g]) == AllKeys(n, groups) + multiset{n.norm(g.name)};
    OnceGrows(ids, AllIds(groups), g.id);
    OnceGrows(names, AllKeys(n, groups), n.norm(g.name));
    SupportGrows(ids, AllIds(groups), g.id);
    SupportGrows(names, AllKeys(n, groups), n.norm(g.name));
    NothingAt(trace, |groups|);
  }

  lemma {:induction false} NothingAt(trace: seq<Placed>, place: nat)
    requires forall k :: 0 <= k < |trace| ==> trace[k].place < place
    ensures RulesAt(trace, place) == []
    decreases |trace|
  {
    if trace != [] {
      NothingAt(trace[..|trace| - 1], place);
    }
  }

  lemma RuleTaken(n: Naming, ids: set<string>, names: set<string>, groups: seq<Group>, place: nat, r: Rule)
    requires SitsWell(n, ids, names, groups) && place < |groups|
    requires r.id !in ids && n.norm(r.name) !in names
    ensures SitsWell(n, ids + {r.id}, names + {n.norm(r.name)}, groups[place := WithRule(groups[place], r)])
  {
    hide AllIds, AllKeys, Total, IsSupport, AllOnce;
    RuleAdded(n, groups, place, r);
    OnceGrows(ids, AllIds(groups), r.id);
    OnceGrows(names, AllKeys(n, groups), n.norm(r.name));
    SupportGrows(ids, AllIds(groups), r.id);
    SupportGrows(names, AllKeys(n, groups), n.norm(r.name));
  }

  lemma RulePlaced(trace: seq<Placed>, groups: seq<Group>, place: nat, r: Rule)
    requires Filled(trace, groups) && place < |groups|
    ensures Filled(trace + [Placed(r, place)], groups[place := WithRule(groups[place], r)])
  {
    assert (trace + [Placed(r, place)])[..|trace|] == trace;
  }

  lemma OneMoreInOrder(slots: seq<ParsedGroup>, sources: seq<Source>, trace: seq<Placed>, source: Source, placed: Placed)
    requires InExportOrder(slots, sources, trace) && ComesFrom(slots, source, placed)
    ensures InExportOrder(slots, sources + [source], trace + [placed])
  {
  }

  lemma {:induction false} TakenByGroups(n: Naming, ids: set<string>, names: set<string>, groups: seq<Group>, trace: seq<Placed>)
    requires SitsWell(n, ids, names, groups) && Filled(trace, groups) && trace == []
    ensures ids == (set i | 0 <= i < |groups| :: groups[i].id) && names == (set i | 0 <= i < |groups| :: n.norm(groups[i].name))
  {
    hide AllIds, AllKeys;
    HeadsOnly(n, groups);
  }

  lemma {:induction false} HeadsOnly(n: Naming, groups: seq<Group>)
    requires forall g :: 0 <= g < |groups| ==> groups[g].rules == []
    ensures forall x :: x in AllIds(groups) <==> exists i :: 0 <= i < |groups| && groups[i].id == x
    ensures forall x :: x in AllKeys(n, groups) <==> exists i :: 0 <= i < |groups| && n.norm(groups[i].name) == x
    decreases |groups|
  {
    hide AllIds, AllKeys;
    NothingTaken(n);
    if groups == [] {
      assert groups[..0] == [];
    } else {
      var front, last := groups[..|groups| - 1], groups[|groups| - 1];
      assert groups == front + [last];
      HeadsOnly(n, front);
      OneMoreGroup(n, front, last);
      assert forall i :: 0 <= i < |front| ==> groups[i] == front[i];
    }
  }

  lemma NewGroupMade(n: Naming, slots: seq<ParsedGroup>, groups: seq<Group>, slot: ParsedGroup, made: Group, ids: set<string>,
                     names: set<string>)
    requires |slots| == |groups|
    requires ids == (set i | 0 <= i < |groups| :: groups[i].id) && names == (set i | 0 <= i < |groups| :: n.norm(groups[i].name))
    requires made.name == n.unique(slot.name, names)
    requires made.id == if IsRogatioId(slot.id) && slot.id !in ids then slot.id else n.derive(made.name, GroupEntity, ids)
    ensures GroupsMade(n, slots, groups) ==> GroupsMade(n, slots + [slot], groups + [made])
  {
    hide IsRogatioId;
    if GroupsMade(n, slots, groups) {
      var more, all := slots + [slot], groups + [made];
      forall g | 0 <= g < |more| ensures GroupMade(n, more[g], all[g], all[..g]) {
        if g < |slots| {
          assert all[..g] == groups[..g];
          assert GroupMade(n, slots[g], groups[g], groups[..g]);
        } else {
          assert all[..g] == groups;
        }
      }
    }
  }

  lemma BucketIsSlot(slots: seq<ParsedGroup>, buckets: map<string, nat>, inactive: seq<bool>, groupId: string)
    requires Bucketed(slots, buckets, inactive)
    ensures SlotOf(slots, groupId) == if groupId in buckets then buckets[groupId] else |slots|
    ensures groupId in buckets ==> groupId != "" && buckets[groupId] < |slots| == |inactive|
    ensures groupId in buckets ==> inactive[buckets[groupId]] == slots[buckets[groupId]].inactive
  {
  }

  lemma NewBucket(slots: seq<ParsedGroup>, buckets: map<string, nat>, inactive: seq<bool>, group: ParsedGroup)
    requires Bucketed(slots, buckets, inactive) && group.id !in buckets && group.id != ""
    ensures Bucketed(slots + [group], buckets[group.id := |slots|], inactive + [group.inactive])
  {
  }

  lemma OneMoreTraced(trace: seq<Placed>, p: Placed)
    ensures TraceIds(trace + [p]) == TraceIds(trace) + [p.rule.id]
  {
  }

  lemma RulePrioritised(trace: seq<Placed>, p: Placed)
    requires Prioritised(trace) && p.rule.priority == PriorityAt(|trace|)
    ensures Prioritised(trace + [p])
  {
  }
}
