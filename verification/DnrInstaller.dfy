/** `packages/extension/src/dnr.ts`: the installer of dynamic rules, against a browser that may refuse any
    call. `Installed` says what one install leaves behind, `Hydrated` what a cold start recovers. */
module DnrInstaller {
  import opened Options
  import opened MatchIndex
  import opened RuleIds

  /** What the browser holds under an id: a rule this installer translated, or somebody else's. */
  datatype DynamicRule = Ours(op: Operation) | Foreign(detail: int)

  datatype InstallError = DynamicValue(ruleId: string) | Refused(ruleId: string)

  datatype Outcome = Done | Failed | Threw

  /** Does the n-th call to the browser fail? */
  type Refusals = nat -> bool

  predicate IsOwned(id: int) { 1 <= id <= REDIRECT_QUERY_ID_MAX || id >= HEADER_ID_MIN }

  ghost predicate DistinctRuleIds(ops: seq<Operation>) {
    forall i, j :: 0 <= i < j < |ops| ==> ops[i].ruleId != ops[j].ruleId
  }

  // ----- what an install does, as functions

  function DynamicErrors(ops: seq<Operation>): seq<InstallError> {
    if ops == [] then []
    else
      var last := ops[|ops| - 1];
      DynamicErrors(ops[..|ops| - 1]) + if IsDynamicValue(last) then [DynamicValue(last.ruleId)] else []
  }

  /** The operations before the first one whose translation throws. */
  function Readable(ops: seq<Operation>): seq<Operation> {
    if ops == [] || Blocks(ops[0]) then [] else [ops[0]] + Readable(ops[1..])
  }

  /** The planned rules whose own update goes through, the first update being call `from`. */
  function Kept(plan: seq<Planned>, refuses: Refusals, from: nat): map<int, Operation> {
    if plan == [] then map[]
    else
      var n := |plan| - 1;
      var before := Kept(plan[..n], refuses, from);
      if refuses(from + n) then before else before[plan[n].id := plan[n].op]
  }

  function RefusedErrors(plan: seq<Planned>, refuses: Refusals, from: nat): seq<InstallError> {
    if plan == [] then []
    else
      var n := |plan| - 1;
      RefusedErrors(plan[..n], refuses, from) + if refuses(from + n) then [Refused(plan[n].op.ruleId)] else []
  }

  function Live(tracked: map<int, Operation>): map<int, DynamicRule> {
    map id | id in tracked :: Ours(tracked[id])
  }

  datatype World = World(
    rules: map<int, DynamicRule>,
    index: Index,
    tracked: map<int, Operation>,
    errors: seq<InstallError>,
    calls: nat)

  function Orphans(rules: map<int, DynamicRule>, plan: seq<Planned>): set<int> {
    set id | id in rules && IsOwned(id) && id !in Desired(plan)
  }

  /** The number of the first per-rule update, when the install began with call `calls`. */
  function FirstUpdate(w: World, plan: seq<Planned>): nat {
    w.calls + 1 + if Orphans(w.rules, plan) == {} then 0 else 1
  }

  function WithoutOrphans(w: World, plan: seq<Planned>, refuses: Refusals): map<int, DynamicRule> {
    if refuses(w.calls + 1) then w.rules else w.rules - Orphans(w.rules, plan)
  }

  /** The index after `writeWholesaleMatchIndex`: a failed read reads as empty, a failed write is ignored. */
  function Reindexed(san: Sanitizer, index: Index, tracked: map<int, Operation>, readFails: bool, writeFails: bool): Index {
    if writeFails then index else Sanitized(san, Wholesale(if readFails then map[] else index, tracked))
  }

  /** One install that got as far as reading the browser's rules. */
  function Installed(san: Sanitizer, w: World, ops: seq<Operation>, refuses: Refusals): World
    requires |ops| <= REDIRECT_QUERY_ID_MAX
  {
    var plan := Plan(ops);
    var n := FirstUpdate(w, plan);
    var tracked := Kept(plan, refuses, n);
    var writes := tracked != map[] || Orphans(w.rules, plan) != {} || ops == [];
    World(
      WithoutOrphans(w, plan, refuses) + Live(tracked),
      if writes then Reindexed(san, w.index, tracked, refuses(n + |plan|), refuses(n + |plan| + 1)) else w.index,
      tracked,
      DynamicErrors(ops) + RefusedErrors(plan, refuses, n),
      n + |plan| + if writes then 2 else 0)
  }

  /** What a start with a cold band recovers from the browser's ids, the index and the compiled rules. */
  function Hydrated(live: set<int>, index: Index, byRuleId: map<string, Operation>, redirectQuery: bool, header: bool)
    : map<int, Operation>
  {
    map id | id in live && id in index && Recovers(id, index[id], byRuleId, redirectQuery, header) ::
      RecoveredOp(index[id], byRuleId)
  }

  function RecoveredOp(entry: Entry, byRuleId: map<string, Operation>): Operation
    requires entry.ruleId in byRuleId
  {
    byRuleId[entry.ruleId]
  }

  predicate Recovers(id: int, entry: Entry, byRuleId: map<string, Operation>, redirectQuery: bool, header: bool): (r: bool)
    ensures r ==> entry.ruleId in byRuleId
  {
    && entry.ruleId in byRuleId && byRuleId[entry.ruleId].kind == entry.kind
    && ((redirectQuery && 1 <= id <= REDIRECT_QUERY_ID_MAX && (entry.kind.Redirect? || entry.kind.Query?))
        || (header && id >= HEADER_ID_MIN && entry.kind.Header?))
  }

  function ByRuleId(ops: seq<Operation>): map<string, Operation> {
    if ops == [] then map[]
    else
      var last := ops[|ops| - 1];
      var before := ByRuleId(ops[..|ops| - 1]);
      if IsDynamicKind(last.kind) then before[last.ruleId := last] else before
  }

  // ----- the browser

  class Browser {
    const present: bool
    const refuses: Refusals
    var calls: nat
    var rules: map<int, DynamicRule>
    var index: Index

    constructor (present: bool, refuses: Refusals, rules: map<int, DynamicRule>, index: Index)
      ensures this.present == present && this.refuses == refuses && calls == 0
      ensures this.rules == rules && this.index == index
    {
      this.present, this.refuses, this.calls, this.rules, this.index := present, refuses, 0, rules, index;
    }

    method GetDynamicRules() returns (live: Option<set<int>>)
      modifies this`calls
      ensures calls == old(calls) + 1
      ensures live == if refuses(old(calls)) then None else Some(rules.Keys)
    {
      live := if refuses(calls) then None else Some(rules.Keys);
      calls := calls + 1;
    }

    /** An update is one atomic step: it is refused as a whole, or it removes and then adds. An id that
        would be added twice is refused. */
    method UpdateDynamicRules(remove: set<int>, add: map<int, Operation>) returns (ok: bool)
      modifies this`calls, this`rules
      ensures calls == old(calls) + 1
      ensures ok <==> !refuses(old(calls)) && add.Keys !! (old(rules).Keys - remove)
      ensures rules == if ok then (old(rules) - remove) + Live(add) else old(rules)
    {
      ok := !refuses(calls) && add.Keys !! (rules.Keys - remove);
      if ok {
        rules := (rules - remove) + Live(add);
      }
      calls := calls + 1;
    }

    method ReadIndex() returns (prior: Index)
      modifies this`calls
      ensures calls == old(calls) + 1
      ensures prior == if refuses(old(calls)) then map[] else index
    {
      prior := if refuses(calls) then map[] else index;
      calls := calls + 1;
    }

    method WriteIndex(next: Index)
      modifies this`calls, this`index
      ensures calls == old(calls) + 1
      ensures index == if refuses(old(calls)) then old(index) else next
    {
      if !refuses(calls) {
        index := next;
      }
      calls := calls + 1;
    }
  }

  // ----- the installer

  class Installer {
    const browser: Browser
    const san: Sanitizer
    var tracked: map<int, Operation>
    var lastInstallErrors: seq<InstallError>

    constructor (browser: Browser, san: Sanitizer)
      ensures this.browser == browser && this.san == san && tracked == map[] && lastInstallErrors == []
    {
      this.browser, this.san, tracked, lastInstallErrors := browser, san, map[], [];
    }

    ghost function Now(): World
      reads this, browser
    {
      World(browser.rules, browser.index, tracked, lastInstallErrors, browser.calls)
    }

    method TakeInstallErrors() returns (errors: seq<InstallError>)
      modifies this`lastInstallErrors
      ensures errors == old(lastInstallErrors) && lastInstallErrors == []
    {
      errors := lastInstallErrors;
      lastInstallErrors := [];
    }

    /** The first part of `install`: ids for redirect and query rules, errors for dynamic values, and the
        header operations put aside. */
    method Collect(ops: seq<Operation>) returns (threw: bool, addRules: seq<Planned>, headers: seq<Operation>)
      requires |ops| <= REDIRECT_QUERY_ID_MAX
      modifies this`lastInstallErrors
      ensures threw <==> Readable(ops) != ops
      ensures lastInstallErrors == DynamicErrors(Readable(ops))
      ensures !threw ==> addRules == Place(ops) && headers == Selected(ops, IsHeader)
    {
      hide Place, Selected, Desired, DynamicErrors, Readable, FirstFree, RuleIdHash, Slot, AllUsed;
      CollectStart();
      lastInstallErrors, addRules, headers, threw := [], [], [], false;
      var usedIds: set<int> := {};
      var i := 0;
      while i < |ops|
        invariant 0 <= i <= |ops|
        invariant forall j :: 0 <= j < i ==> !Blocks(ops[j])
        invariant addRules == Place(ops[..i]) && usedIds == Desired(addRules).Keys
        invariant headers == Selected(ops[..i], IsHeader)
        invariant lastInstallErrors == DynamicErrors(ops[..i])
      {
        var op := ops[i];
        CollectStep(ops, i, addRules);
        if IsDynamicValue(op) {
          lastInstallErrors := lastInstallErrors + [DynamicValue(op.ruleId)];
        } else if IsRedirectOrQuery(op) {
          var start := HashRuleId(op.ruleId);
          var id := Probe(start, usedIds);
          OneMore(addRules, Planned(id, op));
          usedIds := usedIds + {id};
          if !op.projectable {
            ReadableUpTo(ops, i);
            threw := true;
            return;
          }
          addRules := addRules + [Planned(id, op)];
        } else if op.kind.Header? {
          headers := headers + [op];
        }
        i := i + 1;
      }
      ReadableUpTo(ops, |ops|);
      assert ops[..|ops|] == ops;
    }

    /** `projectHeaders` and the search for the operation behind each projection. */
    method AddHeaders(addRules: seq<Planned>, headers: seq<Operation>) returns (all: seq<Planned>, added: seq<Planned>)
      requires DistinctRuleIds(headers)
      ensures all == added == addRules + HeaderPlan(headers)
    {
      all, added := addRules, addRules;
      for i := 0 to |headers|
        invariant all == added == addRules + HeaderPlan(headers[..i])
      {
        assert headers[..i + 1][..i] == headers[..i];
        if headers[i].projectable {
          all := all + [Planned(HEADER_ID_MIN + i, headers[i])];
          var found := FindByRuleId(headers, headers[i].ruleId);
          if found.Some? {
            added := added + [Planned(HEADER_ID_MIN + i, found.value)];
          }
        }
      }
      assert headers[..|headers|] == headers;
    }

    method WriteWholesaleMatchIndex()
      modifies browser`calls, browser`index
      ensures browser.calls == old(browser.calls) + 2
      ensures browser.index == Reindexed(san, old(browser.index), tracked, browser.refuses(old(browser.calls)),
                                         browser.refuses(old(browser.calls) + 1))
    {
      var prior := browser.ReadIndex();
      browser.WriteIndex(Sanitized(san, Wholesale(prior, tracked)));
    }

    /** The per-rule part of `install`: each rule replaces its own id, and refusals are collected. */
    method ReplaceEach(added: seq<Planned>, addRules: seq<Planned>) returns (anyFailed: bool, anySucceeded: bool)
      requires added == addRules && Distinct(added)
      requires tracked == map[]
      modifies this`tracked, this`lastInstallErrors, browser`calls, browser`rules
      ensures browser.calls == old(browser.calls) + |added|
      ensures tracked == Kept(added, browser.refuses, old(browser.calls))
      ensures browser.rules == old(browser.rules) + Live(tracked)
      ensures lastInstallErrors
           == old(lastInstallErrors) + RefusedErrors(added, browser.refuses, old(browser.calls))
      ensures anyFailed <==> RefusedErrors(added, browser.refuses, old(browser.calls)) != []
      ensures anySucceeded <==> tracked != map[]
    {
      hide Distinct, Kept, RefusedErrors, Live;
      KeptStart(browser.refuses, browser.calls);
      NothingLive();
      anyFailed, anySucceeded := false, false;
      ghost var from, errors, rules := browser.calls, lastInstallErrors, browser.rules;
      var i := 0;
      while i < |added|
        invariant 0 <= i <= |added| && browser.calls == from + i
        invariant tracked == Kept(added[..i], browser.refuses, from)
        invariant browser.rules == rules + Live(tracked)
        invariant lastInstallErrors == errors + RefusedErrors(added[..i], browser.refuses, from)
        invariant anyFailed <==> RefusedErrors(added[..i], browser.refuses, from) != []
        invariant anySucceeded <==> tracked != map[]
      {
        var entry := added[i];
        KeptStep(added, i, browser.refuses, from);
        var found := FindRule(addRules, entry.id);
        var rule := found.value;
        FoundIsEntry(addRules, i, rule);
        OneMoreLive(rules, tracked, rule.id, rule.op);
        var ok := browser.UpdateDynamicRules({rule.id}, map[rule.id := rule.op]);
        if ok {
          tracked := tracked[entry.id := entry.op];
          anySucceeded := true;
        } else {
          anyFailed := true;
          lastInstallErrors := lastInstallErrors + [Refused(entry.op.ruleId)];
        }
        i := i + 1;
      }
      assert added[..|added|] == added;
    }

    method Install(ops: seq<Operation>) returns (outcome: Outcome)
      requires |ops| <= REDIRECT_QUERY_ID_MAX && DistinctRuleIds(ops)
      modifies this, browser
      ensures Readable(ops) != ops ==>
                outcome == Threw && Now() == old(Now()).(errors := DynamicErrors(Readable(ops)))
      ensures Readable(ops) == ops && !browser.present ==>
                outcome == Failed && Now() == old(Now()).(errors := DynamicErrors(ops))
      ensures Readable(ops) == ops && browser.present && browser.refuses(old(browser.calls)) ==>
                outcome == Failed
                && Now() == old(Now()).(errors := DynamicErrors(ops), calls := old(browser.calls) + 1)
      ensures Readable(ops) == ops && browser.present && !browser.refuses(old(browser.calls)) ==>
                && Now() == Installed(san, old(Now()), ops, browser.refuses)
                && (outcome == Failed <==> Now().errors != DynamicErrors(ops) && tracked == map[])
                && outcome != Threw
    {
      hide Plan, Place, HeaderPlan, Selected, Distinct, Installed, DynamicErrors, Readable, DistinctRuleIds, Desired, Ops;
      var threw, placed, headers := Collect(ops);
      if threw {
        return Threw;
      }
      SelectedDistinct(ops, IsHeader);
      var addRules, added := AddHeaders(placed, headers);
      PlanMeaning(ops);
      PlanParts(ops);
      if !browser.present {
        return Failed;
      }
      InstalledForgets(san, old(Now()), Now(), ops, browser.refuses);
      outcome := Replace(ops, added, addRules);
    }

    /** Owned rules nobody wants any more go in one call, which may be refused. */
    method DropOrphans(addRules: seq<Planned>, live: set<int>) returns (any: bool)
      requires live == browser.rules.Keys
      modifies browser`calls, browser`rules
      ensures any <==> Orphans(old(browser.rules), addRules) != {}
      ensures browser.calls == old(browser.calls) + if any then 1 else 0
      ensures browser.rules == if browser.refuses(old(browser.calls)) then old(browser.rules)
                               else old(browser.rules) - Orphans(old(browser.rules), addRules)
    {
      hide Desired;
      var desired := DesiredIds(addRules);
      var orphans := set id | id in live && IsOwned(id) && id !in desired;
      assert orphans == Orphans(browser.rules, addRules);
      any := orphans != {};
      if any {
        NothingLive();
        var _ := browser.UpdateDynamicRules(orphans, map[]);
      } else {
        assert browser.rules - orphans == browser.rules;
      }
    }

    /** The second part of `install`: nothing is touched when the browser's rules cannot be read. */
    method Replace(ops: seq<Operation>, added: seq<Planned>, addRules: seq<Planned>) returns (outcome: Outcome)
      requires |ops| <= REDIRECT_QUERY_ID_MAX && added == addRules == Plan(ops) && Distinct(added)
      requires lastInstallErrors == DynamicErrors(ops)
      modifies this, browser
      ensures browser.refuses(old(browser.calls)) ==>
                outcome == Failed && Now() == old(Now()).(calls := old(browser.calls) + 1)
      ensures !browser.refuses(old(browser.calls)) ==>
                && Now() == Installed(san, old(Now()), ops, browser.refuses)
                && (outcome == Failed <==> Now().errors != DynamicErrors(ops) && tracked == map[])
                && outcome != Threw
    {
      hide Plan, Distinct, Kept, RefusedErrors, Reindexed, DynamicErrors, Live, Orphans, Wholesale, Sanitized;
      ghost var w, plan := Now(), addRules;
      var live := browser.GetDynamicRules();
      if live.None? {
        return Failed;
      }
      tracked := map[];
      var anyOrphans := DropOrphans(addRules, live.value);
      assert browser.rules == WithoutOrphans(w, plan, browser.refuses);
      assert browser.calls == FirstUpdate(w, plan);
      var anyFailed, anySucceeded := ReplaceEach(added, addRules);
      if anySucceeded || anyOrphans || ops == [] {
        WriteWholesaleMatchIndex();
      }
      NothingPlanned(browser.refuses, FirstUpdate(w, plan));
      outcome := if anyFailed && tracked == map[] && ops != [] then Failed else Done;
    }

    method HydrateInstalled(compiled: seq<Operation>)
      modifies this`tracked, browser`calls
      ensures var redirectQuery := forall id :: id in old(tracked) ==> !(1 <= id <= REDIRECT_QUERY_ID_MAX);
              var header := forall id :: id in old(tracked) ==> id < HEADER_ID_MIN;
              tracked ==
              if (!redirectQuery && !header) || !browser.present || browser.refuses(old(browser.calls)) then old(tracked)
              else
                var index := if browser.refuses(old(browser.calls) + 1) then map[] else browser.index;
                old(tracked) + Hydrated(browser.rules.Keys, index, ByRuleId(compiled), redirectQuery, header)
    {
      var redirectQuery := forall id :: id in tracked ==> !(1 <= id <= REDIRECT_QUERY_ID_MAX);
      var header := forall id :: id in tracked ==> id < HEADER_ID_MIN;
      if !redirectQuery && !header {
        return;
      }
      if !browser.present {
        return;
      }
      var answer := browser.GetDynamicRules();
      if answer.None? {
        return;
      }
      var live := answer.value;
      var byRuleId: map<string, Operation> := map[];
      for i := 0 to |compiled|
        invariant byRuleId == ByRuleId(compiled[..i])
      {
        assert compiled[..i + 1][..i] == compiled[..i];
        if IsDynamicKind(compiled[i].kind) {
          byRuleId := byRuleId[compiled[i].ruleId := compiled[i]];
        }
      }
      assert compiled[..|compiled|] == compiled;
      var index := browser.ReadIndex();
      Recover(live, index, byRuleId, redirectQuery, header);
    }

    method Recover(live: set<int>, index: Index, byRuleId: map<string, Operation>, redirectQuery: bool, header: bool)
      modifies this`tracked
      ensures tracked == old(tracked) + Hydrated(live, index, byRuleId, redirectQuery, header)
    {
      hide Recovers;
      var left := live;
      while left != {}
        invariant left <= live
        invariant tracked == old(tracked) + Hydrated(live - left, index, byRuleId, redirectQuery, header)
        decreases |left|
      {
        var id := AnyOf(left);
        HydratedStep(live - left, id, index, byRuleId, redirectQuery, header);
        assert live - (left - {id}) == (live - left) + {id};
        if id in index && Recovers(id, index[id], byRuleId, redirectQuery, header) {
          tracked := tracked[id := RecoveredOp(index[id], byRuleId)];
        }
        left := left - {id};
      }
      assert live - left == live;
    }
  }

  // ----- steps of the proofs above

  function DesiredIds(plan: seq<Planned>): (r: set<int>)
    ensures r == Desired(plan).Keys
  {
    Desired(plan).Keys
  }

  method FindByRuleId(headers: seq<Operation>, ruleId: string) returns (found: Option<Operation>)
    ensures found.None? <==> forall op :: op in headers ==> op.ruleId != ruleId
    ensures found.Some? ==> exists i :: 0 <= i < |headers| && headers[i] == found.value && headers[i].ruleId == ruleId
                                        && forall j :: 0 <= j < i ==> headers[j].ruleId != ruleId
  {
    for i := 0 to |headers|
      invariant forall j :: 0 <= j < i ==> headers[j].ruleId != ruleId
    {
      if headers[i].ruleId == ruleId {
        return Some(headers[i]);
      }
    }
    return None;
  }

  method FindRule(rules: seq<Planned>, id: int) returns (found: Option<Planned>)
    ensures found.None? <==> forall p :: p in rules ==> p.id != id
    ensures found.Some? ==> found.value in rules && found.value.id == id
  {
    for i := 0 to |rules|
      invariant forall j :: 0 <= j < i ==> rules[j].id != id
    {
      if rules[i].id == id {
        return Some(rules[i]);
      }
    }
    return None;
  }

  lemma FoundIsEntry(rules: seq<Planned>, i: nat, rule: Planned)
    requires Distinct(rules) && i < |rules| && rule in rules && rule.id == rules[i].id
    ensures rule == rules[i]
  {
    var j :| 0 <= j < |rules| && rules[j] == rule;
    if i < j {
      DistinctIds(rules, i, j);
    } else if j < i {
      DistinctIds(rules, j, i);
    }
  }

  lemma {:induction false} ReadableUpTo(ops: seq<Operation>, i: nat)
    requires i <= |ops| && (forall j :: 0 <= j < i ==> !Blocks(ops[j])) && (i < |ops| ==> Blocks(ops[i]))
    ensures Readable(ops) == ops[..i]
    decreases i
  {
    if i > 0 {
      ReadableUpTo(ops[1..], i - 1);
      assert ops[..i] == [ops[0]] + ops[1..][..i - 1];
    }
  }

  lemma KeptStart(refuses: Refusals, from: nat)
    ensures Kept([], refuses, from) == map[] && RefusedErrors([], refuses, from) == []
    ensures forall plan: seq<Planned> :: plan[..0] == []
  {
  }

  lemma KeptStep(plan: seq<Planned>, i: nat, refuses: Refusals, from: nat)
    requires i < |plan|
    ensures Kept(plan[..i + 1], refuses, from) ==
            if refuses(from + i) then Kept(plan[..i], refuses, from)
            else Kept(plan[..i], refuses, from)[plan[i].id := plan[i].op]
    ensures RefusedErrors(plan[..i + 1], refuses, from)
         == RefusedErrors(plan[..i], refuses, from) + if refuses(from + i) then [Refused(plan[i].op.ruleId)] else []
  {
    assert plan[..i + 1][..i] == plan[..i];
  }

  lemma PlanParts(ops: seq<Operation>)
    requires |ops| <= REDIRECT_QUERY_ID_MAX
    ensures Plan(ops) == Place(ops) + HeaderPlan(Selected(ops, IsHeader))
  {
  }

  lemma HydratedStep(seen: set<int>, id: int, index: Index, byRuleId: map<string, Operation>,
                     redirectQuery: bool, header: bool)
    requires id !in seen
    ensures Hydrated(seen + {id}, index, byRuleId, redirectQuery, header) ==
            if id in index && Recovers(id, index[id], byRuleId, redirectQuery, header)
            then Hydrated(seen, index, byRuleId, redirectQuery, header)[id := RecoveredOp(index[id], byRuleId)]
            else Hydrated(seen, index, byRuleId, redirectQuery, header)
  {
  }

  lemma InstalledForgets(san: Sanitizer, w: World, v: World, ops: seq<Operation>, refuses: Refusals)
    requires |ops| <= REDIRECT_QUERY_ID_MAX && w.rules == v.rules && w.index == v.index && w.calls == v.calls
    ensures Installed(san, w, ops, refuses) == Installed(san, v, ops, refuses)
  {
    hide Plan, Kept, RefusedErrors, Reindexed, DynamicErrors, Live, Orphans;
  }

  lemma NothingLive()
    ensures Live(map[]) == map[]
  {
  }

  lemma OneMoreLive(rules: map<int, DynamicRule>, tracked: map<int, Operation>, id: int, op: Operation)
    ensures Live(map[id := op]).Keys == {id}
    ensures (rules + Live(tracked) - {id}) + Live(map[id := op]) == rules + Live(tracked[id := op])
  {
  }

  lemma NothingPlanned(refuses: Refusals, from: nat)
    ensures Plan([]) == [] && RefusedErrors([], refuses, from) == []
  {
  }

  lemma CollectStart()
    ensures Place([]) == [] && Selected([], IsHeader) == [] && DynamicErrors([]) == []
    ensures Desired([]) == map[] && forall ops: seq<Operation> :: ops[..0] == []
  {
  }

  lemma CollectStep(ops: seq<Operation>, i: nat, plan: seq<Planned>)
    requires i < |ops| <= REDIRECT_QUERY_ID_MAX && plan == Place(ops[..i])
    ensures |Desired(plan)| < REDIRECT_QUERY_ID_MAX
    ensures Place(ops[..i + 1]) ==
            if IsRedirectOrQuery(ops[i])
            then plan + [Planned(FirstFree(RuleIdHash(ops[i].ruleId), Desired(plan).Keys, 0), ops[i])]
            else plan
    ensures Selected(ops[..i + 1], IsHeader) == Selected(ops[..i], IsHeader) + if IsHeader(ops[i]) then [ops[i]] else []
    ensures DynamicErrors(ops[..i + 1])
         == DynamicErrors(ops[..i]) + if IsDynamicValue(ops[i]) then [DynamicValue(ops[i].ruleId)] else []
  {
    hide Desired, FirstFree, RuleIdHash;
    assert ops[..i + 1][..i] == ops[..i];
  }

  lemma {:induction false} SelectedDistinct(ops: seq<Operation>, keep: Operation -> bool)
    requires DistinctRuleIds(ops)
    ensures DistinctRuleIds(Selected(ops, keep))
    decreases |ops|
  {
    if ops != [] {
      var front, last := ops[..|ops| - 1], ops[|ops| - 1];
      SelectedDistinct(front, keep);
      SelectedOnly(front, keep);
      assert forall op :: op in front ==> op.ruleId != last.ruleId;
    }
  }
}
