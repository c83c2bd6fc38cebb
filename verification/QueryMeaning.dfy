/** The list a query transform gives, place by place, for any action, validated or not
    (`packages/compiler/src/query.ts:21-90`). */
module QueryMeaning {
  import opened Options
  import opened Listing
  import opened QueryTransform

  /** The action removes the name. */
  ghost predicate Drops(params: seq<Param>, name: string) {
    exists i :: 0 <= i < |params| && params[i].removes && params[i].name == name
  }

  predicate SetsAt(params: seq<Param>, i: nat, name: string)
    requires i < |params|
  {
    !params[i].removes && params[i].name == name && params[i].value != None
  }

  /** The last parameter that sets the name gives it this value. */
  ghost predicate Sets(params: seq<Param>, name: string, value: string) {
    exists i: nat :: i < |params| && LastSets(params, i, name) && params[i].value == Some(value)
  }

  ghost predicate LastSets(params: seq<Param>, i: nat, name: string)
    requires i < |params|
  {
    SetsAt(params, i, name) && forall j: nat :: i < j < |params| ==> !SetsAt(params, j, name)
  }

  /** The first parameter that sets the name. */
  ghost predicate FirstSets(params: seq<Param>, i: nat, name: string) {
    i < |params| && SetsAt(params, i, name) && forall j: nat :: j < i ==> !SetsAt(params, j, name)
  }

  ghost predicate SetsName(params: seq<Param>, name: string) {
    exists i: nat :: i < |params| && SetsAt(params, i, name)
  }

  ghost predicate FirstOfItsName(pairs: seq<Pair>, i: nat)
    requires i < |pairs|
  {
    forall j :: 0 <= j < i ==> pairs[j].key != pairs[i].key
  }

  /** A pair keeps a place unless its name is removed, or set and already met. */
  ghost function Stays(pairs: seq<Pair>, params: seq<Param>): nat -> bool {
    (i: nat) =>
      i < |pairs| && !Drops(params, pairs[i].key) && (SetsName(params, pairs[i].key) ==> FirstOfItsName(pairs, i))
  }

  ghost predicate StandsFor(p: Pair, out: Pair, params: seq<Param>) {
    out.key == p.key && (if SetsName(params, p.key) then Sets(params, p.key, out.value) else out.value == p.value)
  }

  /** The pairs that keep their places, in order, those of a set name with its new value. */
  ghost predicate InPlace(pairs: seq<Pair>, params: seq<Param>, front: seq<Pair>) {
    exists at: seq<nat> :: Lists(|pairs|, Stays(pairs, params), at) && AllStandFor(pairs, params, at, front)
  }

  ghost predicate AllStandFor(pairs: seq<Pair>, params: seq<Param>, at: seq<nat>, front: seq<Pair>) {
    |front| == |at| && forall k :: 0 <= k < |at| ==> at[k] < |pairs| && StandsFor(pairs[at[k]], front[k], params)
  }

  /** A set name that took no place is added. */
  ghost predicate Added(pairs: seq<Pair>, params: seq<Param>, name: string) {
    SetsName(params, name) && (Drops(params, name) || forall i :: 0 <= i < |pairs| ==> pairs[i].key != name)
  }

  /** The added names, each once, in the order the action first sets them. */
  ghost predicate AtTheEnd(pairs: seq<Pair>, params: seq<Param>, tail: seq<Pair>) {
    && (forall k :: 0 <= k < |tail| ==> Added(pairs, params, tail[k].key) && Sets(params, tail[k].key, tail[k].value))
    && (forall name :: Added(pairs, params, name) ==> exists k :: 0 <= k < |tail| && tail[k].key == name)
    && forall j, k, a, b :: 0 <= j < k < |tail| && FirstSets(params, a, tail[j].key) && FirstSets(params, b, tail[k].key) ==> a < b
  }

  ghost predicate IsTransform(pairs: seq<Pair>, params: seq<Param>, out: seq<Pair>) {
    exists front: seq<Pair>, tail: seq<Pair> ::
      out == front + tail && InPlace(pairs, params, front) && AtTheEnd(pairs, params, tail)
  }

  // ----- the action

  lemma RemovesMean(params: seq<Param>)
    ensures forall name :: name in Removes(params) <==> Drops(params, name)
  {
  }

  lemma SetsNameMore(params: seq<Param>, last: Param, name: string)
    ensures SetsName(params + [last], name) <==> SetsName(params, name) || SetsAt([last], 0, name)
    ensures forall i: nat :: FirstSets(params, i, name) ==> FirstSets(params + [last], i, name)
    ensures !SetsName(params, name) && SetsAt([last], 0, name) ==> FirstSets(params + [last], |params|, name)
  {
    var all := params + [last];
    assert all[|params|] == last;
    assert forall i: nat :: i < |params| ==> all[i] == params[i] && SetsAt(all, i, name) == SetsAt(params, i, name);
    if i: nat :| i < |all| && SetsAt(all, i, name) {
      assert i == |params| || SetsAt(params, i, name);
    }
    if SetsAt([last], 0, name) {
      assert SetsAt(all, |params|, name);
    }
  }

  lemma SetsMore(params: seq<Param>, last: Param, name: string, value: string)
    ensures SetsAt([last], 0, name) ==> (last.value == Some(value) ==> Sets(params + [last], name, value))
    ensures !SetsAt([last], 0, name) && Sets(params, name, value) ==> Sets(params + [last], name, value)
  {
    var all := params + [last];
    assert all[|params|] == last;
    assert forall i: nat :: i < |params| ==> SetsAt(all, i, name) == SetsAt(params, i, name);
    if SetsAt([last], 0, name) {
      assert LastSets(all, |params|, name);
    } else if Sets(params, name, value) {
      var i: nat :| i < |params| && LastSets(params, i, name) && params[i].value == Some(value);
      assert LastSets(all, i, name);
    }
  }

  lemma {:induction false} ValuesMean(params: seq<Param>)
    ensures forall name :: name in Values(Adds(params)) <==> SetsName(params, name)
    ensures forall name :: name in Values(Adds(params)) ==> Sets(params, name, Values(Adds(params))[name])
    decreases |params|
  {
    hide Sets;
    if params != [] {
      var front, last := params[..|params| - 1], params[|params| - 1];
      assert params == front + [last];
      ValuesMean(front);
      AddsMore(front, last);
      forall name ensures name in Values(Adds(params)) <==> SetsName(params, name) {
        SetsNameMore(front, last, name);
      }
      forall name | name in Values(Adds(params)) ensures Sets(params, name, Values(Adds(params))[name]) {
        SetsMore(front, last, name, Values(Adds(params))[name]);
      }
    }
  }

  lemma AddsMore(front: seq<Param>, last: Param)
    ensures Adds(front + [last]) == Adds(front) + if SetsAt([last], 0, last.name) then [Pair(last.name, last.value.value)] else []
    ensures Values(Adds(front + [last]))
         == if SetsAt([last], 0, last.name) then Values(Adds(front))[last.name := last.value.value] else Values(Adds(front))
    ensures Order(Adds(front + [last]))
         == if SetsAt([last], 0, last.name) && last.name !in Order(Adds(front)) then Order(Adds(front)) + [last.name]
            else Order(Adds(front))
  {
    assert (front + [last])[..|front|] == front;
    if SetsAt([last], 0, last.name) {
      var more := Adds(front) + [Pair(last.name, last.value.value)];
      assert more[..|more| - 1] == Adds(front);
    } else {
      assert Adds(front) + [] == Adds(front);
    }
  }

  ghost predicate InSettingOrder(params: seq<Param>, names: seq<string>) {
    forall j, k, a, b :: 0 <= j < k < |names| && FirstSets(params, a, names[j]) && FirstSets(params, b, names[k]) ==> a < b
  }

  lemma FirstIsFirst(params: seq<Param>, i: nat, j: nat, name: string)
    requires FirstSets(params, i, name) && FirstSets(params, j, name)
    ensures i == j
  {
  }

  lemma {:induction false} OrderMeans(params: seq<Param>)
    ensures InSettingOrder(params, Order(Adds(params)))
    ensures forall name :: name in Order(Adds(params)) ==> exists i: nat :: i < |params| && FirstSets(params, i, name)
    decreases |params|
  {
    hide FirstSets, Order, Adds;
    if params == [] {
      NoOrder();
    } else {
      var front, last := params[..|params| - 1], params[|params| - 1];
      assert params == front + [last];
      OrderMeans(front);
      AddsMore(front, last);
      var names, all := Order(Adds(front)), Order(Adds(params));
      forall name | name in all ensures exists i: nat :: i < |params| && FirstSets(params, i, name) {
        FirstKept(front, last, names, name);
      }
      forall j, k, a, b | 0 <= j < k < |all| && FirstSets(params, a, all[j]) && FirstSets(params, b, all[k]) ensures a < b {
        OrderStep(front, last, names, all, j, k, a, b);
      }
    }
  }

  lemma NoOrder()
    ensures Order(Adds([])) == []
  {
  }

  lemma {:induction false} FirstKept(front: seq<Param>, last: Param, names: seq<string>, name: string)
    requires names == Order(Adds(front))
    requires name in names ==> exists i: nat :: i < |front| && FirstSets(front, i, name)
    requires name in names || (name == last.name && SetsAt([last], 0, name))
    ensures name in names ==> exists i: nat :: i < |front| && FirstSets(front + [last], i, name)
    ensures name !in names ==> FirstSets(front + [last], |front|, name)
  {
    SetsNameMore(front, last, name);
    ValuesMean(front);
    OrderIsValues(Adds(front));
  }

  lemma {:induction false} OrderStep(front: seq<Param>, last: Param, names: seq<string>, all: seq<string>,
                                     j: nat, k: nat, a: nat, b: nat)
    requires names == Order(Adds(front)) && InSettingOrder(front, names)
    requires forall name :: name in names ==> exists i: nat :: i < |front| && FirstSets(front, i, name)
    requires all == names || (all == names + [last.name] && last.name !in names && SetsAt([last], 0, last.name))
    requires j < k < |all| && FirstSets(front + [last], a, all[j]) && FirstSets(front + [last], b, all[k])
    ensures a < b
  {
    hide FirstSets;
    assert all[j] == names[j] && names[j] in names;
    var i: nat :| i < |front| && FirstSets(front, i, all[j]);
    SetsNameMore(front, last, all[j]);
    FirstIsFirst(front + [last], a, i, all[j]);
    FirstKept(front, last, names, all[k]);
    if k < |names| {
      var i2: nat :| i2 < |front| && FirstSets(front, i2, all[k]);
      SetsNameMore(front, last, all[k]);
      FirstIsFirst(front + [last], b, i2, all[k]);
    } else {
      FirstIsFirst(front + [last], b, |front|, all[k]);
    }
  }

  // ----- the walk

  function StaysFrom(pairs: seq<Pair>, removed: set<string>, values: map<string, string>, replaced: set<string>): nat -> bool {
    (i: nat) =>
      i < |pairs| && pairs[i].key !in removed && pairs[i].key !in replaced
      && (pairs[i].key in values ==> forall j :: 0 <= j < i ==> pairs[j].key != pairs[i].key)
  }

  predicate Standing(pairs: seq<Pair>, values: map<string, string>, at: seq<nat>, front: seq<Pair>) {
    |front| == |at|
    && forall k :: 0 <= k < |at| ==>
         at[k] < |pairs|
         && front[k] == if pairs[at[k]].key in values then Pair(pairs[at[k]].key, values[pairs[at[k]].key]) else pairs[at[k]]
  }

  lemma {:induction false} WalkMeans(pairs: seq<Pair>, removed: set<string>, values: map<string, string>, replaced: set<string>)
    returns (at: seq<nat>)
    ensures Lists(|pairs|, StaysFrom(pairs, removed, values, replaced), at)
    ensures Standing(pairs, values, at, Walk(pairs, removed, values, replaced))
    decreases |pairs|
  {
    hide Lists, StaysFrom, Standing, Walk;
    WalkHead(pairs, removed, values, replaced);
    if pairs == [] {
      at := [];
      NoneListed(StaysFrom([], removed, values, replaced));
      NoneStanding(values);
    } else {
      var p, rest := pairs[0], pairs[1..];
      var stays := p.key !in removed && p.key !in replaced;
      var met := if stays && p.key in values then replaced + {p.key} else replaced;
      var later := WalkMeans(rest, removed, values, met);
      StaysShift(pairs, removed, values, replaced, met);
      ListsFromFront(|rest|, StaysFrom(pairs, removed, values, replaced), StaysFrom(rest, removed, values, met), later);
      at := (if stays then [0] else []) + Later(later);
      StandingShift(pairs, values, later, Walk(rest, removed, values, met), stays);
    }
  }

  lemma WalkHead(pairs: seq<Pair>, removed: set<string>, values: map<string, string>, replaced: set<string>)
    ensures Walk(pairs, removed, values, replaced) ==
            if pairs == [] then []
            else
              var p := pairs[0];
              var stays := p.key !in removed && p.key !in replaced;
              (if stays then [if p.key in values then Pair(p.key, values[p.key]) else p] else [])
              + Walk(pairs[1..], removed, values, if stays && p.key in values then replaced + {p.key} else replaced)
  {
  }

  lemma NoneStanding(values: map<string, string>)
    ensures Standing([], values, [], [])
  {
  }

  lemma NoneListed(due: nat -> bool)
    ensures Lists(0, due, [])
  {
  }

  lemma StaysShift(pairs: seq<Pair>, removed: set<string>, values: map<string, string>, replaced: set<string>, met: set<string>)
    requires pairs != []
    requires met == if pairs[0].key !in removed && pairs[0].key !in replaced && pairs[0].key in values
                    then replaced + {pairs[0].key} else replaced
    ensures forall i: nat :: i < |pairs| - 1 ==>
              StaysFrom(pairs[1..], removed, values, met)(i) == StaysFrom(pairs, removed, values, replaced)(i + 1)
    ensures StaysFrom(pairs, removed, values, replaced)(0) == (pairs[0].key !in removed && pairs[0].key !in replaced)
  {
    var rest := pairs[1..];
    forall i: nat | i < |rest|
      ensures StaysFrom(rest, removed, values, met)(i) == StaysFrom(pairs, removed, values, replaced)(i + 1)
    {
      assert rest[i] == pairs[i + 1];
      assert (forall j :: 0 <= j < i + 1 ==> pairs[j].key != pairs[i + 1].key)
        <==> pairs[0].key != pairs[i + 1].key && forall j :: 0 <= j < i ==> rest[j].key != rest[i].key by {
        assert forall j :: 0 <= j < i ==> rest[j] == pairs[j + 1];
        assert forall j :: 1 <= j < i + 1 ==> pairs[j] == rest[j - 1];
      }
    }
  }

  lemma StandingShift(pairs: seq<Pair>, values: map<string, string>, later: seq<nat>, walked: seq<Pair>, stays: bool)
    requires pairs != [] && Standing(pairs[1..], values, later, walked)
    ensures var p := pairs[0];
            var first := if p.key in values then Pair(p.key, values[p.key]) else p;
            Standing(pairs, values, (if stays then [0] else []) + Later(later), (if stays then [first] else []) + walked)
  {
  }

  lemma {:induction false} MissingMeans(order: seq<string>, params: seq<Param>, values: map<string, string>,
                                        replaced: set<string>, tail: seq<Pair>)
    requires (forall n :: n in order ==> n in values) && InSettingOrder(params, order)
    requires tail == Missing(order, values, replaced)
    ensures forall k :: 0 <= k < |tail| ==>
              tail[k].key in order && tail[k].key !in replaced && tail[k].value == values[tail[k].key]
    ensures forall n :: n in order && n !in replaced ==> exists k :: 0 <= k < |tail| && tail[k].key == n
    ensures forall j, k, a, b ::
              0 <= j < k < |tail| && FirstSets(params, a, tail[j].key) && FirstSets(params, b, tail[k].key) ==> a < b
    decreases |order|
  {
    hide FirstSets;
    if order != [] {
      var last := |order| - 1;
      var front := Missing(order[..last], values, replaced);
      MissingMeans(order[..last], params, values, replaced, front);
      forall n | n in order && n !in replaced ensures exists k :: 0 <= k < |tail| && tail[k].key == n {
        if n == order[last] {
          assert tail[|tail| - 1].key == n;
        } else {
          var k :| 0 <= k < |front| && front[k].key == n;
          assert tail[k].key == n;
        }
      }
      forall j, k, a, b | 0 <= j < k < |tail| && FirstSets(params, a, tail[j].key) && FirstSets(params, b, tail[k].key)
        ensures a < b
      {
        if k == |front| {
          var i :| 0 <= i < last && order[i] == tail[j].key;
          assert tail[k].key == order[last];
        }
      }
    }
  }

  lemma ReplacedMeans(pairs: seq<Pair>, removed: set<string>, values: map<string, string>, n: string)
    requires n in values
    ensures n !in Replaced(pairs, removed, values) <==> n in removed || forall i :: 0 <= i < |pairs| ==> pairs[i].key != n
  {
  }

  /** Whatever the action, the list is this one. */
  lemma TransformMeans(pairs: seq<Pair>, params: seq<Param>)
    ensures IsTransform(pairs, params, Transform(pairs, params))
  {
    hide Walk, Missing, Order, Adds, Values, Removes, Replaced, Lists, Sets, SetsName, Drops, FirstSets;
    var removed, values, order := Removes(params), Values(Adds(params)), Order(Adds(params));
    var replaced := Replaced(pairs, removed, values);
    OrderIsValues(Adds(params));
    RemovesMean(params);
    ValuesMean(params);
    OrderMeans(params);
    var front, tail := Walk(pairs, removed, values, {}), Missing(order, values, replaced);
    var at := WalkMeans(pairs, removed, values, {});
    SameDue(|pairs|, StaysFrom(pairs, removed, values, {}), Stays(pairs, params), at);
    assert InPlace(pairs, params, front) by {
      assert AllStandFor(pairs, params, at, front);
    }
    MissingMeans(order, params, values, replaced, tail);
    forall n | n in values
      ensures n !in replaced <==> n in removed || forall i :: 0 <= i < |pairs| ==> pairs[i].key != n
    {
      ReplacedMeans(pairs, removed, values, n);
    }
    EndMeans(pairs, params, removed, values, replaced, order, tail);
  }

  lemma EndMeans(pairs: seq<Pair>, params: seq<Param>, removed: set<string>, values: map<string, string>,
                 replaced: set<string>, order: seq<string>, tail: seq<Pair>)
    requires forall name :: name in removed <==> Drops(params, name)
    requires forall name :: name in values <==> SetsName(params, name)
    requires forall name :: name in values ==> Sets(params, name, values[name])
    requires forall name :: name in order <==> name in values
    requires forall n :: n in values ==>
               (n !in replaced <==> n in removed || forall i :: 0 <= i < |pairs| ==> pairs[i].key != n)
    requires forall k :: 0 <= k < |tail| ==>
               tail[k].key in order && tail[k].key !in replaced && tail[k].value == values[tail[k].key]
    requires forall n :: n in order && n !in replaced ==> exists k :: 0 <= k < |tail| && tail[k].key == n
    requires forall j, k, a, b ::
               0 <= j < k < |tail| && FirstSets(params, a, tail[j].key) && FirstSets(params, b, tail[k].key) ==> a < b
    ensures AtTheEnd(pairs, params, tail)
  {
    hide Sets, SetsName, Drops, FirstSets;
    forall name | Added(pairs, params, name) ensures exists k :: 0 <= k < |tail| && tail[k].key == name {
      assert name in order && name !in replaced;
    }
    forall k | 0 <= k < |tail| ensures Added(pairs, params, tail[k].key) && Sets(params, tail[k].key, tail[k].value) {
      assert tail[k].key in values;
    }
  }
}
