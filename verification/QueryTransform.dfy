/** `packages/compiler/src/query.ts`: the query transform on the list of key/value pairs of a URL. Parsing and
    printing the query string are not part of this model. */
module QueryTransform {
  import opened Options

  datatype Param = Param(name: string, removes: bool, value: Option<string>)

  datatype Pair = Pair(key: string, value: string)

  // ----- the action as the browser reads it

  function Adds(params: seq<Param>): seq<Pair> {
    if params == [] then []
    else
      var last := params[|params| - 1];
      Adds(params[..|params| - 1])
      + if !last.removes && last.value.Some? then [Pair(last.name, last.value.value)] else []
  }

  function Removes(params: seq<Param>): set<string> {
    set i | 0 <= i < |params| && params[i].removes :: params[i].name
  }

  /** A map keeps a name at the place of its first insertion, with the value of its last. */
  function Order(adds: seq<Pair>): seq<string> {
    if adds == [] then []
    else
      var last := adds[|adds| - 1];
      var before := Order(adds[..|adds| - 1]);
      if last.key in before then before else before + [last.key]
  }

  function Values(adds: seq<Pair>): map<string, string> {
    if adds == [] then map[] else Values(adds[..|adds| - 1])[adds[|adds| - 1].key := adds[|adds| - 1].value]
  }

  // ----- the transform as a function

  /** The pairs that survive, when the names in `replaced` have had their first occurrence already. */
  function Walk(pairs: seq<Pair>, removed: set<string>, values: map<string, string>, replaced: set<string>): seq<Pair> {
    if pairs == [] then []
    else
      var p, rest := pairs[0], pairs[1..];
      if p.key in removed || p.key in replaced then Walk(rest, removed, values, replaced)
      else if p.key in values then [Pair(p.key, values[p.key])] + Walk(rest, removed, values, replaced + {p.key})
      else [p] + Walk(rest, removed, values, replaced)
  }

  /** The set names the pairs themselves gave a place to. */
  function Replaced(pairs: seq<Pair>, removed: set<string>, values: map<string, string>): set<string> {
    set i | 0 <= i < |pairs| && pairs[i].key !in removed && pairs[i].key in values :: pairs[i].key
  }

  function Missing(order: seq<string>, values: map<string, string>, replaced: set<string>): seq<Pair>
    requires forall n :: n in order ==> n in values
  {
    if order == [] then []
    else
      var n := order[|order| - 1];
      Missing(order[..|order| - 1], values, replaced) + if n in replaced then [] else [Pair(n, values[n])]
  }

  lemma {:induction false} OrderIsValues(adds: seq<Pair>)
    ensures forall n :: n in Order(adds) <==> n in Values(adds)
    ensures forall n :: n in Values(adds) ==> Pair(n, Values(adds)[n]) in adds
    ensures forall i, j :: 0 <= i < j < |Order(adds)| ==> Order(adds)[i] != Order(adds)[j]
    decreases |adds|
  {
    if adds != [] {
      OrderIsValues(adds[..|adds| - 1]);
    }
  }

  function Transform(pairs: seq<Pair>, params: seq<Param>): seq<Pair> {
    var removed, values := Removes(params), Values(Adds(params));
    OrderIsValues(Adds(params));
    Walk(pairs, removed, values, {}) + Missing(Order(Adds(params)), values, Replaced(pairs, removed, values))
  }

  // ----- the transform as the source runs it

  method QueryActionToDnr(params: seq<Param>) returns (adds: seq<Pair>, removes: seq<string>)
    ensures adds == Adds(params)
    ensures forall n :: n in removes <==> n in Removes(params)
  {
    adds, removes := [], [];
    for i := 0 to |params|
      invariant adds == Adds(params[..i])
      invariant forall n :: n in removes <==> n in Removes(params[..i])
    {
      var param := params[i];
      assert params[..i + 1][..i] == params[..i];
      RemovesGrow(params, i);
      if param.removes {
        removes := removes + [param.name];
      } else if param.value.Some? {
        adds := adds + [Pair(param.name, param.value.value)];
      }
    }
    assert params[..|params|] == params;
  }

  lemma RemovesGrow(params: seq<Param>, i: nat)
    requires i < |params|
    ensures Removes(params[..i + 1]) == Removes(params[..i]) + if params[i].removes then {params[i].name} else {}
  {
    var shorter, longer := params[..i], params[..i + 1];
    assert longer == shorter + [params[i]];
    forall n | n in Removes(shorter) ensures n in Removes(longer) {
      var j :| 0 <= j < |shorter| && shorter[j].removes && shorter[j].name == n;
      assert longer[j] == shorter[j];
    }
    if params[i].removes {
      assert longer[i].name in Removes(longer);
    }
  }

  method ApplyQueryTransform(existing: seq<Pair>, params: seq<Param>) returns (out: seq<Pair>)
    ensures out == Transform(existing, params)
  {
    hide Walk, Missing, Order, Values, Adds, Removes, Replaced;
    var adds, removeParams := QueryActionToDnr(params);
    var removed := set n | n in removeParams;
    assert removed == Removes(params);
    var order, values := ReadAdds(adds);
    OrderIsValues(adds);
    var walked, replaced := WalkPairs(existing, removed, values);
    var missing := ListMissing(order, values, replaced);
    out := walked + missing;
  }

  method ListMissing(order: seq<string>, values: map<string, string>, replaced: set<string>) returns (out: seq<Pair>)
    requires forall n :: n in order ==> n in values
    ensures out == Missing(order, values, replaced)
  {
    out := [];
    for i := 0 to |order|
      invariant out == Missing(order[..i], values, replaced)
    {
      assert order[..i + 1][..i] == order[..i];
      if order[i] !in replaced {
        out := out + [Pair(order[i], values[order[i]])];
      }
    }
    assert order[..|order|] == order;
  }

  method WalkPairs(existing: seq<Pair>, removed: set<string>, values: map<string, string>)
    returns (out: seq<Pair>, replaced: set<string>)
    ensures out == Walk(existing, removed, values, {}) && replaced == Replaced(existing, removed, values)
  {
    hide Walk, Replaced;
    NothingWalked(removed, values);
    assert existing[..0] == [] && existing[0..] == existing;
    out, replaced := [], {};
    for i := 0 to |existing|
      invariant replaced == Replaced(existing[..i], removed, values)
      invariant forall n :: n in replaced ==> n in values && n !in removed
      invariant out + Walk(existing[i..], removed, values, replaced) == Walk(existing, removed, values, {})
    {
      var p := existing[i];
      ReplacedGrows(existing, i, removed, values);
      WalkStep(existing, i, removed, values, replaced);
      if p.key in removed {
      } else if p.key in values {
        if p.key !in replaced {
          replaced := replaced + {p.key};
          out := out + [Pair(p.key, values[p.key])];
        }
      } else {
        out := out + [p];
      }
    }
    assert existing[..|existing|] == existing && existing[|existing|..] == [];
    NothingWalkedYet(removed, values, replaced);
  }

  lemma NothingWalked(removed: set<string>, values: map<string, string>)
    ensures Replaced([], removed, values) == {}
  {
  }

  lemma NothingWalkedYet(removed: set<string>, values: map<string, string>, replaced: set<string>)
    ensures Walk([], removed, values, replaced) == []
  {
  }

  method ReadAdds(adds: seq<Pair>) returns (order: seq<string>, values: map<string, string>)
    ensures order == Order(adds) && values == Values(adds)
  {
    order, values := [], map[];
    for i := 0 to |adds|
      invariant order == Order(adds[..i]) && values == Values(adds[..i])
    {
      OrderIsValues(adds[..i]);
      assert adds[..i + 1][..i] == adds[..i];
      if adds[i].key !in values {
        order := order + [adds[i].key];
      }
      values := values[adds[i].key := adds[i].value];
    }
    assert adds[..|adds|] == adds;
  }

  lemma ReplacedGrows(pairs: seq<Pair>, i: nat, removed: set<string>, values: map<string, string>)
    requires i < |pairs|
    ensures Replaced(pairs[..i + 1], removed, values)
         == Replaced(pairs[..i], removed, values)
            + if pairs[i].key !in removed && pairs[i].key in values then {pairs[i].key} else {}
  {
    var shorter, longer := pairs[..i], pairs[..i + 1];
    assert longer == shorter + [pairs[i]];
    forall n | n in Replaced(shorter, removed, values) ensures n in Replaced(longer, removed, values) {
      var j :| 0 <= j < |shorter| && shorter[j].key == n && n !in removed && n in values;
      assert longer[j] == shorter[j];
    }
    if pairs[i].key !in removed && pairs[i].key in values {
      assert longer[i].key in Replaced(longer, removed, values);
    }
  }

  lemma WalkStep(pairs: seq<Pair>, i: nat, removed: set<string>, values: map<string, string>, replaced: set<string>)
    requires i < |pairs| && forall n :: n in replaced ==> n in values && n !in removed
    ensures var p, rest := pairs[i], pairs[i + 1..];
            Walk(pairs[i..], removed, values, replaced) ==
            if p.key in removed then Walk(rest, removed, values, replaced)
            else if p.key in values then
              if p.key in replaced then Walk(rest, removed, values, replaced)
              else [Pair(p.key, values[p.key])] + Walk(rest, removed, values, replaced + {p.key})
            else [p] + Walk(rest, removed, values, replaced)
  {
    assert pairs[i..][1..] == pairs[i + 1..];
  }

  // ----- what the transform promises

  /** Validated actions name each parameter once, and give every parameter to set a value. */
  ghost predicate IsValidated(params: seq<Param>) {
    && (forall i, j :: 0 <= i < j < |params| ==> params[i].name != params[j].name)
    && (forall i :: 0 <= i < |params| && !params[i].removes ==> params[i].value.Some?)
  }

  /** The pairs with the given key, in order. */
  function Named(pairs: seq<Pair>, key: string): seq<Pair> {
    if pairs == [] then []
    else (if pairs[0].key == key then [pairs[0]] else []) + Named(pairs[1..], key)
  }

  /** The pairs whose key the action does not mention, in order. */
  function Unrelated(pairs: seq<Pair>, keys: set<string>): seq<Pair> {
    if pairs == [] then []
    else (if pairs[0].key in keys then [] else [pairs[0]]) + Unrelated(pairs[1..], keys)
  }

  lemma {:induction false} NamedJoins(a: seq<Pair>, b: seq<Pair>, key: string)
    ensures Named(a + b, key) == Named(a, key) + Named(b, key)
    decreases |a|
  {
    if a == [] {
      assert a + b == b;
    } else {
      assert (a + b)[1..] == a[1..] + b;
      NamedJoins(a[1..], b, key);
    }
  }

  lemma {:induction false} UnrelatedJoins(a: seq<Pair>, b: seq<Pair>, keys: set<string>)
    ensures Unrelated(a + b, keys) == Unrelated(a, keys) + Unrelated(b, keys)
    decreases |a|
  {
    if a == [] {
      assert a + b == b;
    } else {
      assert (a + b)[1..] == a[1..] + b;
      UnrelatedJoins(a[1..], b, keys);
    }
  }

  lemma {:induction false} WalkNames(pairs: seq<Pair>, removed: set<string>, values: map<string, string>,
                                     replaced: set<string>, key: string)
    requires key in removed || key in values
    ensures Named(Walk(pairs, removed, values, replaced), key) ==
            if key in removed || key in replaced || !(exists i :: 0 <= i < |pairs| && pairs[i].key == key) then []
            else [Pair(key, values[key])]
    decreases |pairs|
  {
    if pairs != [] {
      var p, rest := pairs[0], pairs[1..];
      assert forall i :: 0 <= i < |rest| ==> rest[i] == pairs[i + 1];
      if exists i :: 0 <= i < |pairs| && pairs[i].key == key {
        var i :| 0 <= i < |pairs| && pairs[i].key == key;
        assert i > 0 ==> rest[i - 1].key == key;
      }
      if p.key in removed || p.key in replaced {
        WalkNames(rest, removed, values, replaced, key);
      } else if p.key in values {
        WalkNames(rest, removed, values, replaced + {p.key}, key);
        NamedJoins([Pair(p.key, values[p.key])], Walk(rest, removed, values, replaced + {p.key}), key);
      } else {
        WalkNames(rest, removed, values, replaced, key);
        NamedJoins([p], Walk(rest, removed, values, replaced), key);
      }
    }
  }

  lemma {:induction false} WalkKeepsUnrelated(pairs: seq<Pair>, removed: set<string>, values: map<string, string>,
                                              replaced: set<string>)
    requires replaced <= values.Keys
    ensures Unrelated(Walk(pairs, removed, values, replaced), removed + values.Keys)
         == Unrelated(pairs, removed + values.Keys)
    decreases |pairs|
  {
    if pairs != [] {
      var p, rest, keys := pairs[0], pairs[1..], removed + values.Keys;
      if p.key in removed || p.key in replaced {
        WalkKeepsUnrelated(rest, removed, values, replaced);
      } else if p.key in values {
        WalkKeepsUnrelated(rest, removed, values, replaced + {p.key});
        UnrelatedJoins([Pair(p.key, values[p.key])], Walk(rest, removed, values, replaced + {p.key}), keys);
      } else {
        WalkKeepsUnrelated(rest, removed, values, replaced);
        UnrelatedJoins([p], Walk(rest, removed, values, replaced), keys);
      }
    }
  }

  lemma {:induction false} MissingNames(order: seq<string>, values: map<string, string>, replaced: set<string>, key: string)
    requires forall n :: n in order ==> n in values
    requires forall i, j :: 0 <= i < j < |order| ==> order[i] != order[j]
    ensures Named(Missing(order, values, replaced), key) ==
            if key in order && key !in replaced then [Pair(key, values[key])] else []
    decreases |order|
  {
    if order != [] {
      var n := order[|order| - 1];
      MissingNames(order[..|order| - 1], values, replaced, key);
      NamedJoins(Missing(order[..|order| - 1], values, replaced), if n in replaced then [] else [Pair(n, values[n])], key);
    }
  }

  lemma {:induction false} MissingIsRelated(order: seq<string>, values: map<string, string>, replaced: set<string>, keys: set<string>)
    requires forall n :: n in order ==> n in values && n in keys
    ensures Unrelated(Missing(order, values, replaced), keys) == []
    decreases |order|
  {
    if order != [] {
      var n := order[|order| - 1];
      MissingIsRelated(order[..|order| - 1], values, replaced, keys);
      UnrelatedJoins(Missing(order[..|order| - 1], values, replaced), if n in replaced then [] else [Pair(n, values[n])], keys);
    }
  }

  lemma {:induction false} AddsMeaning(params: seq<Param>)
    requires IsValidated(params)
    ensures forall p :: p in Adds(params) <==>
              exists i :: 0 <= i < |params| && !params[i].removes && params[i].name == p.key && params[i].value == Some(p.value)
    decreases |params|
  {
    if params != [] {
      AddsMeaning(params[..|params| - 1]);
    }
  }

  /** Every name the action sets occurs exactly once, with its value. */
  lemma SetNamesOnce(pairs: seq<Pair>, params: seq<Param>, i: nat)
    requires IsValidated(params) && i < |params| && !params[i].removes
    ensures Named(Transform(pairs, params), params[i].name) == [Pair(params[i].name, params[i].value.value)]
  {
    hide Transform, Walk, Missing, Order, Values, Adds;
    var removed, values, key := Removes(params), Values(Adds(params)), params[i].name;
    SetValue(params, i);
    SetAndRemovedApart(params);
    TransformNames(pairs, params, key);
  }

  lemma SetValue(params: seq<Param>, i: nat)
    requires IsValidated(params) && i < |params| && !params[i].removes
    ensures params[i].name in Values(Adds(params)) && params[i].name !in Removes(params)
    ensures Values(Adds(params))[params[i].name] == params[i].value.value
  {
    hide Values, Order, Adds;
    AddsMeaning(params);
    OrderIsValues(Adds(params));
    ValuesHave(Adds(params), Pair(params[i].name, params[i].value.value));
    assert Pair(params[i].name, Values(Adds(params))[params[i].name]) in Adds(params);
  }

  lemma {:induction false} ValuesHave(adds: seq<Pair>, p: Pair)
    requires p in adds
    ensures p.key in Values(adds)
    decreases |adds|
  {
    if p in adds[..|adds| - 1] {
      ValuesHave(adds[..|adds| - 1], p);
    }
  }

  /** A name the action mentions ends up with the action's value, or nowhere. */
  lemma TransformNames(pairs: seq<Pair>, params: seq<Param>, key: string)
    requires key in Removes(params) || key in Values(Adds(params))
    requires Removes(params) !! Values(Adds(params)).Keys
    ensures Named(Transform(pairs, params), key) ==
            if key in Removes(params) then [] else [Pair(key, Values(Adds(params))[key])]
  {
    hide Walk, Missing, Order, Values, Adds, Removes;
    var removed, values := Removes(params), Values(Adds(params));
    var replaced := Replaced(pairs, removed, values);
    OrderIsValues(Adds(params));
    WalkNames(pairs, removed, values, {}, key);
    MissingNames(Order(Adds(params)), values, replaced, key);
    NamedJoins(Walk(pairs, removed, values, {}), Missing(Order(Adds(params)), values, replaced), key);
  }

  lemma SetAndRemovedApart(params: seq<Param>)
    requires IsValidated(params)
    ensures Removes(params) !! Values(Adds(params)).Keys
  {
    hide Values, Order, Adds;
    AddsMeaning(params);
    OrderIsValues(Adds(params));
    forall n | n in Values(Adds(params)) ensures n !in Removes(params) {
      assert Pair(n, Values(Adds(params))[n]) in Adds(params);
    }
  }

  /** Every name the action removes is gone. */
  lemma RemovedNamesGone(pairs: seq<Pair>, params: seq<Param>, i: nat)
    requires IsValidated(params) && i < |params| && params[i].removes
    ensures Named(Transform(pairs, params), params[i].name) == []
  {
    hide Transform, Values, Adds;
    SetAndRemovedApart(params);
    TransformNames(pairs, params, params[i].name);
  }

  /** All other pairs stay, in their original order. */
  lemma OthersKeepOrder(pairs: seq<Pair>, params: seq<Param>)
    requires IsValidated(params)
    ensures var keys := set i | 0 <= i < |params| :: params[i].name;
            Unrelated(Transform(pairs, params), keys) == Unrelated(pairs, keys)
  {
    hide Walk, Missing, Order, Values, Adds;
    var removed, values := Removes(params), Values(Adds(params));
    MentionedKeys(params);
    OrderIsValues(Adds(params));
    WalkKeepsUnrelated(pairs, removed, values, {});
    var missing := Missing(Order(Adds(params)), values, Replaced(pairs, removed, values));
    MissingIsRelated(Order(Adds(params)), values, Replaced(pairs, removed, values), removed + values.Keys);
    UnrelatedJoins(Walk(pairs, removed, values, {}), missing, removed + values.Keys);
  }

  lemma MentionedKeys(params: seq<Param>)
    requires IsValidated(params)
    ensures Removes(params) + Values(Adds(params)).Keys == set i | 0 <= i < |params| :: params[i].name
  {
    hide Values, Order, Adds;
    var keys := set i | 0 <= i < |params| :: params[i].name;
    forall n | n in keys ensures n in Removes(params) + Values(Adds(params)).Keys {
      var i :| 0 <= i < |params| && params[i].name == n;
      if !params[i].removes {
        SetValue(params, i);
      }
    }
    AddsMeaning(params);
    OrderIsValues(Adds(params));
    forall n | n in Values(Adds(params)) ensures n in keys {
      assert Pair(n, Values(Adds(params))[n]) in Adds(params);
    }
  }

  // ----- doing it twice

  /** Nothing is left to remove, and every set name has its value and occurs at most once. */
  predicate Settled(pairs: seq<Pair>, removed: set<string>, values: map<string, string>, replaced: set<string>) {
    pairs == []
    || (&& pairs[0].key !in removed && pairs[0].key !in replaced
        && (pairs[0].key in values ==> pairs[0].value == values[pairs[0].key])
        && Settled(pairs[1..], removed, values, if pairs[0].key in values then replaced + {pairs[0].key} else replaced))
  }

  lemma {:induction false} SettledStays(pairs: seq<Pair>, removed: set<string>, values: map<string, string>, replaced: set<string>)
    requires Settled(pairs, removed, values, replaced)
    ensures Walk(pairs, removed, values, replaced) == pairs
    decreases |pairs|
  {
    if pairs != [] {
      SettledStays(pairs[1..], removed, values, if pairs[0].key in values then replaced + {pairs[0].key} else replaced);
    }
  }

  /** The set names a list gives a place to, on top of those in `replaced`. */
  function After(pairs: seq<Pair>, values: map<string, string>, replaced: set<string>): set<string> {
    if pairs == [] then replaced
    else After(pairs[1..], values, if pairs[0].key in values then replaced + {pairs[0].key} else replaced)
  }

  lemma {:induction false} SettledJoins(a: seq<Pair>, b: seq<Pair>, removed: set<string>, values: map<string, string>,
                                        replaced: set<string>)
    requires Settled(a, removed, values, replaced) && Settled(b, removed, values, After(a, values, replaced))
    ensures Settled(a + b, removed, values, replaced)
    decreases |a|
  {
    if a == [] {
      assert a + b == b;
    } else {
      assert (a + b)[1..] == a[1..] + b;
      SettledJoins(a[1..], b, removed, values, if a[0].key in values then replaced + {a[0].key} else replaced);
    }
  }

  lemma {:induction false} WalkSettles(pairs: seq<Pair>, removed: set<string>, values: map<string, string>, replaced: set<string>)
    ensures Settled(Walk(pairs, removed, values, replaced), removed, values, replaced)
    ensures After(Walk(pairs, removed, values, replaced), values, replaced) == replaced + Replaced(pairs, removed, values)
    decreases |pairs|
  {
    if pairs != [] {
      var p, rest := pairs[0], pairs[1..];
      assert pairs[..1] + rest == pairs;
      ReplacedHead(pairs, removed, values);
      if p.key in removed || p.key in replaced {
        WalkSettles(rest, removed, values, replaced);
      } else if p.key in values {
        WalkSettles(rest, removed, values, replaced + {p.key});
      } else {
        WalkSettles(rest, removed, values, replaced);
      }
    }
  }

  lemma ReplacedHead(pairs: seq<Pair>, removed: set<string>, values: map<string, string>)
    requires pairs != []
    ensures Replaced(pairs, removed, values)
         == Replaced(pairs[1..], removed, values)
            + if pairs[0].key !in removed && pairs[0].key in values then {pairs[0].key} else {}
  {
    var rest := pairs[1..];
    assert forall i :: 0 <= i < |rest| ==> rest[i] == pairs[i + 1];
    forall n | n in Replaced(pairs, removed, values) && n != pairs[0].key ensures n in Replaced(rest, removed, values) {
      var i :| 0 <= i < |pairs| && pairs[i].key == n && n !in removed && n in values;
      assert rest[i - 1].key == n;
    }
  }

  lemma {:induction false} MissingSettles(order: seq<string>, removed: set<string>, values: map<string, string>, replaced: set<string>)
    requires forall n :: n in order ==> n in values && n !in removed
    requires forall i, j :: 0 <= i < j < |order| ==> order[i] != order[j]
    ensures var missing := Missing(order, values, replaced);
            && Settled(missing, removed, values, replaced)
            && After(missing, values, replaced) == replaced + (set n | n in order)
    decreases |order|
  {
    if order != [] {
      var n, front := order[|order| - 1], order[..|order| - 1];
      MissingSettles(front, removed, values, replaced);
      assert n !in front;
      if n in replaced {
        assert Missing(front, values, replaced) + [] == Missing(front, values, replaced);
      } else {
        var one := [Pair(n, values[n])];
        assert one[1..] == [];
        SettledJoins(Missing(front, values, replaced), one, removed, values, replaced);
        AfterJoins(Missing(front, values, replaced), one, values, replaced);
      }
      assert (set m | m in order) == (set m | m in front) + {n};
    }
  }

  lemma {:induction false} AfterJoins(a: seq<Pair>, b: seq<Pair>, values: map<string, string>, replaced: set<string>)
    ensures After(a + b, values, replaced) == After(b, values, After(a, values, replaced))
    decreases |a|
  {
    if a == [] {
      assert a + b == b;
    } else {
      assert (a + b)[1..] == a[1..] + b;
      AfterJoins(a[1..], b, values, if a[0].key in values then replaced + {a[0].key} else replaced);
    }
  }

  lemma {:induction false} NothingMissing(order: seq<string>, values: map<string, string>, replaced: set<string>)
    requires forall n :: n in order ==> n in values && n in replaced
    ensures Missing(order, values, replaced) == []
    decreases |order|
  {
    if order != [] {
      NothingMissing(order[..|order| - 1], values, replaced);
    }
  }

  /** The transform is idempotent on validated actions. */
  lemma TransformIdempotent(pairs: seq<Pair>, params: seq<Param>)
    requires IsValidated(params)
    ensures Transform(Transform(pairs, params), params) == Transform(pairs, params)
  {
    hide Walk, Missing, Order, Values, Adds, Removes, Settled, After, Replaced;
    var removed, values, order := Removes(params), Values(Adds(params)), Order(Adds(params));
    var out := Transform(pairs, params);
    OrderIsValues(Adds(params));
    SetAndRemovedApart(params);
    var walked, replaced := Walk(pairs, removed, values, {}), Replaced(pairs, removed, values);
    WalkSettles(pairs, removed, values, {});
    assert {} + replaced == replaced;
    MissingSettles(order, removed, values, replaced);
    SettledJoins(walked, Missing(order, values, replaced), removed, values, {});
    AfterJoins(walked, Missing(order, values, replaced), values, {});
    SettledStays(out, removed, values, {});
    WalkSettles(out, removed, values, {});
    assert {} + Replaced(out, removed, values) == Replaced(out, removed, values);
    NothingMissing(order, values, Replaced(out, removed, values));
  }
}
