/** When the copy succeeds, and what it returns. */
module SnapshotProofs {
  import opened Decimal
  import opened Options
  import opened Snapshot

  // ----- what is asked of a node

  /** The node's own property `key` is the enumerable data property `v`. */
  ghost predicate OwnData(n: Node, key: string, v: Value)
    requires !n.Hostile?
  {
    exists j :: 0 <= j < |n.props| && n.props[j] == Prop(key, Data(v, true)) && FirstNamed(n.props, j)
  }

  /** No earlier property has the name of the `j`-th. */
  predicate FirstNamed(props: seq<Prop>, j: nat)
    requires j < |props|
  {
    forall i :: 0 <= i < j ==> props[i].key != props[j].key
  }

  /** A symbol key, a throw on inspection; for a record a property that is an accessor or not enumerable; for an
      array a length that is missing, negative or unsafe, a key that is neither `length` nor the text of an index
      below it, or such an index that is no own enumerable data property. */
  ghost predicate RefusedOnSight(n: Node) {
    match n
    case Hostile => true
    case Plain(symbols, props) =>
      symbols || exists i :: 0 <= i < |props| && !IsData(props[i].descriptor)
    case Array(symbols, length, props) =>
      || symbols || length.None? || length.value < 0 || length.value > 9007199254740991
      || (exists i :: 0 <= i < |props| && !IndexKey(props[i].key, length.value))
      || exists i: nat :: i < length.value && Missing(n, Text(i))
  }

  /** An enumerable data property. */
  predicate IsData(d: Descriptor) { d.Data? && d.enumerable }

  /** `length`, or the text of an index below `length`. */
  ghost predicate IndexKey(key: string, length: int) {
    key == "length" || exists i: nat :: i < length && key == Text(i)
  }

  ghost predicate Missing(n: Node, key: string)
    requires !n.Hostile?
  {
    forall v :: !OwnData(n, key, v)
  }

  lemma {:induction false} LookupMeans(n: Node, props: seq<Prop>, from: nat, key: string)
    requires !n.Hostile? && from <= |n.props| && props == n.props[from..]
    requires forall i :: 0 <= i < from ==> n.props[i].key != key
    ensures forall v :: OwnData(n, key, v) <==> Lookup(props, key) == Some(Data(v, true))
    decreases |props|
  {
    if props != [] && props[0].key != key {
      LookupMeans(n, props[1..], from + 1, key);
    } else if props != [] {
      forall v ensures OwnData(n, key, v) <==> props[0].descriptor == Data(v, true) {
        if props[0].descriptor == Data(v, true) {
          assert n.props[from] == Prop(key, Data(v, true)) && FirstNamed(n.props, from);
        }
        if j: nat :| j < |n.props| && n.props[j] == Prop(key, Data(v, true)) && FirstNamed(n.props, j) {
          assert j == from;
        }
      }
    }
  }

  lemma OwnIsLookup(n: Node, key: string)
    requires !n.Hostile?
    ensures forall v :: OwnData(n, key, v) <==> Lookup(n.props, key) == Some(Data(v, true))
    ensures Missing(n, key) <==> !Usable(Lookup(n.props, key))
  {
    hide OwnData, Lookup;
    assert n.props[0..] == n.props;
    LookupMeans(n, n.props, 0, key);
    var d := Lookup(n.props, key);
    if Usable(d) {
      assert d == Some(Data(d.value.value, true));
    }
  }

  lemma IndexKeyMeans(key: string, length: int)
    ensures IndexKey(key, length) <==> key == "length" || IsIndexBelow(key, length)
  {
    hide Text;
    if i: nat :| i < length && key == Text(i) {
      TextIsCanonical(i);
    }
    if IsIndexBelow(key, length) {
      CanonicalIsText(key);
      assert key == Text(ValueOf(key));
    }
  }

  /** What the copy descends into, said of the node itself. */
  lemma ChildrenMean(n: Node)
    ensures Children(n).Some? <==> !RefusedOnSight(n)
    ensures Children(n).Some? ==> !n.Hostile?
    ensures Children(n).Some? && n.Plain? ==>
              && |Children(n).value| == |n.props|
              && forall i :: 0 <= i < |n.props| ==> n.props[i].descriptor == Data(Children(n).value[i], true)
    ensures Children(n).Some? && n.Array? ==>
              && n.length.Some? && |Children(n).value| == n.length.value
              && forall i: nat, v :: i < n.length.value ==> (OwnData(n, Text(i), v) <==> v == Children(n).value[i])
  {
    hide Text, OwnData, Lookup, IndexKey, IsIndexBelow, Missing;
    if n.Array? {
      forall i: nat
        ensures forall v :: OwnData(n, Text(i), v) <==> Lookup(n.props, Text(i)) == Some(Data(v, true))
        ensures Missing(n, Text(i)) <==> !Usable(Lookup(n.props, Text(i)))
      {
        OwnIsLookup(n, Text(i));
      }
      forall i | 0 <= i < |n.props| && n.length.Some?
        ensures IndexKey(n.props[i].key, n.length.value) <==>
                n.props[i].key == "length" || IsIndexBelow(n.props[i].key, n.length.value)
      {
        IndexKeyMeans(n.props[i].key, n.length.value);
      }
    } else if n.Plain? {
      assert forall i :: 0 <= i < |n.props| ==> (IsData(n.props[i].descriptor) <==> Usable(Some(n.props[i].descriptor)));
    }
  }

  // ----- paths in the graph

  /** `c` is the value of a field, or of an item. */
  ghost predicate Leads(n: Node, c: Ref) {
    match n
    case Hostile => false
    case Plain(_, props) => exists i :: 0 <= i < |props| && props[i].descriptor == Data(Object(c), true)
    case Array(_, length, _) => exists i: nat :: length.Some? && i < length.value && OwnData(n, Text(i), Object(c))
  }

  ghost predicate IsChild(h: Heap, r: Ref, c: Ref) {
    r in h && !RefusedOnSight(h[r]) && Leads(h[r], c)
  }

  lemma IsChildMeans(h: Heap, r: Ref, c: Ref)
    ensures IsChild(h, r, c) <==>
            && r in h && Children(h[r]).Some?
            && exists i :: 0 <= i < |Children(h[r]).value| && Children(h[r]).value[i] == Object(c)
  {
    hide RefusedOnSight, Children, OwnData, Text;
    if r in h {
      ChildrenMean(h[r]);
      if Children(h[r]).Some? {
        LeadsToChild(h[r], c);
      }
    }
  }

  lemma LeadsToChild(n: Node, c: Ref)
    requires Children(n).Some?
    ensures Leads(n, c) <==> exists i :: 0 <= i < |Children(n).value| && Children(n).value[i] == Object(c)
  {
    hide RefusedOnSight, Children, OwnData, Text;
    ChildrenMean(n);
    var children := Children(n).value;
    if i: nat :| i < |children| && children[i] == Object(c) {
      if n.Array? {
        assert OwnData(n, Text(i), Object(c));
      } else {
        assert n.Plain? && n.props[i].descriptor == Data(Object(c), true);
      }
    }
    if Leads(n, c) && n.Plain? {
      var i :| 0 <= i < |n.props| && n.props[i].descriptor == Data(Object(c), true);
      assert children[i] == Object(c);
    }
  }

  lemma ChildOf(h: Heap, r: Ref, c: Ref) returns (i: nat)
    requires IsChild(h, r, c)
    ensures r in h && Children(h[r]).Some? && i < |Children(h[r]).value| && Children(h[r]).value[i] == Object(c)
  {
    IsChildMeans(h, r, c);
    i :| 0 <= i < |Children(h[r]).value| && Children(h[r]).value[i] == Object(c);
  }

  ghost predicate IsPath(h: Heap, p: seq<Ref>) {
    p != [] && p[0] in h && (|p| > 1 ==> IsChild(h, p[0], p[1]) && IsPath(h, p[1..]))
  }

  predicate Distinct(p: seq<Ref>) {
    forall i, j :: 0 <= i < j < |p| ==> p[i] != p[j]
  }

  /** The path visits no ancestor and no node twice, and no node on it is refused on sight. */
  ghost predicate Fine(h: Heap, p: seq<Ref>, ancestors: set<Ref>) {
    && Distinct(p)
    && (forall k :: 0 <= k < |p| ==> p[k] !in ancestors && p[k] in h && !RefusedOnSight(h[p[k]]))
  }

  ghost predicate AllPathsFine(h: Heap, v: Value, ancestors: set<Ref>) {
    forall p: seq<Ref> :: IsPath(h, p) && v == Object(p[0]) ==> Fine(h, p, ancestors)
  }

  lemma {:induction false} EachSucceeds(h: Heap, vs: seq<Value>, ancestors: set<Ref>)
    ensures SnapAll(h, vs, ancestors).Some? <==> forall i :: 0 <= i < |vs| ==> Snap(h, vs[i], ancestors).Some?
    ensures SnapAll(h, vs, ancestors).Some? ==>
              forall i :: 0 <= i < |vs| ==> Snap(h, vs[i], ancestors) == Some(SnapAll(h, vs, ancestors).value[i])
    decreases |vs|
  {
    if vs != [] {
      EachSucceeds(h, vs[1..], ancestors);
      assert forall i :: 1 <= i < |vs| ==> vs[i] == vs[1..][i - 1];
      assert forall i :: 0 <= i < |vs[1..]| ==> vs[1..][i] == vs[i + 1];
    }
  }

  lemma {:induction false} SuccessMakesPathsFine(h: Heap, v: Value, ancestors: set<Ref>, p: seq<Ref>)
    requires Snap(h, v, ancestors).Some? && IsPath(h, p) && v == Object(p[0])
    ensures Fine(h, p, ancestors)
    decreases |p|
  {
    hide Children, RefusedOnSight, IsChild;
    ChildrenMean(h[p[0]]);
    if |p| > 1 {
      var children := Children(h[p[0]]).value;
      var i := ChildOf(h, p[0], p[1]);
      EachSucceeds(h, children, ancestors + {p[0]});
      SuccessMakesPathsFine(h, children[i], ancestors + {p[0]}, p[1..]);
      ConsFine(h, p, ancestors);
    }
  }

  lemma ConsFine(h: Heap, p: seq<Ref>, ancestors: set<Ref>)
    requires |p| > 1 && p[0] !in ancestors && p[0] in h && !RefusedOnSight(h[p[0]])
    requires Fine(h, p[1..], ancestors + {p[0]})
    ensures Fine(h, p, ancestors)
  {
    hide RefusedOnSight;
    assert forall k :: 1 <= k < |p| ==> p[k] == p[1..][k - 1];
  }

  lemma {:induction false} FailureHasBadPath(h: Heap, v: Value, ancestors: set<Ref>) returns (p: seq<Ref>)
    requires Closed(h) && InHeap(h, v) && Snap(h, v, ancestors).None?
    ensures IsPath(h, p) && v == Object(p[0]) && !Fine(h, p, ancestors)
    decreases |h.Keys - ancestors|
  {
    hide Children, RefusedOnSight, IsChild;
    var r := v.ref;
    ChildrenMean(h[r]);
    if r in ancestors || Children(h[r]).None? {
      p := [r];
    } else {
      var children := Children(h[r]).value;
      EachSucceeds(h, children, ancestors + {r});
      var i :| 0 <= i < |children| && Snap(h, children[i], ancestors + {r}).None?;
      ChildInHeap(h, r, i);
      SetShrinks(h.Keys - (ancestors + {r}), h.Keys - ancestors);
      var q := FailureHasBadPath(h, children[i], ancestors + {r});
      IsChildMeans(h, r, q[0]);
      p := [r] + q;
      assert p[1..] == q && p[1] == q[0];
      TailFine(h, p, ancestors);
    }
  }

  lemma ChildInHeap(h: Heap, r: Ref, i: nat)
    requires Closed(h) && r in h && Children(h[r]).Some? && i < |Children(h[r]).value|
    ensures InHeap(h, Children(h[r]).value[i])
  {
    if h[r].Array? {
      LookupIsOwn(h[r].props, Text(i));
    }
  }

  lemma TailFine(h: Heap, p: seq<Ref>, ancestors: set<Ref>)
    requires |p| > 1
    ensures Fine(h, p, ancestors) ==> Fine(h, p[1..], ancestors + {p[0]})
  {
    hide RefusedOnSight;
    assert forall k :: 0 <= k < |p[1..]| ==> p[1..][k] == p[k + 1];
  }

  /** The copy succeeds exactly when every path through the graph meets only plain, own, enumerable,
      dense nodes and no node twice: shared nodes are fine, cycles are not. */
  lemma SucceedsIffPlainAndAcyclic(h: Heap, v: Value)
    requires Closed(h) && InHeap(h, v)
    ensures Snap(h, v, {}).Some? <==> AllPathsFine(h, v, {})
  {
    if Snap(h, v, {}).Some? {
      forall p: seq<Ref> | IsPath(h, p) && v == Object(p[0]) ensures Fine(h, p, {}) {
        SuccessMakesPathsFine(h, v, {}, p);
      }
    } else {
      var p := FailureHasBadPath(h, v, {});
    }
  }

  // ----- the tree unfolding

  /** `t` is `v` with every reference followed: an array becomes as many items as its length says, item `i` from
      the property named by the text of `i`; a record its fields in key order. */
  ghost predicate Unfolds(h: Heap, v: Value, t: Tree)
    decreases t, 0
  {
    if v.Leaf? then t == Value(v.tag)
    else
      && v.ref in h && !RefusedOnSight(h[v.ref])
      && match h[v.ref]
         case Hostile => false
         case Array(_, length, _) =>
           && t.Items? && length.Some? && |t.items| == length.value
           && forall i :: 0 <= i < |t.items| ==> ItemUnfolds(h, h[v.ref], Text(i), t.items[i])
         case Plain(_, props) =>
           && t.Fields? && |t.fields| == |props|
           && forall i :: 0 <= i < |props| ==>
                && t.fields[i].key == props[i].key
                && props[i].descriptor.Data? && props[i].descriptor.enumerable
                && Unfolds(h, props[i].descriptor.value, t.fields[i].value)
  }

  ghost predicate ItemUnfolds(h: Heap, n: Node, key: string, t: Tree)
    requires !n.Hostile?
    decreases t, 1
  {
    exists w :: OwnData(n, key, w) && Unfolds(h, w, t)
  }

  /** The same, over the list of children. */
  lemma UnfoldsChildren(h: Heap, r: Ref, t: Tree)
    ensures Unfolds(h, Object(r), t) <==>
            && r in h && Children(h[r]).Some?
            && var n, children := h[r], Children(h[r]).value;
               if n.Array? then
                 t.Items? && |t.items| == |children|
                 && forall i :: 0 <= i < |children| ==> Unfolds(h, children[i], t.items[i])
               else
                 t.Fields? && |t.fields| == |children| == |n.props|
                 && (forall i :: 0 <= i < |children| ==> t.fields[i].key == n.props[i].key)
                 && forall i :: 0 <= i < |children| ==> Unfolds(h, children[i], t.fields[i].value)
  {
    hide Children, RefusedOnSight, OwnData, Text;
    if r in h {
      ChildrenMean(h[r]);
      if Children(h[r]).Some? && h[r].Array? {
        ItemsUnfold(h, r, t);
      }
    }
  }

  lemma ItemsUnfold(h: Heap, r: Ref, t: Tree)
    requires r in h && h[r].Array? && Children(h[r]).Some?
    ensures Unfolds(h, Object(r), t) <==>
            var children := Children(h[r]).value;
            t.Items? && |t.items| == |children| && forall i :: 0 <= i < |children| ==> Unfolds(h, children[i], t.items[i])
  {
    hide Children, RefusedOnSight, OwnData, Text;
    ChildrenMean(h[r]);
    var n, children := h[r], Children(h[r]).value;
    if Unfolds(h, Object(r), t) {
      forall i: nat | i < |children| ensures Unfolds(h, children[i], t.items[i]) {
        assert ItemUnfolds(h, n, Text(i), t.items[i]);
      }
    }
    if t.Items? && |t.items| == |children| && forall i :: 0 <= i < |children| ==> Unfolds(h, children[i], t.items[i]) {
      forall i: nat | i < |t.items| ensures ItemUnfolds(h, n, Text(i), t.items[i]) {
        assert OwnData(n, Text(i), children[i]);
      }
    }
  }

  /** The `i`-th part of a tree that unfolds an object. */
  function Part(t: Tree, i: nat): Tree
    requires (t.Items? && i < |t.items|) || (t.Fields? && i < |t.fields|)
  {
    if t.Items? then t.items[i] else t.fields[i].value
  }

  lemma UnfoldsParts(h: Heap, v: Value, t: Tree)
    requires v.Object? && Unfolds(h, v, t)
    ensures v.ref in h && Children(h[v.ref]).Some?
    ensures var children := Children(h[v.ref]).value;
            && (if t.Items? then |t.items| == |children| else t.Fields? && |t.fields| == |children|)
            && forall i :: 0 <= i < |children| ==> Unfolds(h, children[i], Part(t, i))
    ensures t.Items? ==> forall i :: 0 <= i < |t.items| ==> t.items[i] < t
    ensures t.Fields? ==> forall i :: 0 <= i < |t.fields| ==> t.fields[i].value < t
  {
    hide Children, RefusedOnSight, OwnData;
    UnfoldsChildren(h, v.ref, t);
    if t.Fields? {
      forall i | 0 <= i < |t.fields| ensures t.fields[i].value < t {
        assert t.fields[i] in t.fields;
      }
    }
  }

  lemma {:induction false} UnfoldingUnique(h: Heap, v: Value, t: Tree, u: Tree)
    requires Unfolds(h, v, t) && Unfolds(h, v, u)
    ensures t == u
    decreases t
  {
    hide Children, RefusedOnSight, OwnData;
    if v.Object? {
      UnfoldsParts(h, v, t);
      UnfoldsParts(h, v, u);
      UnfoldsChildren(h, v.ref, t);
      UnfoldsChildren(h, v.ref, u);
      var children := Children(h[v.ref]).value;
      forall i | 0 <= i < |children| ensures Part(t, i) == Part(u, i) {
        UnfoldingUnique(h, children[i], Part(t, i), Part(u, i));
      }
      if h[v.ref].Array? {
        assert forall i :: 0 <= i < |children| ==> t.items[i] == Part(t, i) && u.items[i] == Part(u, i);
        assert t.items == u.items;
      } else {
        forall i | 0 <= i < |children| ensures t.fields[i] == u.fields[i] {
          assert Part(t, i) == Part(u, i);
        }
        assert t.fields == u.fields;
      }
    }
  }

  lemma {:induction false} CopyUnfolds(h: Heap, v: Value, ancestors: set<Ref>)
    requires Snap(h, v, ancestors).Some?
    ensures Unfolds(h, v, Snap(h, v, ancestors).value)
    decreases |h.Keys - ancestors|
  {
    if v.Object? {
      var children := Children(h[v.ref]).value;
      SetShrinks(h.Keys - (ancestors + {v.ref}), h.Keys - ancestors);
      var parts := SnapAll(h, children, ancestors + {v.ref}).value;
      EachSucceeds(h, children, ancestors + {v.ref});
      forall i | 0 <= i < |children| ensures Unfolds(h, children[i], parts[i]) {
        CopyUnfolds(h, children[i], ancestors + {v.ref});
      }
      AssembledUnfolds(h, v.ref, parts);
    }
  }

  lemma AssembledUnfolds(h: Heap, r: Ref, parts: seq<Tree>)
    requires r in h && Children(h[r]).Some? && |parts| == |Children(h[r]).value|
    requires forall i :: 0 <= i < |parts| ==> Unfolds(h, Children(h[r]).value[i], parts[i])
    ensures Unfolds(h, Object(r), Assemble(h[r], parts))
  {
    var t := Assemble(h[r], parts);
    UnfoldsChildren(h, r, t);
    if h[r].Plain? {
      assert forall i :: 0 <= i < |parts| ==> t.fields[i].value == parts[i];
    }
  }

  /** A node further down a path has its own, smaller unfolding. */
  lemma {:induction false} Subtree(h: Heap, v: Value, t: Tree, p: seq<Ref>, k: nat) returns (u: Tree)
    requires Unfolds(h, v, t) && IsPath(h, p) && v == Object(p[0]) && 0 < k < |p|
    ensures Unfolds(h, Object(p[k]), u) && u < t
    decreases k
  {
    hide Children, RefusedOnSight, OwnData, IsChild, Unfolds;
    UnfoldsParts(h, v, t);
    var children := Children(h[p[0]]).value;
    var i := ChildOf(h, p[0], p[1]);
    u := Part(t, i);
    if k > 1 {
      assert p[1..][k - 1] == p[k];
      u := Subtree(h, children[i], Part(t, i), p[1..], k - 1);
    }
  }

  lemma {:induction false} UnfoldingMakesPathsFine(h: Heap, v: Value, t: Tree, p: seq<Ref>)
    requires Unfolds(h, v, t) && IsPath(h, p) && v == Object(p[0])
    ensures Fine(h, p, {})
    decreases |p|
  {
    hide Children, RefusedOnSight, OwnData, IsChild, Unfolds;
    UnfoldsParts(h, v, t);
    ChildrenMean(h[p[0]]);
    if |p| > 1 {
      var children := Children(h[p[0]]).value;
      var i := ChildOf(h, p[0], p[1]);
      UnfoldingMakesPathsFine(h, children[i], Part(t, i), p[1..]);
      forall k | 0 < k < |p| ensures p[k] != p[0] {
        var u := Subtree(h, v, t, p, k);
        if p[k] == p[0] {
          UnfoldingUnique(h, v, t, u);
        }
      }
      assert forall k :: 1 <= k < |p| ==> p[k] == p[1..][k - 1];
    }
  }

  /** The copy is the tree unfolding of its input, and there is a copy exactly when there is a finite
      unfolding. */
  lemma CopyIsUnfolding(h: Heap, v: Value, t: Tree)
    requires Closed(h) && InHeap(h, v)
    ensures Snap(h, v, {}) == Some(t) <==> Unfolds(h, v, t)
  {
    if Snap(h, v, {}) == Some(t) {
      CopyUnfolds(h, v, {});
    }
    if Unfolds(h, v, t) {
      forall p: seq<Ref> | IsPath(h, p) && v == Object(p[0]) ensures Fine(h, p, {}) {
        UnfoldingMakesPathsFine(h, v, t, p);
      }
      SucceedsIffPlainAndAcyclic(h, v);
      CopyUnfolds(h, v, {});
      UnfoldingUnique(h, v, t, Snap(h, v, {}).value);
    }
  }
}
