/** `snapshotOwnData` in `packages/browser-core/src/migrate.ts`: a depth-first copy of an object graph
    that may share nodes and may have cycles.

    The graph is a finite map from references to nodes; a copy is a tree. `typeof value !== "object"`
    lets functions through like primitives, so both are leaves. */
module Snapshot {
  import opened Decimal
  import opened Options

  const MAX_SAFE_INTEGER: int := 9007199254740991

  type Ref = nat

  datatype Value = Leaf(tag: int) | Object(ref: Ref)

  datatype Descriptor = Data(value: Value, enumerable: bool) | Accessor

  datatype Prop = Prop(key: string, descriptor: Descriptor)

  /** An object's own string keys in their own order. `length` is the value of an array's `length`
      data property, if it has one that is an integer; `Hostile` throws on inspection. */
  datatype Node =
    | Plain(symbols: bool, props: seq<Prop>)
    | Array(symbols: bool, length: Option<int>, props: seq<Prop>)
    | Hostile

  type Heap = map<Ref, Node>

  datatype Tree = Value(tag: int) | Items(items: seq<Tree>) | Fields(fields: seq<Field>)

  datatype Field = Field(key: string, value: Tree)

  ghost predicate Closed(h: Heap) {
    forall r :: r in h && !h[r].Hostile? ==>
      forall i :: 0 <= i < |h[r].props| && h[r].props[i].descriptor.Data? && h[r].props[i].descriptor.value.Object? ==>
        h[r].props[i].descriptor.value.ref in h
  }

  predicate InHeap(h: Heap, v: Value) { v.Object? ==> v.ref in h }

  // ----- own properties

  /** `Object.getOwnPropertyDescriptor(value, key)`. */
  function Lookup(props: seq<Prop>, key: string): Option<Descriptor> {
    if props == [] then None
    else if props[0].key == key then Some(props[0].descriptor)
    else Lookup(props[1..], key)
  }

  predicate Usable(d: Option<Descriptor>) {
    d.Some? && d.value.Data? && d.value.enumerable
  }

  predicate LengthOk(n: Node)
    requires n.Array?
  {
    n.length.Some? && 0 <= n.length.value <= MAX_SAFE_INTEGER
  }

  predicate IsIndexBelow(key: string, length: int) {
    IsCanonical(key) && ValueOf(key) < length
  }

  predicate KeysAreIndices(n: Node)
    requires n.Array? && LengthOk(n)
  {
    forall i :: 0 <= i < |n.props| ==> n.props[i].key == "length" || IsIndexBelow(n.props[i].key, n.length.value)
  }

  /** The values the copy descends into, in order; nothing when the node is refused on sight. */
  function Children(n: Node): Option<seq<Value>> {
    match n
    case Hostile => None
    case Plain(symbols, props) =>
      if symbols || exists i :: 0 <= i < |props| && !Usable(Some(props[i].descriptor)) then None
      else Some(seq(|props|, i requires 0 <= i < |props| => props[i].descriptor.value))
    case Array(symbols, length, props) =>
      if symbols || !LengthOk(n) || !KeysAreIndices(n)
         || exists i :: 0 <= i < length.value && !Usable(Lookup(props, Text(i))) then None
      else Some(seq(length.value, i requires 0 <= i < length.value => Lookup(props, Text(i)).value.value))
  }

  function Assemble(n: Node, parts: seq<Tree>): Tree
    requires !n.Hostile? && (n.Plain? ==> |parts| == |n.props|)
  {
    if n.Array? then Items(parts)
    else Fields(seq(|parts|, i requires 0 <= i < |parts| => Field(n.props[i].key, parts[i])))
  }

  // ----- the copy, as a function

  function Snap(h: Heap, v: Value, ancestors: set<Ref>): Option<Tree>
    decreases |h.Keys - ancestors|, 0
  {
    if v.Leaf? then Some(Value(v.tag))
    else if v.ref in ancestors || v.ref !in h then None
    else
      var children := Children(h[v.ref]);
      if children.None? then None
      else
        SetShrinks(h.Keys - (ancestors + {v.ref}), h.Keys - ancestors);
        var parts := SnapAll(h, children.value, ancestors + {v.ref});
        if parts.None? then None else Some(Assemble(h[v.ref], parts.value))
  }

  function SnapAll(h: Heap, vs: seq<Value>, ancestors: set<Ref>): (r: Option<seq<Tree>>)
    ensures r.Some? ==> |r.value| == |vs|
    decreases |h.Keys - ancestors|, 1 + |vs|
  {
    if vs == [] then Some([])
    else
      var first := Snap(h, vs[0], ancestors);
      if first.None? then None
      else
        var rest := SnapAll(h, vs[1..], ancestors);
        if rest.None? then None else Some([first.value] + rest.value)
  }

  lemma SetShrinks<T>(a: set<T>, b: set<T>)
    requires a < b
    ensures |a| < |b|
  {
    assert b == a + (b - a);
    assert |b| == |a| + |b - a|;
    var x :| x in b && x !in a;
    assert x in b - a;
  }

  lemma {:induction false} LookupIsOwn(props: seq<Prop>, key: string)
    ensures Lookup(props, key).Some? ==>
              exists i :: 0 <= i < |props| && props[i].key == key && props[i].descriptor == Lookup(props, key).value
  {
    if props != [] && props[0].key != key && Lookup(props, key).Some? {
      LookupIsOwn(props[1..], key);
      var i :| 0 <= i < |props[1..]| && props[1..][i].key == key && props[1..][i].descriptor == Lookup(props, key).value;
      assert props[i + 1] == props[1..][i];
    }
  }

  // ----- the copy, as the code runs

  /** The `WeakSet` of objects on the current path. */
  class Ancestors {
    var members: set<Ref>

    constructor ()
      ensures members == {}
    {
      members := {};
    }
  }

  method SnapshotOwnData(h: Heap, value: Value, ancestors: Ancestors) returns (r: Option<Tree>)
    requires Closed(h) && InHeap(h, value)
    modifies ancestors
    ensures r == Snap(h, value, old(ancestors.members))
    ensures ancestors.members == old(ancestors.members)
    decreases |h.Keys - ancestors.members|, 1
  {
    if value.Leaf? {
      return Some(Value(value.tag));
    }
    if value.ref in ancestors.members {
      return None;
    }
    ghost var before := ancestors.members;
    ancestors.members := ancestors.members + {value.ref};
    SetShrinks(h.Keys - ancestors.members, h.Keys - before);
    r := SnapshotNode(h, value.ref, ancestors);
    ancestors.members := ancestors.members - {value.ref};
  }

  /** What is left to do once the node's children are known. */
  function Copied(h: Heap, n: Node, ancestors: set<Ref>): Option<Tree> {
    var children := Children(n);
    if children.None? then None
    else
      var parts := SnapAll(h, children.value, ancestors);
      if parts.None? then None else Some(Assemble(n, parts.value))
  }

  /** The part of the source inside `try`. */
  method SnapshotNode(h: Heap, ref: Ref, ancestors: Ancestors) returns (r: Option<Tree>)
    requires Closed(h) && ref in h
    modifies ancestors
    ensures ancestors.members == old(ancestors.members)
    ensures r == Copied(h, h[ref], ancestors.members)
    decreases |h.Keys - ancestors.members|, 3
  {
    var node := h[ref];
    if node.Hostile? || node.symbols {
      return None;
    }
    if node.Array? {
      r := SnapshotItems(h, ref, node, ancestors);
    } else {
      r := SnapshotFields(h, ref, node, ancestors);
    }
  }

  method SnapshotItems(h: Heap, ref: Ref, node: Node, ancestors: Ancestors) returns (r: Option<Tree>)
    requires Closed(h) && ref in h && node == h[ref] && node.Array? && !node.symbols
    modifies ancestors
    ensures ancestors.members == old(ancestors.members)
    ensures r == Copied(h, node, ancestors.members)
    decreases |h.Keys - ancestors.members|, 2
  {
    hide Closed, Snap, SnapAll, Text, Lookup, IsIndexBelow;
    ghost var path := ancestors.members;
    if !LengthOk(node) {
      return None;
    }
    for k := 0 to |node.props|
      invariant forall i :: 0 <= i < k ==>
                  node.props[i].key == "length" || IsIndexBelow(node.props[i].key, node.length.value)
      invariant ancestors.members == path
    {
      var key := node.props[k].key;
      if key != "length" && !IsIndexBelow(key, node.length.value) {
        return None;
      }
    }
    var items: seq<Tree> := [];
    ghost var values := [];
    NothingCopied(h, path);
    var index := 0;
    while index < node.length.value
      invariant 0 <= index <= node.length.value && |values| == index
      invariant forall i :: 0 <= i < index ==>
                  Usable(Lookup(node.props, Text(i))) && values[i] == Lookup(node.props, Text(i)).value.value
      invariant SnapAll(h, values, path) == Some(items)
      invariant ancestors.members == path
    {
      var descriptor := Lookup(node.props, Text(index));
      if !Usable(descriptor) {
        return None;
      }
      OwnInHeap(h, ref, Text(index));
      var child := SnapshotOwnData(h, descriptor.value.value, ancestors);
      SnapAllThen(h, values, descriptor.value.value, path);
      if child.None? {
        CutShort(h, node, values + [descriptor.value.value], path);
        return None;
      }
      items := items + [child.value];
      values := values + [descriptor.value.value];
      index := index + 1;
    }
    assert Children(node).Some?;
    assert Children(node).value == values;
    return Some(Items(items));
  }

  method SnapshotFields(h: Heap, ref: Ref, node: Node, ancestors: Ancestors) returns (r: Option<Tree>)
    requires Closed(h) && ref in h && node == h[ref] && node.Plain? && !node.symbols
    modifies ancestors
    ensures ancestors.members == old(ancestors.members)
    ensures r == Copied(h, node, ancestors.members)
    decreases |h.Keys - ancestors.members|, 2
  {
    hide Snap, SnapAll;
    ghost var path := ancestors.members;
    var fields: seq<Field> := [];
    ghost var parts: seq<Tree> := [];
    ghost var values := [];
    NothingCopied(h, path);
    for k := 0 to |node.props|
      invariant |values| == |parts| == |fields| == k
      invariant forall i :: 0 <= i < k ==>
                  Usable(Some(node.props[i].descriptor)) && values[i] == node.props[i].descriptor.value
      invariant forall i :: 0 <= i < k ==> fields[i] == Field(node.props[i].key, parts[i])
      invariant SnapAll(h, values, path) == Some(parts)
      invariant ancestors.members == path
    {
      var descriptor := node.props[k].descriptor;
      if !Usable(Some(descriptor)) {
        return None;
      }
      var child := SnapshotOwnData(h, descriptor.value, ancestors);
      SnapAllThen(h, values, descriptor.value, path);
      if child.None? {
        CutShort(h, node, values + [descriptor.value], path);
        return None;
      }
      fields := fields + [Field(node.props[k].key, child.value)];
      parts := parts + [child.value];
      values := values + [descriptor.value];
    }
    assert Children(node).Some?;
    assert Children(node).value == values;
    assert Assemble(node, parts) == Fields(fields);
    return Some(Fields(fields));
  }

  lemma NothingCopied(h: Heap, ancestors: set<Ref>)
    ensures SnapAll(h, [], ancestors) == Some([])
  {
  }

  lemma OwnInHeap(h: Heap, r: Ref, key: string)
    requires Closed(h) && r in h && !h[r].Hostile? && Usable(Lookup(h[r].props, key))
    ensures InHeap(h, Lookup(h[r].props, key).value.value)
  {
    LookupIsOwn(h[r].props, key);
  }

  lemma {:induction false} SnapAllThen(h: Heap, vs: seq<Value>, v: Value, ancestors: set<Ref>)
    ensures SnapAll(h, vs + [v], ancestors) ==
            var all, last := SnapAll(h, vs, ancestors), Snap(h, v, ancestors);
            if all.None? || last.None? then None else Some(all.value + [last.value])
    decreases |vs|
  {
    if vs == [] {
      assert [] + [v] == [v] && [v][1..] == [];
      assert Snap(h, v, ancestors).Some? ==>
        [Snap(h, v, ancestors).value] + [] == [] + [Snap(h, v, ancestors).value];
    } else {
      SnapAllThen(h, vs[1..], v, ancestors);
      assert (vs + [v])[1..] == vs[1..] + [v];
      var first, rest, last := Snap(h, vs[0], ancestors), SnapAll(h, vs[1..], ancestors), Snap(h, v, ancestors);
      if first.Some? && rest.Some? && last.Some? {
        assert [first.value] + (rest.value + [last.value]) == [first.value] + rest.value + [last.value];
      }
    }
  }

  /** A failure among the first children is the failure of all. */
  lemma CutShort(h: Heap, n: Node, prefix: seq<Value>, ancestors: set<Ref>)
    requires SnapAll(h, prefix, ancestors).None?
    requires Children(n).Some? ==> prefix <= Children(n).value
    ensures Children(n).Some? ==> SnapAll(h, Children(n).value, ancestors).None?
  {
    if Children(n).Some? {
      PrefixFails(h, prefix, Children(n).value, ancestors);
    }
  }

  lemma {:induction false} PrefixFails(h: Heap, prefix: seq<Value>, vs: seq<Value>, ancestors: set<Ref>)
    requires prefix <= vs && SnapAll(h, prefix, ancestors).None?
    ensures SnapAll(h, vs, ancestors).None?
    decreases |prefix|
  {
    if Snap(h, vs[0], ancestors).Some? {
      PrefixFails(h, prefix[1..], vs[1..], ancestors);
    }
  }
}
