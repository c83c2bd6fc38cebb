/** `packages/editor/src/editor.ts:370-457`: reading and writing a draft through JSON Pointer paths. The draft
    is a graph of cells updated in place, so two paths may end in the same cell. */
module PointerStore {
  import opened Options
  import opened Decimal
  import opened JsonPointer

  const MAX_SAFE_INTEGER: nat := 9_007_199_254_740_991

  datatype Value = Undefined | Leaf(n: int) | Ref(cell: nat)

  datatype Cell = Arr(items: seq<Value>) | Obj(fields: map<string, Value>)

  type Heap = map<nat, Cell>

  function ArrayIndex(segment: string): Option<nat> {
    if IsCanonical(segment) && ValueOf(segment) <= MAX_SAFE_INTEGER then Some(ValueOf(segment)) else None
  }

  predicate IsCreatable(field: string) {
    || field == "description" || field == "method" || field == "type"
    || field == "redirect" || field == "action" || field == "mock" || field == "requestBody" || field == "responseBody"
    || field == "headerDirection" || field == "headerOperation" || field == "headerName" || field == "headerValue"
    || field == "redactSensitiveInLogs"
  }

  // ----- reading

  function ChildOf(cell: Cell, segment: string): Option<Value> {
    match cell
    case Arr(items) =>
      var index := ArrayIndex(segment);
      if index.Some? && index.value < |items| then Some(items[index.value]) else None
    case Obj(fields) =>
      if segment in fields then Some(fields[segment]) else None
  }

  function Child(heap: Heap, v: Value, segment: string): Option<Value> {
    if v.Ref? && v.cell in heap then ChildOf(heap[v.cell], segment) else None
  }

  function Walk(heap: Heap, v: Value, segments: seq<string>): Option<Value>
    decreases |segments|
  {
    if segments == [] then Some(v)
    else
      var before := Walk(heap, v, segments[..|segments| - 1]);
      if before.Some? then Child(heap, before.value, segments[|segments| - 1]) else None
  }

  // ----- writing

  /** The old value counts: an absent field reads as undefined, and writing what is there is no change. */
  predicate CanPut(cell: Cell, segment: string, value: Value) {
    match cell
    case Arr(_) => ChildOf(cell, segment).Some? && ChildOf(cell, segment).value != value
    case Obj(fields) =>
      if segment in fields then fields[segment] != value else IsCreatable(segment) && value != Undefined
  }

  function Put(cell: Cell, segment: string, value: Value): Cell
    requires CanPut(cell, segment, value)
  {
    match cell
    case Arr(items) => Arr(items[ArrayIndex(segment).value := value])
    case Obj(fields) => Obj(fields[segment := value])
  }

  /** The cell a write to `segments` would change. */
  function Target(heap: Heap, root: Value, segments: seq<string>): Option<nat> {
    if segments == [] then None
    else
      var parent := Walk(heap, root, segments[..|segments| - 1]);
      if parent.Some? && parent.value.Ref? && parent.value.cell in heap then Some(parent.value.cell) else None
  }

  predicate Writes(heap: Heap, root: Value, segments: seq<string>, value: Value) {
    var target := Target(heap, root, segments);
    target.Some? && CanPut(heap[target.value], segments[|segments| - 1], value)
  }

  function Written(heap: Heap, root: Value, segments: seq<string>, value: Value): Heap
    requires Writes(heap, root, segments, value)
  {
    var target := Target(heap, root, segments).value;
    heap[target := Put(heap[target], segments[|segments| - 1], value)]
  }

  class Document {
    var heap: Heap

    constructor (heap: Heap)
      ensures this.heap == heap
    {
      this.heap := heap;
    }

    method ValueAtPath(root: Value, path: string) returns (value: Value)
      ensures value == if DecodePointer(path).Some? && Walk(heap, root, DecodePointer(path).value).Some?
                       then Walk(heap, root, DecodePointer(path).value).value else Undefined
    {
      var segments := DecodePointer(path);
      if segments.None? {
        return Undefined;
      }
      var end := Follow(root, segments.value);
      value := if end.Some? then end.value else Undefined;
    }

    /** The cursor both functions move along a path. */
    method Follow(root: Value, segments: seq<string>) returns (end: Option<Value>)
      ensures end == Walk(heap, root, segments)
    {
      var current := root;
      for i := 0 to |segments|
        invariant Walk(heap, root, segments[..i]) == Some(current)
      {
        assert segments[..i + 1][..i] == segments[..i];
        var next := Child(heap, current, segments[i]);
        if next.None? {
          WalkStops(heap, root, segments, i + 1);
          return None;
        }
        current := next.value;
      }
      assert segments[..|segments|] == segments;
      end := Some(current);
    }

    method SetValueAtPath(root: Value, path: string, value: Value) returns (changed: bool)
      modifies this`heap
      ensures changed <==> DecodePointer(path).Some? && Writes(old(heap), root, DecodePointer(path).value, value)
      ensures heap == if changed then Written(old(heap), root, DecodePointer(path).value, value) else old(heap)
    {
      var decoded := DecodePointer(path);
      if decoded.None? || decoded.value == [] {
        return false;
      }
      var segments := decoded.value;
      var last := segments[|segments| - 1];
      var parent := Follow(root, segments[..|segments| - 1]);
      if parent.None? || !parent.value.Ref? || parent.value.cell !in heap {
        return false;
      }
      var cell := parent.value.cell;
      if !CanPut(heap[cell], last, value) {
        return false;
      }
      heap := heap[cell := Put(heap[cell], last, value)];
      changed := true;
    }
  }

  lemma {:induction false} WalkStops(heap: Heap, root: Value, segments: seq<string>, i: nat)
    requires i <= |segments| && Walk(heap, root, segments[..i]).None?
    ensures Walk(heap, root, segments).None?
    decreases |segments|
  {
    if i < |segments| {
      assert segments[..|segments| - 1][..i] == segments[..i];
      WalkStops(heap, root, segments[..|segments| - 1], i);
    } else {
      assert segments[..i] == segments;
    }
  }

  // ----- what a write changes

  /** No cell is reached along two different paths. */
  ghost predicate IsTree(heap: Heap, root: Value) {
    forall p: seq<string>, q: seq<string> {:trigger Walk(heap, root, p), Walk(heap, root, q)} ::
      Walk(heap, root, p).Some? && Walk(heap, root, p) == Walk(heap, root, q) && Walk(heap, root, p).value.Ref? ==> p == q
  }

  /** Two segments name the same place of a cell only if they are the same text. */
  lemma SamePlace(cell: Cell, a: string, b: string, value: Value)
    requires CanPut(cell, a, value)
    ensures ChildOf(Put(cell, a, value), b) == if a == b then Some(value) else ChildOf(cell, b)
  {
    if cell.Arr? {
      var index := ArrayIndex(a).value;
      CanonicalIsText(a);
      if ArrayIndex(b) == Some(index) {
        CanonicalIsText(b);
      }
    }
  }

  /** A path whose walk never takes the written step ends where it ended before. */
  lemma {:induction false} WalkAround(heap: Heap, root: Value, segments: seq<string>, value: Value, q: seq<string>)
    requires Writes(heap, root, segments, value)
    requires forall i :: 0 <= i < |q| && q[i] == segments[|segments| - 1] ==>
               Walk(heap, root, q[..i]) != Some(Ref(Target(heap, root, segments).value))
    ensures Walk(Written(heap, root, segments, value), root, q) == Walk(heap, root, q)
    decreases |q|
  {
    if q != [] {
      var front, s, last := q[..|q| - 1], q[|q| - 1], segments[|segments| - 1];
      forall i | 0 <= i < |front| && front[i] == last
        ensures Walk(heap, root, front[..i]) != Some(Ref(Target(heap, root, segments).value))
      {
        assert front[..i] == q[..i] && q[i] == last;
      }
      WalkAround(heap, root, segments, value, front);
      var target := Target(heap, root, segments).value;
      assert q[..|q| - 1] == front;
      SamePlace(heap[target], last, s, value);
    }
  }

  /** On a tree a successful write is read back, and every path that does not run through it is left as it
      was. */
  lemma WriteReadsBack(heap: Heap, root: Value, segments: seq<string>, value: Value)
    requires IsTree(heap, root) && Writes(heap, root, segments, value)
    ensures Walk(Written(heap, root, segments, value), root, segments) == Some(value)
  {
    var parent, last, target := segments[..|segments| - 1], segments[|segments| - 1], Target(heap, root, segments).value;
    forall i | 0 <= i < |parent| && parent[i] == last ensures Walk(heap, root, parent[..i]) != Some(Ref(target)) {
      assert |parent[..i]| != |parent|;
    }
    WalkAround(heap, root, segments, value, parent);
    SamePlace(heap[target], last, last, value);
  }

  lemma WriteLeavesOthers(heap: Heap, root: Value, segments: seq<string>, value: Value, q: seq<string>)
    requires IsTree(heap, root) && Writes(heap, root, segments, value) && !(segments <= q)
    ensures Walk(Written(heap, root, segments, value), root, q) == Walk(heap, root, q)
  {
    var parent, last, target := segments[..|segments| - 1], segments[|segments| - 1], Target(heap, root, segments).value;
    forall i | 0 <= i < |q| && q[i] == last ensures Walk(heap, root, q[..i]) != Some(Ref(target)) {
      assert segments == parent + [last] && q[..i + 1] == q[..i] + [last];
      assert q[..i + 1] <= q;
      assert q[..i] != parent;
    }
    WalkAround(heap, root, segments, value, q);
  }

  /** Sharing is what the tree shape excludes: where two fields hold the same array, writing through the one
      changes what the other reads. */
  lemma SharedCellChangesElsewhere()
    ensures var heap: Heap := map[0 := Obj(map["a" := Ref(1), "b" := Ref(1)]), 1 := Arr([Leaf(0)])];
            && Writes(heap, Ref(0), ["a", Text(0)], Leaf(7))
            && Walk(heap, Ref(0), ["b", Text(0)]) == Some(Leaf(0))
            && Walk(Written(heap, Ref(0), ["a", Text(0)], Leaf(7)), Ref(0), ["b", Text(0)]) == Some(Leaf(7))
  {
    var heap: Heap := map[0 := Obj(map["a" := Ref(1), "b" := Ref(1)]), 1 := Arr([Leaf(0)])];
    TextIsCanonical(0);
    Steps(heap, "a", Text(0));
    Steps(heap, "b", Text(0));
    var after := Written(heap, Ref(0), ["a", Text(0)], Leaf(7));
    Steps(after, "b", Text(0));
  }

  lemma Steps(heap: Heap, a: string, b: string)
    ensures Walk(heap, Ref(0), [a]) == Child(heap, Ref(0), a)
    ensures Walk(heap, Ref(0), [a, b]) ==
            if Child(heap, Ref(0), a).Some? then Child(heap, Child(heap, Ref(0), a).value, b) else None
    ensures [a, b][..1] == [a] && Target(heap, Ref(0), [a, b]) ==
            (if Child(heap, Ref(0), a).Some? && Child(heap, Ref(0), a).value.Ref? && Child(heap, Ref(0), a).value.cell in heap
             then Some(Child(heap, Ref(0), a).value.cell) else None)
  {
    assert [a, b][..1] == [a] && [a][..0] == [];
  }

  // ----- paths and writes, said of the cells

  /** A segment names an item by the decimal text of its index, a field by its name. */
  ghost predicate IsStep(heap: Heap, v: Value, segment: string, w: Value) {
    && v.Ref? && v.cell in heap
    && match heap[v.cell]
       case Arr(items) =>
         exists n: nat :: n < |items| && n <= 9_007_199_254_740_991 && segment == Text(n) && items[n] == w
       case Obj(fields) => segment in fields && fields[segment] == w
  }

  ghost predicate Leads(heap: Heap, root: Value, segments: seq<string>, v: Value) {
    exists trace: seq<Value> :: IsTrace(heap, root, segments, v, trace)
  }

  ghost predicate IsTrace(heap: Heap, root: Value, segments: seq<string>, v: Value, trace: seq<Value>) {
    && |trace| == |segments| + 1 && trace[0] == root && trace[|segments|] == v
    && forall i :: 0 <= i < |segments| ==> IsStep(heap, trace[i], segments[i], trace[i + 1])
  }

  lemma ArrayIndexMeans(segment: string)
    ensures forall n: nat :: ArrayIndex(segment) == Some(n) <==> segment == Text(n) && n <= 9_007_199_254_740_991
  {
    if IsCanonical(segment) {
      CanonicalIsText(segment);
    }
    forall n: nat | segment == Text(n) ensures IsCanonical(segment) && ValueOf(segment) == n {
      TextIsCanonical(n);
    }
  }

  lemma ChildMeans(heap: Heap, v: Value, segment: string)
    ensures forall w :: Child(heap, v, segment) == Some(w) <==> IsStep(heap, v, segment, w)
  {
    hide ArrayIndex, Text;
    ArrayIndexMeans(segment);
  }

  lemma TraceMore(heap: Heap, root: Value, front: seq<string>, near: Value, trace: seq<Value>, last: string, v: Value)
    requires IsTrace(heap, root, front, near, trace) && IsStep(heap, near, last, v)
    ensures IsTrace(heap, root, front + [last], v, trace + [v])
  {
    hide IsStep;
  }

  lemma TraceLess(heap: Heap, root: Value, segments: seq<string>, v: Value, trace: seq<Value>)
    requires segments != [] && IsTrace(heap, root, segments, v, trace)
    ensures var n := |segments| - 1;
            && IsTrace(heap, root, segments[..n], trace[n], trace[..n + 1])
            && IsStep(heap, trace[n], segments[n], v)
  {
    hide IsStep;
    var n := |segments| - 1;
    assert IsStep(heap, trace[n], segments[n], trace[n + 1]);
  }

  lemma {:induction false} WalkMeans(heap: Heap, root: Value, segments: seq<string>)
    ensures forall v :: Walk(heap, root, segments) == Some(v) <==> Leads(heap, root, segments, v)
    decreases |segments|
  {
    hide IsStep;
    if segments == [] {
      assert IsTrace(heap, root, [], root, [root]);
    } else {
      var front, last := segments[..|segments| - 1], segments[|segments| - 1];
      var before := Walk(heap, root, front);
      WalkMeans(heap, root, front);
      forall v ensures Walk(heap, root, segments) == Some(v) <==> Leads(heap, root, segments, v) {
        if Walk(heap, root, segments) == Some(v) {
          var trace: seq<Value> :| IsTrace(heap, root, front, before.value, trace);
          ChildMeans(heap, before.value, last);
          TraceMore(heap, root, front, before.value, trace, last, v);
          assert front + [last] == segments;
        }
        if Leads(heap, root, segments, v) {
          var trace: seq<Value> :| IsTrace(heap, root, segments, v, trace);
          var near := trace[|front|];
          TraceLess(heap, root, segments, v, trace);
          assert Leads(heap, root, front, near);
          ChildMeans(heap, near, last);
        }
      }
    }
  }

  /** The place `segment` of the cell may take `value`: an item of an array that has another value, a field of an
      object that has another value, or one of the optional rule fields that is not there yet. */
  ghost predicate Takes(cell: Cell, segment: string, value: Value) {
    match cell
    case Arr(items) =>
      exists n: nat :: n < |items| && n <= 9_007_199_254_740_991 && segment == Text(n) && items[n] != value
    case Obj(fields) =>
      if segment in fields then fields[segment] != value else value != Undefined && segment in OptionalFields()
  }

  function OptionalFields(): set<string> {
    {"description", "method", "type", "redirect", "action", "mock", "requestBody", "responseBody", "headerDirection",
     "headerOperation", "headerName", "headerValue", "redactSensitiveInLogs"}
  }

  /** Only that place of the cell has changed. */
  ghost predicate Taken(cell: Cell, segment: string, value: Value, after: Cell) {
    match cell
    case Arr(items) =>
      && after.Arr? && |after.items| == |items|
      && forall n: nat :: n < |items| ==> after.items[n] == if segment == Text(n) then value else items[n]
    case Obj(fields) => after == Obj(fields[segment := value])
  }

  lemma PutMeans(cell: Cell, segment: string, value: Value)
    ensures CanPut(cell, segment, value) <==> Takes(cell, segment, value)
    ensures CanPut(cell, segment, value) ==> Taken(cell, segment, value, Put(cell, segment, value))
  {
    hide ArrayIndex, Text;
    ArrayIndexMeans(segment);
    if cell.Arr? && CanPut(cell, segment, value) {
      var index := ArrayIndex(segment).value;
      forall n: nat | segment == Text(n) ensures n == index {
        TextIsCanonical(n);
        TextIsCanonical(index);
      }
    }
  }

  /** A write changes something exactly when the path up to its last segment leads to a cell that takes the value
      there; then that place of that cell is all that changes. */
  lemma WriteMeans(heap: Heap, root: Value, segments: seq<string>, value: Value)
    ensures Writes(heap, root, segments, value) <==>
            segments != []
            && exists c :: c in heap && Leads(heap, root, segments[..|segments| - 1], Ref(c))
                           && Takes(heap[c], segments[|segments| - 1], value)
    ensures Writes(heap, root, segments, value) ==>
              var after := Written(heap, root, segments, value);
              exists c :: c in heap && Leads(heap, root, segments[..|segments| - 1], Ref(c)) && after.Keys == heap.Keys
                          && Taken(heap[c], segments[|segments| - 1], value, after[c])
                          && forall d :: d in heap && d != c ==> after[d] == heap[d]
  {
    hide Leads, Takes, Taken, CanPut, Put, Walk;
    if segments != [] {
      var front, last := segments[..|segments| - 1], segments[|segments| - 1];
      WalkMeans(heap, root, front);
      forall c | c in heap ensures CanPut(heap[c], last, value) <==> Takes(heap[c], last, value) {
        PutMeans(heap[c], last, value);
      }
      if Writes(heap, root, segments, value) {
        var c := Target(heap, root, segments).value;
        PutMeans(heap[c], last, value);
        assert Leads(heap, root, front, Ref(c));
        assert Written(heap, root, segments, value).Keys == heap.Keys;
      }
    }
  }
}
