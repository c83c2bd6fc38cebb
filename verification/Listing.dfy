/** "Exactly those, in their order", said without a recursion: by the positions they are taken from. */
module Listing {

  /** `at` lists, in order, exactly the numbers below `n` that are due. */
  ghost predicate Lists(n: nat, due: nat -> bool, at: seq<nat>) {
    && (forall k :: 0 <= k < |at| ==> at[k] < n && due(at[k]))
    && (forall j, k :: 0 <= j < k < |at| ==> at[j] < at[k])
    && (forall i: nat :: i < n && due(i) ==> i in at)
  }

  function At<T>(xs: seq<T>, due: T -> bool): nat -> bool {
    (i: nat) => i < |xs| && due(xs[i])
  }

  /** `ys` are exactly those of `xs` that are due, in their order. */
  ghost predicate Chosen<T>(xs: seq<T>, due: T -> bool, ys: seq<T>) {
    exists at: seq<nat> :: Lists(|xs|, At(xs, due), at) && Taken(xs, at, ys)
  }

  predicate Taken<T(==)>(xs: seq<T>, at: seq<nat>, ys: seq<T>) {
    |ys| == |at| && forall k :: 0 <= k < |at| ==> at[k] < |xs| && ys[k] == xs[at[k]]
  }

  lemma ListsMore(n: nat, due: nat -> bool, at: seq<nat>)
    requires Lists(n, due, at)
    ensures Lists(n + 1, due, at + if due(n) then [n] else [])
  {
    var more := at + if due(n) then [n] else [];
    forall i: nat | i < n + 1 && due(i) ensures i in more {
      if i == n {
        assert more[|at|] == n;
      }
    }
  }

  function Later(at: seq<nat>): (r: seq<nat>)
    ensures |r| == |at| && forall k :: 0 <= k < |at| ==> r[k] == at[k] + 1
  {
    seq(|at|, k requires 0 <= k < |at| => at[k] + 1)
  }

  /** The same from the front: `rest` asks of a number what `due` asks of the next. */
  lemma ListsFromFront(n: nat, due: nat -> bool, rest: nat -> bool, at: seq<nat>)
    requires Lists(n, rest, at) && forall i: nat :: i < n ==> rest(i) == due(i + 1)
    ensures Lists(n + 1, due, (if due(0) then [0] else []) + Later(at))
  {
    hide Later;
    var later := Later(at);
    forall i: nat | 0 < i < n + 1 && due(i) ensures i in later {
      IsLater(n, rest, at, i - 1);
    }
    ListsWithZero(n, due, later);
  }

  lemma IsLater(n: nat, rest: nat -> bool, at: seq<nat>, i: nat)
    requires Lists(n, rest, at) && i < n && rest(i)
    ensures i + 1 in Later(at)
  {
    var k :| 0 <= k < |at| && at[k] == i;
    assert Later(at)[k] == i + 1;
  }

  lemma ListsWithZero(n: nat, due: nat -> bool, later: seq<nat>)
    requires (forall k :: 0 <= k < |later| ==> 0 < later[k] < n + 1 && due(later[k]))
    requires forall j, k :: 0 <= j < k < |later| ==> later[j] < later[k]
    requires forall i: nat :: 0 < i < n + 1 && due(i) ==> i in later
    ensures Lists(n + 1, due, (if due(0) then [0] else []) + later)
  {
    var all := (if due(0) then [0] else []) + later;
    assert due(0) ==> all[0] == 0 && all[1..] == later;
    assert !due(0) ==> all == later;
    forall i: nat | i < n + 1 && due(i) ensures i in all {
      assert i > 0 ==> i in later;
    }
  }

  lemma SameDue(n: nat, due: nat -> bool, also: nat -> bool, at: seq<nat>)
    requires Lists(n, due, at) && forall i: nat :: i < n ==> due(i) == also(i)
    ensures Lists(n, also, at)
  {
  }

  lemma NoneChosen<T>(due: T -> bool)
    ensures Chosen([], due, [])
  {
    assert Lists(0, At([], due), []) && Taken<T>([], [], []);
  }

  lemma ChosenMore<T>(xs: seq<T>, due: T -> bool, ys: seq<T>, x: T)
    requires Chosen(xs, due, ys)
    ensures Chosen(xs + [x], due, ys + if due(x) then [x] else [])
  {
    hide Lists, Taken;
    var at: seq<nat> :| Lists(|xs|, At(xs, due), at) && Taken(xs, at, ys);
    DueInFront(xs, due, x);
    SameDue(|xs|, At(xs, due), At(xs + [x], due), at);
    ListsMore(|xs|, At(xs + [x], due), at);
    TakenMore(xs, at, ys, x, due(x));
    assert |xs + [x]| == |xs| + 1;
  }

  lemma DueInFront<T>(xs: seq<T>, due: T -> bool, x: T)
    ensures forall i: nat :: i < |xs| ==> At(xs, due)(i) == At(xs + [x], due)(i)
    ensures At(xs + [x], due)(|xs|) == due(x)
  {
    assert forall i: nat :: i < |xs| ==> (xs + [x])[i] == xs[i];
    assert (xs + [x])[|xs|] == x;
  }

  lemma TakenMore<T>(xs: seq<T>, at: seq<nat>, ys: seq<T>, x: T, more: bool)
    requires Taken(xs, at, ys)
    ensures Taken(xs + [x], at + if more then [|xs|] else [], ys + if more then [x] else [])
  {
    assert (xs + [x])[|xs|] == x;
  }

  /** A due element is chosen, and only such. */
  lemma ChosenMembers<T>(xs: seq<T>, due: T -> bool, ys: seq<T>)
    requires Chosen(xs, due, ys)
    ensures forall y :: y in ys <==> y in xs && due(y)
  {
    var at: seq<nat> :| Lists(|xs|, At(xs, due), at) && Taken(xs, at, ys);
    forall y | y in xs && due(y) ensures y in ys {
      var i: nat :| i < |xs| && xs[i] == y;
      assert At(xs, due)(i);
      var k :| 0 <= k < |at| && at[k] == i;
      assert ys[k] == y;
    }
    forall y | y in ys ensures y in xs && due(y) {
      var k :| 0 <= k < |ys| && ys[k] == y;
      assert At(xs, due)(at[k]);
    }
  }
}
