/**
 * The value of a List_t: its items from the first after the end marker onwards,
 * and where the walking index pxIndex stands.  Position 0 is the end marker,
 * position p > 0 is items[p - 1].
 */
module Rings {
  datatype Ring<T(==)> = Ring(items: seq<T>, index: nat) {
    ghost predicate Valid() {
      && index <= |items|
      && Distinct(items)
    }

    /** Puts `x` before position `k` of the items; the index stays on the node it is on. */
    function InsertAt(k: nat, x: T): Ring<T>
      requires k <= |items|
    {
      Ring(items[..k] + [x] + items[k..], if k < index then index + 1 else index)
    }

    /** listINSERT_END: immediately before the node under the index. */
    function InsertEnd(x: T): Ring<T>
      requires index <= |items|
    {
      InsertAt(if index == 0 then |items| else index - 1, x)
    }

    /** uxListRemove: an index on the removed node steps back to the node before it. */
    function RemoveAt(k: nat): Ring<T>
      requires k < |items|
    {
      Ring(items[..k] + items[k + 1..], if k < index then index - 1 else index)
    }

    /** The list without `x`, if it is there. */
    function Without(x: T): (r: Ring<T>)
      ensures r.items == Removed(items, x)
      ensures index <= |items| ==> r.index <= |r.items|
    {
      RemovedLength(items, x);
      Ring(Removed(items, x), if index > 0 && Position(items, x) < index then index - 1 else index)
    }

    /** listGET_OWNER_OF_NEXT_ENTRY: one step on, passing over the end marker. */
    function Advance(): Ring<T> {
      this.(index := if index < |items| then index + 1 else if items == [] then 0 else 1)
    }

    /** The owners returned by `n` successive calls of listGET_OWNER_OF_NEXT_ENTRY. */
    function Walk(n: nat): seq<T>
      requires items != [] && index <= |items|
      decreases n
    {
      if n == 0 then [] else
      var next := Advance();
      [next.items[next.index - 1]] + next.Walk(n - 1)
    }
  }

  ghost predicate Distinct<T>(s: seq<T>) {
    forall i, j :: 0 <= i < j < |s| ==> s[i] != s[j]
  }

  /** The first position whose value is above `v`; all of them when there is none. */
  function InsertPosition(values: seq<nat>, v: nat): (k: nat)
    ensures k <= |values|
    ensures forall i :: 0 <= i < k ==> values[i] <= v
    ensures k < |values| ==> values[k] > v
    decreases values
  {
    if values == [] || values[0] > v then 0 else 1 + InsertPosition(values[1..], v)
  }

  lemma {:induction false} InsertPositionIs(values: seq<nat>, v: nat, k: nat)
    requires k <= |values|
    requires forall i :: 0 <= i < k ==> values[i] <= v
    requires k < |values| ==> values[k] > v
    ensures InsertPosition(values, v) == k
    decreases k
  {
    if k > 0 {
      assert values[0] <= v;
      InsertPositionIs(values[1..], v, k - 1);
    }
  }

  ghost predicate Sorted(values: seq<nat>) {
    forall i, j :: 0 <= i < j < |values| ==> values[i] <= values[j]
  }

  /** In a sorted list the new value goes after every equal one and the list stays sorted. */
  lemma InsertKeepsSorted(values: seq<nat>, v: nat)
    requires Sorted(values)
    ensures var k := InsertPosition(values, v);
            && Sorted(values[..k] + [v] + values[k..])
            && (forall i :: 0 <= i < |values| ==> (values[i] <= v <==> i < k))
  {
  }

  /** The same, told item by item. */
  lemma InsertedIsSorted(values: seq<nat>, v: nat, more: seq<nat>)
    requires Sorted(values) && |more| == |values| + 1
    requires var k := InsertPosition(values, v);
             forall i {:trigger more[i]} :: 0 <= i < |more| ==>
               more[i] == if i < k then values[i] else if i == k then v else values[i - 1]
    ensures Sorted(more)
  {
    var k := InsertPosition(values, v);
    forall i, j | 0 <= i < j < |more|
      ensures more[i] <= more[j]
    {
      assert more[i] == if i < k then values[i] else if i == k then v else values[i - 1];
      assert more[j] == if j < k then values[j] else if j == k then v else values[j - 1];
    }
  }

  lemma RemovedIsSorted(values: seq<nat>, k: nat, less: seq<nat>)
    requires Sorted(values) && k < |values| && |less| == |values| - 1
    requires forall i {:trigger less[i]} :: 0 <= i < |less| ==> less[i] == if i < k then values[i] else values[i + 1]
    ensures Sorted(less)
  {
    forall i, j | 0 <= i < j < |less|
      ensures less[i] <= less[j]
    {
      assert less[i] == if i < k then values[i] else values[i + 1];
      assert less[j] == if j < k then values[j] else values[j + 1];
    }
  }

  /** Removal undoes insertion, walking index included. */
  lemma RemoveUndoesInsert<T>(r: Ring<T>, k: nat, x: T)
    requires r.index <= |r.items| && k <= |r.items|
    ensures r.InsertAt(k, x).RemoveAt(k) == r
  {
    var s := r.InsertAt(k, x);
    assert s.items[..k] == r.items[..k];
    assert s.items[k + 1..] == r.items[k..];
    assert r.items == r.items[..k] + r.items[k..];
  }

  /** From any position, |items| - index steps reach the end of the list and return the items on the way. */
  lemma {:induction false} WalkToEnd<T>(r: Ring<T>, n: nat)
    requires r.items != [] && r.index <= |r.items| && n <= |r.items| - r.index
    ensures r.Walk(n) == r.items[r.index..r.index + n]
    decreases n
  {
    if n > 0 {
      WalkToEnd(r.Advance(), n - 1);
    }
  }

  lemma {:induction false} WalkSplit<T>(r: Ring<T>, m: nat, n: nat)
    requires r.items != [] && r.index <= |r.items| && m <= |r.items| - r.index
    ensures r.Walk(m + n) == r.Walk(m) + r.(index := r.index + m).Walk(n)
    decreases m
  {
    if m == 0 {
      assert r.(index := r.index) == r;
    } else {
      var next := r.Advance();
      WalkSplit(next, m - 1, n);
    }
  }

  /**
   * Round robin: as many steps as there are items return each item exactly once,
   * first those behind the index in list order, then those up to and including it.
   */
  lemma RoundRobin<T>(r: Ring<T>)
    requires r.items != [] && r.index <= |r.items|
    ensures r.Walk(|r.items|) == r.items[r.index..] + r.items[..r.index]
  {
    var m := |r.items| - r.index;
    WalkSplit(r, m, r.index);
    WalkToEnd(r, m);
    var end := r.(index := r.index + m);
    if r.index > 0 {
      var next := end.Advance();
      WalkToEnd(next, r.index - 1);
      assert end.Walk(r.index) == [r.items[0]] + next.Walk(r.index - 1);
      assert r.items[..r.index] == [r.items[0]] + r.items[1..r.index];
    }
  }

  /**
   * An item appended with listINSERT_END is returned by the walk after every other
   * item, except that the item under the index, if there is one, comes round after it.
   */
  lemma InsertEndIsLast<T>(r: Ring<T>, x: T)
    requires r.index <= |r.items|
    ensures var s := r.InsertEnd(x);
            s.Walk(|s.items|) ==
            if r.index == 0 then r.items + [x]
            else r.items[r.index..] + r.items[..r.index - 1] + [x, r.items[r.index - 1]]
  {
    var s := r.InsertEnd(x);
    RoundRobin(s);
    if r.index > 0 {
      assert s.items[s.index..] == r.items[r.index..];
      assert s.items[..s.index] == r.items[..r.index - 1] + [x, r.items[r.index - 1]];
    } else {
      assert s.items == r.items + [x];
      assert s.items[0..] + s.items[..0] == s.items;
    }
  }

  /** A list of distinct items without `x`. */
  function Removed<T(==)>(s: seq<T>, x: T): seq<T> {
    if s == [] then [] else if s[0] == x then s[1..] else [s[0]] + Removed(s[1..], x)
  }

  lemma {:induction false} RemovedFacts<T>(s: seq<T>, x: T)
    requires Distinct(s)
    ensures var t := Removed(s, x);
            && Distinct(t)
            && (forall y :: y in t <==> y in s && y != x)
  {
    if s != [] && s[0] != x {
      RemovedFacts(s[1..], x);
      assert s[0] !in s[1..];
    }
  }

  lemma {:induction false} RemovedAt<T>(s: seq<T>, k: nat)
    requires Distinct(s) && k < |s|
    ensures Removed(s, s[k]) == s[..k] + s[k + 1..]
  {
    if k > 0 {
      RemovedAt(s[1..], k - 1);
      assert s[1..][..k - 1] == s[1..k] && s[1..][k - 1 + 1..] == s[k + 1..];
    }
  }

  lemma {:induction false} NothingRemoved<T>(s: seq<T>, x: T)
    requires x !in s
    ensures Removed(s, x) == s
  {
    if s != [] {
      NothingRemoved(s[1..], x);
    }
  }

  lemma InsertKeepsDistinct<T>(s: seq<T>, k: nat, x: T)
    requires Distinct(s) && x !in s && k <= |s|
    ensures var t := s[..k] + [x] + s[k..];
            && Distinct(t)
            && (forall y :: y in t <==> y in s || y == x)
  {
  }

  lemma {:induction false} SubsetSize<T>(a: set<T>, b: set<T>)
    requires a <= b
    ensures |a| <= |b|
  {
    if a != {} {
      var x :| x in a;
      SubsetSize(a - {x}, b - {x});
    }
  }

  /** Where `x` is in a list; its length if it is not there. */
  function Position<T(==)>(s: seq<T>, x: T): (k: nat)
    ensures k <= |s| && (k < |s| ==> s[k] == x)
  {
    if s == [] || s[0] == x then 0 else 1 + Position(s[1..], x)
  }

  lemma {:induction false} RemovedLength<T>(s: seq<T>, x: T)
    ensures |Removed(s, x)| == if Position(s, x) < |s| then |s| - 1 else |s|
  {
    if s != [] && s[0] != x {
      RemovedLength(s[1..], x);
    }
  }

  lemma {:induction false} PositionIs<T>(s: seq<T>, k: nat)
    requires Distinct(s) && k < |s|
    ensures Position(s, s[k]) == k
  {
    if k > 0 {
      PositionIs(s[1..], k - 1);
    }
  }

  /** Removing an item by its name is removing it where it is. */
  lemma WithoutIsRemoveAt<T>(r: Ring<T>, k: nat)
    requires r.Valid() && k < |r.items|
    ensures r.Without(r.items[k]) == r.RemoveAt(k)
  {
    PositionIs(r.items, k);
    RemovedAt(r.items, k);
  }

  function Elements<T>(s: seq<T>): set<T> {
    set x | x in s
  }

  lemma {:induction false} ElementsSize<T>(s: seq<T>)
    requires Distinct(s)
    ensures |Elements(s)| == |s|
  {
    if s != [] {
      ElementsSize(s[1..]);
      assert Elements(s) == {s[0]} + Elements(s[1..]);
    }
  }

  lemma RotationFacts<T>(s: seq<T>, k: nat)
    requires Distinct(s) && k <= |s|
    ensures Distinct(s[k..] + s[..k])
    ensures forall x :: x in s[k..] + s[..k] <==> x in s
  {
    assert s == s[..k] + s[k..];
  }
}
