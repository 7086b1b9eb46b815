/**
 * list.c on the heap: a circular doubly linked list with an end marker and a
 * walking index, proved to refine Rings.Ring.
 */
module Lists {
  import opened Ticks
  import opened Rings

  class ListItem {
    var itemValue: Tick
    var next: ListItem?
    var previous: ListItem?
    var container: List?

    /** vListInitialiseItem: the item is on no list. */
    constructor (value: Tick)
      ensures itemValue == value && container == null
    {
      itemValue := value;
      next, previous, container := null, null, null;
    }

    /** uxListRemove: takes the item off `list`, where it stands at position `k`. */
    method Remove(ghost list: List, ghost k: nat) returns (left: nat)
      requires container == list && list.Valid()
      requires k < |list.Model().items| && list.Model().items[k] == this
      modifies list, this`container, (set n <- list.nodes)`next, (set n <- list.nodes)`previous
      ensures list.Valid() && this !in list.nodes && container == null
      ensures list.Model() == old(list.Model()).RemoveAt(k)
      ensures left == |list.Model().items|
    {
      var holder := container;
      ghost var before, p := holder.nodes, holder.position;
      WithoutFacts(before, k + 1, p);
      var back := previous;
      assert before[k + 1] == this;
      Unlink(before, k + 1);
      if holder.listIndex == this {
        holder.listIndex := back;
      }
      container := null;
      holder.numberOfItems := holder.numberOfItems - 1;
      holder.nodes, holder.position := Without(before, k + 1), if k < p then p - 1 else p;
      left := holder.numberOfItems;
    }

    /** Closes the circle over this node. */
    method Unlink(ghost nodes: seq<ListItem>, ghost at: nat)
      requires Linked(nodes) && Distinct(nodes) && 1 <= at < |nodes| && nodes[at] == this
      modifies (set n <- nodes)`next, (set n <- nodes)`previous
      ensures Linked(Without(nodes, at))
      ensures old(previous) == nodes[at - 1]
    {
      assert next == Successor(nodes, at) && previous == Predecessor(nodes, at);
      next.previous := previous;
      previous.next := next;
      ghost var after := Without(nodes, at);
      forall i | 0 <= i < |after|
        ensures after[i].next == Successor(after, i) && after[i].previous == Predecessor(after, i)
      {
        var j := if i < at then i else i + 1;
        assert after[i] == nodes[j];
        assert old(nodes[j].next == Successor(nodes, j) && nodes[j].previous == Predecessor(nodes, j));
      }
    }

    /** Opens the circle between two neighbouring nodes for this one. */
    method Link(ghost nodes: seq<ListItem>, ghost at: nat, last: ListItem, first: ListItem)
      requires Linked(nodes) && Distinct(nodes) && 1 <= at <= |nodes| && this !in nodes
      requires last == nodes[at - 1] && first == Successor(nodes, at - 1)
      modifies this`next, this`previous, last`next, first`previous
      ensures Linked(With(nodes, at, this))
    {
      next := first;
      previous := last;
      last.next := this;
      first.previous := this;
      ghost var after := With(nodes, at, this);
      forall i | 0 <= i < |after|
        ensures after[i].next == Successor(after, i) && after[i].previous == Predecessor(after, i)
      {
        if i != at {
          var j := if i < at then i else i - 1;
          assert after[i] == nodes[j];
          assert old(nodes[j].next == Successor(nodes, j) && nodes[j].previous == Predecessor(nodes, j));
        }
      }
    }
  }

  class List {
    const listEnd: ListItem
    var listIndex: ListItem
    var numberOfItems: nat
    // The end marker followed by the items in order, and the index's place among them.
    ghost var nodes: seq<ListItem>
    ghost var position: nat

    ghost predicate Valid()
      reads this, nodes
    {
      && nodes != [] && nodes[0] == listEnd
      && Distinct(nodes)
      && Linked(nodes)
      && (forall n :: n in nodes && n != listEnd ==> n.container == this)
      && listEnd.itemValue == MAX_DELAY && listEnd.container == null
      && position < |nodes| && listIndex == nodes[position]
      && numberOfItems == |nodes| - 1
    }

    /** The ring this list stands for. */
    ghost function Model(): Ring<ListItem>
      requires nodes != []
      reads this
    {
      Ring(nodes[1..], position)
    }

    /** vListInitialise. */
    constructor ()
      ensures Valid() && fresh(listEnd) && nodes == [listEnd]
      ensures Model() == Ring([], 0)
    {
      var end := new ListItem(MAX_DELAY);
      end.next, end.previous := end, end;
      listEnd, listIndex := end, end;
      numberOfItems := 0;
      nodes, position := [end], 0;
    }

    /** vListInsertEnd. */
    method InsertEnd(item: ListItem)
      requires Valid() && item !in nodes && item.container == null
      modifies this, item, (set n <- nodes)`next, (set n <- nodes)`previous
      ensures Valid() && item.container == this && item.itemValue == old(item.itemValue)
      ensures Model() == old(Model()).InsertEnd(item)
    {
      ghost var at := if position == 0 then |nodes| else position;
      var index := listIndex;
      assert index.previous == Predecessor(nodes, position);
      Attach(item, at, index.previous, index);
    }

    /**
     * vListInsert: the item goes before the first item whose value is above its
     * own.  The scan stops for every value, the end marker's included.
     */
    method Insert(item: ListItem)
      requires Valid() && item !in nodes && item.container == null
      modifies this, item, (set n <- nodes)`next, (set n <- nodes)`previous
      ensures Valid() && item.container == this && item.itemValue == old(item.itemValue)
      ensures Model() == old(Model().InsertAt(InsertPosition(ValuesOf(nodes[1..]), item.itemValue), item))
    {
      ghost var at := InsertPosition(ValuesOf(nodes[1..]), item.itemValue);
      var cursor := FindInsertPoint(item.itemValue);
      assert cursor.next == Successor(nodes, at);
      Attach(item, at + 1, cursor, cursor.next);
    }

    /** What both insertions end with: the item stands between two neighbouring nodes. */
    method Attach(item: ListItem, ghost at: nat, last: ListItem, first: ListItem)
      requires Valid() && item !in nodes && item.container == null
      requires 1 <= at <= |nodes| && last == nodes[at - 1] && first == Successor(nodes, at - 1)
      modifies this, item, last`next, first`previous
      ensures Valid() && item.container == this && item.itemValue == old(item.itemValue)
      ensures Model().items == old(Model()).InsertAt(at - 1, item).items
      ensures position == if old(position) != 0 && at <= old(position) then old(position) + 1 else old(position)
    {
      ghost var before, p := nodes, position;
      WithFacts(before, at, item, p);
      item.Link(before, at, last, first);
      item.container := this;
      numberOfItems := numberOfItems + 1;
      nodes, position := With(before, at, item), if at <= p then p + 1 else p;
    }

    /** listGET_OWNER_OF_NEXT_ENTRY on a list that is not empty. */
    method OwnerOfNextEntry() returns (owner: ListItem)
      requires Valid() && Model().items != []
      modifies this
      ensures Valid() && nodes == old(nodes)
      ensures Model() == old(Model()).Advance()
      ensures [owner] == old(Model()).Walk(1)
    {
      assert listIndex.next == Successor(nodes, position) && listEnd.next == Successor(nodes, 0);
      listIndex := listIndex.next;
      position := if position + 1 < |nodes| then position + 1 else 0;
      if listIndex == listEnd {
        listIndex := listEnd.next;
        position := 1;
      }
      owner := listIndex;
      assert old(Model()).Walk(1) == [old(Model()).Advance().items[position - 1]] + old(Model()).Advance().Walk(0);
    }

    /** The scan of vListInsert: the node after which a new item of this value belongs. */
    method FindInsertPoint(value: Tick) returns (cursor: ListItem)
      requires Valid()
      ensures cursor == nodes[InsertPosition(ValuesOf(nodes[1..]), value)]
    {
      ghost var values := ValuesOf(nodes[1..]);
      ghost var at := 0;
      assert listEnd.next == Successor(nodes, 0) && listEnd.previous == Predecessor(nodes, 0);
      if value == MAX_DELAY {
        cursor := listEnd.previous;
        at := |nodes| - 1;
      } else {
        cursor := listEnd;
        while cursor.next.itemValue <= value
          invariant at < |nodes| && cursor == nodes[at] && cursor.next == Successor(nodes, at)
          invariant forall i :: 0 <= i < at ==> values[i] <= value
          decreases |nodes| - at
        {
          cursor := cursor.next;
          at := at + 1;
          assert nodes[at].next == Successor(nodes, at);
        }
      }
      InsertPositionIs(values, value, at);
    }
  }

  function With<T>(s: seq<T>, at: nat, x: T): seq<T>
    requires at <= |s|
  {
    s[..at] + [x] + s[at..]
  }

  function Without<T>(s: seq<T>, at: nat): seq<T>
    requires at < |s|
  {
    s[..at] + s[at + 1..]
  }

  lemma WithFacts<T>(s: seq<T>, at: nat, x: T, p: nat)
    requires Distinct(s) && 1 <= at <= |s| && x !in s && p < |s|
    ensures var t := With(s, at, x);
            && |t| == |s| + 1 && t[0] == s[0] && Distinct(t)
            && t[1..] == s[1..][..at - 1] + [x] + s[1..][at - 1..]
            && t[if p < at then p else p + 1] == s[p]
            && (forall y :: y in t <==> y in s || y == x)
  {
  }

  lemma WithoutFacts<T>(s: seq<T>, at: nat, p: nat)
    requires Distinct(s) && 1 <= at < |s| && p < |s|
    ensures var t := Without(s, at);
            && |t| == |s| - 1 && t[0] == s[0] && Distinct(t)
            && t[1..] == s[1..][..at - 1] + s[1..][at..]
            && t[if p < at then p else p - 1] == (if p == at then s[at - 1] else s[p])
            && (forall y :: y in t <==> y in s && y != s[at])
  {
  }

  ghost function ValuesOf(items: seq<ListItem>): (values: seq<Tick>)
    reads items
  {
    seq(|items|, i requires 0 <= i < |items| reads items => items[i].itemValue)
  }

  function Successor<T>(nodes: seq<T>, i: nat): T
    requires i < |nodes|
  {
    if i + 1 < |nodes| then nodes[i + 1] else nodes[0]
  }

  function Predecessor<T>(nodes: seq<T>, i: nat): T
    requires i < |nodes|
  {
    if i > 0 then nodes[i - 1] else nodes[|nodes| - 1]
  }

  /** Each node's links lead to its neighbours on the circle. */
  ghost predicate Linked(nodes: seq<ListItem>)
    reads (set n <- nodes)`next, (set n <- nodes)`previous
  {
    forall i {:trigger Successor(nodes, i)} {:trigger Predecessor(nodes, i)} :: 0 <= i < |nodes| ==>
      nodes[i].next == Successor(nodes, i) && nodes[i].previous == Predecessor(nodes, i)
  }
}
