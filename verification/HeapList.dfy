/** Order objects and the heap operations on lists of them, in the loops that heapq runs. Quantities
    do not enter the order of a heap, so the operations are stated for any quantities at all. */
module HeapList {
  import opened Trading
  import opened Heapq
  import opened ReferenceEngine

  class LiveOrder {
    const orderId: string
    const side: Side
    const price: Price
    const ts: nat
    var qty: int

    constructor (orderId: string, side: Side, price: Price, qty: int, ts: nat)
      ensures View() == Order(orderId, side, price, qty, ts)
    {
      this.orderId := orderId;
      this.side := side;
      this.price := price;
      this.qty := qty;
      this.ts := ts;
    }

    function View(): Order
      reads this
    {
      Order(orderId, side, price, qty, ts)
    }

    /** The sort key; it does not depend on the quantity. */
    function SortingKey(): Key {
      SortKey(side, price, ts)
    }

    function With(quantity: int): Order {
      Order(orderId, side, price, quantity, ts)
    }
  }

  /** The list as values, given a quantity for every order object. */
  ghost function Values(list: seq<LiveOrder>, qtys: LiveOrder -> int): (r: seq<Order>)
    ensures |r| == |list| && forall i :: 0 <= i < |list| ==> r[i] == list[i].With(qtys(list[i]))
  {
    seq(|list|, i requires 0 <= i < |list| => list[i].With(qtys(list[i])))
  }

  lemma HoleMovesElements(list: seq<LiveOrder>, pos: nat, next: nat, item: LiveOrder)
    requires pos < |list| && next < |list| && pos != next
    ensures multiset(list[pos := list[next]][next := item]) == multiset(list[pos := item])
  {
    var before := list[pos := item];
    assert list[pos := list[next]][next := item] == before[pos := before[next]][next := before[pos]];
  }

  /** Moving an element into the hole left for `item` swaps the two, seen with `item` in its hole. */
  lemma HoleMoves(list: seq<LiveOrder>, pos: nat, next: nat, item: LiveOrder, qtys: LiveOrder -> int)
    requires pos < |list| && next < |list| && pos != next
    ensures var before, after := list[pos := item], list[pos := list[next]][next := item];
            multiset(after) == multiset(before) && Values(after, qtys) == Swap(Values(before, qtys), pos, next)
  {
    HoleMovesElements(list, pos, next, item);
  }

  lemma SiftDownUnfolds(h: seq<Order>, pos: nat)
    requires 0 < pos < |h|
    ensures SiftDown(h, pos)
         == if Less(KeyOf(h[pos]), KeyOf(h[Parent(pos)])) then SiftDown(Swap(h, pos, Parent(pos)), Parent(pos)) else h
  {
  }

  lemma SiftUpUnfolds(h: seq<Order>, pos: nat)
    requires 2 * pos + 1 < |h|
    ensures SiftUp(h, pos) == SiftUp(Swap(h, pos, SmallerChild(h, pos)), SmallerChild(h, pos))
  {
  }

  lemma SiftUpEnds(h: seq<Order>, pos: nat)
    requires pos < |h| <= 2 * pos + 1
    ensures SiftUp(h, pos) == SiftDown(h, pos)
  {
  }

  /** heapq._siftdown: the new item moves towards the root, parents moving down into its hole. */
  method SiftDownList(list: seq<LiveOrder>, start: nat, item: LiveOrder, ghost qtys: LiveOrder -> int)
    returns (r: seq<LiveOrder>)
    requires start < |list|
    ensures |r| == |list| && multiset(r) == multiset(list[start := item])
    ensures Values(r, qtys) == SiftDown(Values(list[start := item], qtys), start)
  {
    r := list;
    var pos := start;
    ghost var elements, goal := multiset(list[start := item]), SiftDown(Values(list[start := item], qtys), start);
    while pos > 0
      invariant 0 <= pos < |r| == |list|
      invariant multiset(r[pos := item]) == elements
      invariant SiftDown(Values(r[pos := item], qtys), pos) == goal
      decreases pos
    {
      var parentPos := Parent(pos);
      var parent := r[parentPos];
      SiftDownUnfolds(Values(r[pos := item], qtys), pos);
      if !Less(item.SortingKey(), parent.SortingKey()) {
        break;
      }
      HoleMoves(r, pos, parentPos, item, qtys);
      r := r[pos := parent];
      pos := parentPos;
    }
    r := r[pos := item];
  }

  /** The smaller child of the hole at `pos`; ties go to the right. */
  function PickChild(list: seq<LiveOrder>, pos: nat): nat
    requires 2 * pos + 1 < |list|
  {
    if 2 * pos + 2 < |list| && !Less(list[2 * pos + 1].SortingKey(), list[2 * pos + 2].SortingKey()) then
      2 * pos + 2
    else
      2 * pos + 1
  }

  lemma SiftUpMoves(list: seq<LiveOrder>, pos: nat, item: LiveOrder, qtys: LiveOrder -> int)
    requires 2 * pos + 1 < |list|
    ensures var childPos := PickChild(list, pos);
            var after := list[pos := list[childPos]][childPos := item];
            && multiset(after) == multiset(list[pos := item])
            && SiftUp(Values(after, qtys), childPos) == SiftUp(Values(list[pos := item], qtys), pos)
  {
    var childPos := PickChild(list, pos);
    assert childPos == SmallerChild(Values(list[pos := item], qtys), pos);
    SiftUpUnfolds(Values(list[pos := item], qtys), pos);
    HoleMoves(list, pos, childPos, item, qtys);
  }

  /** heapq._siftup: smaller children move up into the hole until it is a leaf; the item then moves
      back up to where it belongs. */
  method SiftUpList(list: seq<LiveOrder>, item: LiveOrder, ghost qtys: LiveOrder -> int) returns (r: seq<LiveOrder>)
    requires list != []
    ensures |r| == |list| && multiset(r) == multiset(list[0 := item])
    ensures Values(r, qtys) == SiftUp(Values(list[0 := item], qtys), 0)
  {
    r := list;
    var pos := 0;
    ghost var elements, goal := multiset(list[0 := item]), SiftUp(Values(list[0 := item], qtys), 0);
    while 2 * pos + 1 < |r|
      invariant 0 <= pos < |r| == |list|
      invariant multiset(r[pos := item]) == elements
      invariant SiftUp(Values(r[pos := item], qtys), pos) == goal
      decreases |list| - pos
    {
      SiftUpMoves(r, pos, item, qtys);
      var childPos := PickChild(r, pos);
      r := r[pos := r[childPos]];
      pos := childPos;
    }
    SiftUpEnds(Values(r[pos := item], qtys), pos);
    r := SiftDownList(r, pos, item, qtys);
  }

  method HeapPush(list: seq<LiveOrder>, item: LiveOrder, ghost qtys: LiveOrder -> int) returns (r: seq<LiveOrder>)
    ensures |r| == |list| + 1 && multiset(r) == multiset(list) + multiset{item}
    ensures Values(r, qtys) == Push(Values(list, qtys), item.With(qtys(item)))
  {
    assert (list + [item])[|list| := item] == list + [item];
    assert Values(list + [item], qtys) == Values(list, qtys) + [item.With(qtys(item))];
    r := SiftDownList(list + [item], |list|, item, qtys);
  }

  method HeapPop(list: seq<LiveOrder>, ghost qtys: LiveOrder -> int) returns (best: LiveOrder, r: seq<LiveOrder>)
    requires list != []
    ensures best == list[0] && |r| == |list| - 1 && multiset(r) + multiset{best} == multiset(list)
    ensures Values(r, qtys) == Pop(Values(list, qtys))
  {
    var last := |list| - 1;
    var lastItem := list[last];
    assert list == list[..last] + [lastItem];
    if last == 0 {
      best, r := lastItem, [];
    } else {
      best := list[0];
      assert Values(list[..last][0 := lastItem], qtys) == Values(list, qtys)[..last][0 := Values(list, qtys)[last]];
      r := SiftUpList(list[..last], lastItem, qtys);
    }
  }

  /** `values` are the orders of the list as they are now. */
  ghost predicate Shows(list: seq<LiveOrder>, values: seq<Order>)
    reads list
  {
    |list| == |values| && forall i :: 0 <= i < |list| ==> list[i].View() == values[i]
  }

  ghost function Quantities(list: seq<LiveOrder>): (q: LiveOrder -> int)
    reads list
    ensures forall o :: o in list ==> q(o) == o.qty
  {
    var now := map o | o in list :: o.qty;
    (o: LiveOrder) => if o in now then now[o] else 0
  }

  lemma ShownValues(list: seq<LiveOrder>, values: seq<Order>, qtys: LiveOrder -> int)
    requires |list| == |values| && forall o :: o in list ==> qtys(o) == o.qty
    ensures Shows(list, values) <==> Values(list, qtys) == values
  {
    if Values(list, qtys) == values {
      forall i | 0 <= i < |list|
        ensures list[i].View() == values[i]
      {
        assert list[i].View() == list[i].With(qtys(list[i]));
      }
    }
  }

  /** Popping a list that holds its head once leaves no trace of it. */
  lemma PopOnce(list: seq<LiveOrder>, rest: seq<LiveOrder>)
    requires list != [] && multiset(list)[list[0]] == 1 && multiset(rest) + multiset{list[0]} == multiset(list)
    ensures list[0] !in rest && forall o :: o in rest ==> o in list
  {
    assert multiset(rest)[list[0]] == 0;
    forall o | o in rest
      ensures o in list
    {
      assert o in multiset(rest);
      assert o in multiset(list);
    }
  }

  /** The list without the orders of an id. */
  function WithoutId(list: seq<LiveOrder>, id: string): seq<LiveOrder> {
    if list == [] then []
    else if list[0].orderId == id then WithoutId(list[1..], id)
    else [list[0]] + WithoutId(list[1..], id)
  }

  lemma MembersShrank(before: seq<LiveOrder>, after: seq<LiveOrder>)
    requires multiset(after) <= multiset(before)
    ensures forall o :: o in after ==> o in before
    ensures forall o :: multiset(after)[o] <= multiset(before)[o]
  {
    forall o | o in after
      ensures o in before
    {
      assert o in multiset(after);
      assert o in multiset(before);
    }
  }

  lemma {:induction false} WithoutIdShows(list: seq<LiveOrder>, values: seq<Order>, id: string)
    requires Shows(list, values)
    ensures Shows(WithoutId(list, id), Without(values, id))
    ensures multiset(WithoutId(list, id)) <= multiset(list)
  {
    if list != [] {
      WithoutIdShows(list[1..], values[1..], id);
      assert list == [list[0]] + list[1..];
    }
  }

  /** A heap list as the mutable object it is; `values` are its orders as they are now. */
  class BookList {
    var list: seq<LiveOrder>
    ghost var values: seq<Order>

    ghost predicate Current()
      reads this, list
    {
      Shows(list, values)
    }

    constructor ()
      ensures list == [] && values == [] && Current()
    {
      list, values := [], [];
    }

    method PopHead() returns (best: LiveOrder)
      requires Current() && list != [] && multiset(list)[list[0]] == 1
      modifies this
      ensures Current() && values == Pop(old(values))
      ensures best == old(list)[0] && best !in list && multiset(list) + multiset{best} == multiset(old(list))
      ensures forall o :: o in list ==> o in old(list)
    {
      ghost var qtys, before := Quantities(list), list;
      ShownValues(list, values, qtys);
      var rest;
      best, rest := HeapPop(list, qtys);
      PopOnce(before, rest);
      ShownValues(rest, Pop(values), qtys);
      list, values := rest, Pop(values);
    }

    method PushItem(item: LiveOrder)
      requires Current()
      modifies this
      ensures Current() && values == Push(old(values), item.View())
      ensures multiset(list) == multiset(old(list)) + multiset{item}
    {
      ghost var qtys := Quantities(list + [item]);
      ShownValues(list, values, qtys);
      var r := HeapPush(list, item, qtys);
      forall o | o in r
        ensures qtys(o) == o.qty
      {
        assert o in multiset(r);
      }
      ShownValues(r, Push(values, item.View()), qtys);
      list, values := r, Push(values, item.View());
    }

    /** Put back what is left of an order, if anything is. */
    method PutBack(item: LiveOrder)
      requires Current()
      modifies this
      ensures Current() && values == (if item.qty > 0 then Push(old(values), item.View()) else old(values))
      ensures multiset(list) <= multiset(old(list)) + multiset{item}
    {
      if item.qty > 0 {
        PushItem(item);
      }
    }

    method RemoveId(id: string)
      requires Current()
      modifies this
      ensures Current() && values == Without(old(values), id)
      ensures multiset(list) <= multiset(old(list))
    {
      WithoutIdShows(list, values, id);
      list, values := WithoutId(list, id), Without(values, id);
    }
  }

  /** The in-place part of one pass: both parties lose `qty`, and the best order goes back if
      anything is left of it. */
  method TradeBest(incoming: LiveOrder, book: BookList) returns (best: LiveOrder, qty: int)
    requires book.Current() && book.list != [] && incoming !in book.list && multiset(book.list)[book.list[0]] == 1
    modifies incoming, book, book.list[0]
    ensures best == old(book.list)[0] && best != incoming
    ensures qty == Min(old(incoming.qty), old(best.qty))
    ensures incoming.qty == old(incoming.qty) - qty && best.qty == old(best.qty) - qty
    ensures book.Current() && book.values == TakeBest(old(book.values), qty)
    ensures multiset(book.list) <= multiset(old(book.list))
  {
    best := book.PopHead();
    qty := Min(incoming.qty, best.qty);
    incoming.qty := incoming.qty - qty;
    best.qty := best.qty - qty;
    book.PutBack(best);
  }
}
