/** The binary-heap list operations the reference engine keeps its books with. They are total on
    arbitrary lists: what they promise without heap order is kept apart from what they promise with it. */
module Heapq {
  import opened Trading

  function Swap(h: seq<Order>, i: nat, j: nat): (r: seq<Order>)
    requires i < |h| && j < |h|
    ensures |r| == |h|
  {
    h[i := h[j]][j := h[i]]
  }

  function Parent(i: nat): nat
    requires i > 0
  {
    (i - 1) / 2
  }

  /** Move the element at `pos` towards the root past larger parents. */
  function SiftDown(h: seq<Order>, pos: nat): (r: seq<Order>)
    requires pos < |h|
    ensures |r| == |h|
    decreases pos
  {
    if pos > 0 && Less(KeyOf(h[pos]), KeyOf(h[Parent(pos)])) then
      SiftDown(Swap(h, pos, Parent(pos)), Parent(pos))
    else
      h
  }

  function SmallerChild(h: seq<Order>, pos: nat): (c: nat)
    requires 2 * pos + 1 < |h|
    ensures c < |h| && c > pos && Parent(c) == pos
  {
    if 2 * pos + 2 < |h| && !Less(KeyOf(h[2 * pos + 1]), KeyOf(h[2 * pos + 2])) then
      2 * pos + 2
    else
      2 * pos + 1
  }

  /** Move the element at `pos` down the path of smaller children to a leaf, then back up. */
  function SiftUp(h: seq<Order>, pos: nat): (r: seq<Order>)
    requires pos < |h|
    ensures |r| == |h|
    decreases |h| - pos
  {
    if 2 * pos + 1 < |h| then
      var c := SmallerChild(h, pos);
      SiftUp(Swap(h, pos, c), c)
    else
      SiftDown(h, pos)
  }

  lemma {:induction false} SiftDownElements(h: seq<Order>, pos: nat)
    requires pos < |h|
    ensures multiset(SiftDown(h, pos)) == multiset(h)
    decreases pos
  {
    if pos > 0 && Less(KeyOf(h[pos]), KeyOf(h[Parent(pos)])) {
      SwapElements(h, pos, Parent(pos));
      SiftDownElements(Swap(h, pos, Parent(pos)), Parent(pos));
    }
  }

  lemma {:induction false} SiftUpElements(h: seq<Order>, pos: nat)
    requires pos < |h|
    ensures multiset(SiftUp(h, pos)) == multiset(h)
    decreases |h| - pos
  {
    if 2 * pos + 1 < |h| {
      SwapElements(h, pos, SmallerChild(h, pos));
      SiftUpElements(Swap(h, pos, SmallerChild(h, pos)), SmallerChild(h, pos));
    } else {
      SiftDownElements(h, pos);
    }
  }

  lemma SwapElements(h: seq<Order>, i: nat, j: nat)
    requires i < |h| && j < |h|
    ensures multiset(Swap(h, i, j)) == multiset(h)
  {
  }

  function Push(h: seq<Order>, x: Order): (r: seq<Order>)
    ensures |r| == |h| + 1 && multiset(r) == multiset(h) + multiset{x}
  {
    SiftDownElements(h + [x], |h|);
    SiftDown(h + [x], |h|)
  }

  /** The list left by popping; the element popped is `h[0]`. */
  function Pop(h: seq<Order>): (r: seq<Order>)
    requires h != []
    ensures |r| == |h| - 1 && multiset(r) + multiset{h[0]} == multiset(h)
  {
    var last := |h| - 1;
    assert h == h[..last] + [h[last]];
    if last == 0 then []
    else
      var moved := h[..last][0 := h[last]];
      SiftUpElements(moved, 0);
      SiftUp(moved, 0)
  }

  ghost predicate EdgeOk(h: seq<Order>, i: nat)
    requires 0 < i < |h|
  {
    !Less(KeyOf(h[i]), KeyOf(h[Parent(i)]))
  }

  ghost predicate IsHeap(h: seq<Order>) {
    forall i: nat {:trigger EdgeOk(h, i)} :: 0 < i < |h| ==> EdgeOk(h, i)
  }

  /** Heap order everywhere but between `pos` and its parent. */
  ghost predicate HeapExceptAbove(h: seq<Order>, pos: nat)
    requires pos < |h|
  {
    && (forall i: nat {:trigger EdgeOk(h, i)} :: 0 < i < |h| && i != pos ==> EdgeOk(h, i))
    && (pos > 0 ==> ChildrenAboveGrandparent(h, pos))
  }

  /** The children of `pos` rank no better than the parent of `pos`. */
  ghost predicate ChildrenAboveGrandparent(h: seq<Order>, pos: nat)
    requires 0 < pos < |h|
  {
    && (2 * pos + 1 < |h| ==> !Less(KeyOf(h[2 * pos + 1]), KeyOf(h[Parent(pos)])))
    && (2 * pos + 2 < |h| ==> !Less(KeyOf(h[2 * pos + 2]), KeyOf(h[Parent(pos)])))
  }

  /** Heap order everywhere but between `pos` and its children. */
  ghost predicate HeapExceptBelow(h: seq<Order>, pos: nat)
    requires pos < |h|
  {
    && (forall i: nat {:trigger EdgeOk(h, i)} :: 0 < i < |h| && Parent(i) != pos && i != pos ==> EdgeOk(h, i))
    && (pos > 0 ==> ChildrenAboveGrandparent(h, pos))
  }

  /** Swapping a better-ranked element with its parent moves the one bad edge up. */
  lemma SwapUpEdge(h: seq<Order>, pos: nat, i: nat)
    requires 0 < pos < |h| && HeapExceptAbove(h, pos) && Less(KeyOf(h[pos]), KeyOf(h[Parent(pos)]))
    requires 0 < i < |h| && i != Parent(pos)
    ensures EdgeOk(Swap(h, pos, Parent(pos)), i)
  {
    if i != pos {
      assert EdgeOk(h, i);
      if Parent(i) == pos {
        assert i == 2 * pos + 1 || i == 2 * pos + 2;
      }
    }
  }

  lemma SwapUpGrandparent(h: seq<Order>, pos: nat)
    requires 0 < pos < |h| && HeapExceptAbove(h, pos) && Parent(pos) > 0
    ensures ChildrenAboveGrandparent(Swap(h, pos, Parent(pos)), Parent(pos))
  {
    var p := Parent(pos);
    assert EdgeOk(h, p);
    var sibling := if pos == 2 * p + 1 then pos + 1 else pos - 1;
    assert sibling < |h| ==> EdgeOk(h, sibling);
  }

  lemma {:induction false} SiftDownRestoresHeap(h: seq<Order>, pos: nat)
    requires pos < |h| && HeapExceptAbove(h, pos)
    ensures IsHeap(SiftDown(h, pos))
    decreases pos
  {
    if pos > 0 && Less(KeyOf(h[pos]), KeyOf(h[Parent(pos)])) {
      forall i: nat | 0 < i < |h| && i != Parent(pos)
        ensures EdgeOk(Swap(h, pos, Parent(pos)), i)
      {
        SwapUpEdge(h, pos, i);
      }
      if Parent(pos) > 0 {
        SwapUpGrandparent(h, pos);
      }
      SiftDownRestoresHeap(Swap(h, pos, Parent(pos)), Parent(pos));
    } else {
      assert pos > 0 ==> EdgeOk(h, pos);
    }
  }

  lemma {:induction false} SiftUpRestoresHeap(h: seq<Order>, pos: nat)
    requires pos < |h| && HeapExceptBelow(h, pos)
    ensures IsHeap(SiftUp(h, pos))
    decreases |h| - pos
  {
    if 2 * pos + 1 < |h| {
      var c := SmallerChild(h, pos);
      var g := Swap(h, pos, c);
      forall i: nat | 0 < i < |g| && Parent(i) != c && i != c
        ensures EdgeOk(g, i)
      {
        assert Parent(i) != pos && i != pos ==> EdgeOk(h, i);
      }
      assert 2 * c + 1 < |h| ==> EdgeOk(h, 2 * c + 1);
      assert 2 * c + 2 < |h| ==> EdgeOk(h, 2 * c + 2);
      SiftUpRestoresHeap(g, c);
    } else {
      forall i: nat | 0 < i < |h| && i != pos
        ensures EdgeOk(h, i)
      {
      }
      SiftDownRestoresHeap(h, pos);
    }
  }

  /** Pushing keeps heap order. */
  lemma PushKeepsHeap(h: seq<Order>, x: Order)
    requires IsHeap(h)
    ensures IsHeap(Push(h, x))
  {
    var g := h + [x];
    forall i: nat | 0 < i < |g| && i != |h|
      ensures EdgeOk(g, i)
    {
      assert EdgeOk(h, i);
    }
    SiftDownRestoresHeap(g, |h|);
  }

  /** Popping keeps heap order. */
  lemma PopKeepsHeap(h: seq<Order>)
    requires IsHeap(h) && h != []
    ensures IsHeap(Pop(h))
  {
    var last := |h| - 1;
    if last > 0 {
      var g := h[..last][0 := h[last]];
      forall i: nat | 0 < i < |g| && Parent(i) != 0 && i != 0
        ensures EdgeOk(g, i)
      {
        assert EdgeOk(h, i);
      }
      SiftUpRestoresHeap(g, 0);
    }
  }

  /** The root of a heap ranks no worse than any element. */
  lemma {:induction false} RootIsLeast(h: seq<Order>, i: nat)
    requires IsHeap(h) && i < |h|
    ensures !Less(KeyOf(h[i]), KeyOf(h[0]))
    decreases i
  {
    if i > 0 {
      assert EdgeOk(h, i);
      RootIsLeast(h, Parent(i));
    }
  }

  lemma RootIsLeastOf(h: seq<Order>, o: Order)
    requires IsHeap(h) && o in h
    ensures !Less(KeyOf(o), KeyOf(h[0]))
  {
    var i: nat :| i < |h| && h[i] == o;
    RootIsLeast(h, i);
  }
}
