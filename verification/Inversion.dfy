/** What popping does to a list that is not a heap: while only large elements come up from the end
    of the list, an element that wrongly sits above a better one stays above it until it is popped. */
module Inversion {
  import opened Trading
  import opened Heapq

  /** `a` is a proper ancestor of `b` in the tree the list lays out. */
  predicate Above(a: nat, b: nat)
    decreases b
  {
    b > a && (Parent(b) == a || Above(a, Parent(b)))
  }

  lemma {:induction false} AboveParent(a: nat, b: nat)
    requires a > 0 && Above(a, b)
    ensures Above(Parent(a), b)
    decreases b
  {
    if Parent(b) != a {
      AboveParent(a, Parent(b));
    } else {
      assert Above(Parent(a), a);
    }
  }

  /** Elements ranking below `mark` are small; everything else is filler. */
  predicate Small(o: Order, mark: Key) {
    Less(KeyOf(o), mark)
  }

  predicate FillersFrom(h: seq<Order>, cut: nat, mark: Key) {
    forall i :: cut <= i < |h| ==> !Small(h[i], mark)
  }

  /** Sifting a filler towards the root leaves small elements where they are. */
  lemma {:induction false} SiftDownLeavesSmall(h: seq<Order>, pos: nat, cut: nat, mark: Key)
    requires pos < |h| && !Small(h[pos], mark) && FillersFrom(h, cut, mark)
    ensures var r := SiftDown(h, pos);
            FillersFrom(r, cut, mark) && forall i :: 0 <= i < |h| && Small(h[i], mark) ==> r[i] == h[i]
    decreases pos
  {
    if pos > 0 && Less(KeyOf(h[pos]), KeyOf(h[Parent(pos)])) {
      SiftDownLeavesSmall(Swap(h, pos, Parent(pos)), Parent(pos), cut, mark);
    }
  }

  /** Where an element is after the hole at `pos` has taken the place of child `c`. */
  function Moved(i: nat, pos: nat, c: nat): nat {
    if i == c then pos else i
  }

  lemma MovedKeepsAbove(a: nat, b: nat, pos: nat, c: nat)
    requires Above(a, b) && a != pos && b != pos && c > 0 && Parent(c) == pos
    ensures Above(Moved(a, pos, c), Moved(b, pos, c))
  {
    if a == c {
      AboveParent(a, b);
    }
  }

  /** Moving a filler down to a leaf keeps one small element above another. */
  lemma {:induction false} SiftUpKeepsInversion(h: seq<Order>, pos: nat, a: nat, b: nat, cut: nat, mark: Key)
    returns (a': nat, b': nat)
    requires pos < |h| && a < |h| && b < |h| && Above(a, b)
    requires !Small(h[pos], mark) && Small(h[a], mark) && Small(h[b], mark) && FillersFrom(h, cut, mark)
    ensures var r := SiftUp(h, pos);
            && a' < |h| && b' < |h| && Above(a', b') && r[a'] == h[a] && r[b'] == h[b]
            && FillersFrom(r, cut, mark)
    decreases |h| - pos
  {
    if 2 * pos + 1 < |h| {
      var c := SmallerChild(h, pos);
      MovedKeepsAbove(a, b, pos, c);
      a', b' := SiftUpKeepsInversion(Swap(h, pos, c), c, Moved(a, pos, c), Moved(b, pos, c), cut, mark);
    } else {
      SiftDownLeavesSmall(h, pos, cut, mark);
      a', b' := a, b;
    }
  }

  /** Popping keeps the inversion unless it pops the upper element. */
  lemma PopKeepsInversion(h: seq<Order>, a: nat, b: nat, cut: nat, mark: Key) returns (a': nat, b': nat)
    requires 0 < a < |h| && b < |h| && Above(a, b) && cut < |h|
    requires Small(h[a], mark) && Small(h[b], mark) && FillersFrom(h, cut, mark)
    ensures var r := Pop(h);
            && a' < |r| && b' < |r| && Above(a', b') && r[a'] == h[a] && r[b'] == h[b]
            && FillersFrom(r, cut, mark)
  {
    var last := |h| - 1;
    assert !Small(h[last], mark);
    a', b' := SiftUpKeepsInversion(h[..last][0 := h[last]], 0, a, b, cut, mark);
  }

  /** A list that is not a heap holds a better element below a worse one. */
  lemma BadEdge(h: seq<Order>) returns (a: nat, b: nat)
    requires !IsHeap(h)
    ensures a < |h| && b < |h| && Above(a, b) && Less(KeyOf(h[b]), KeyOf(h[a]))
  {
    b :| 0 < b < |h| && !EdgeOk(h, b);
    a := Parent(b);
  }
}
