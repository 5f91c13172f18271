/** Reading a heap's list in order of arrival: the bridge from the reference books to the naive ones. */
module Arrival {
  import opened Trading
  import opened Bags
  import opened Heapq
  import opened ReferenceEngine
  import opened NaiveEngine

  predicate Older(a: seq<Order>) {
    forall i, j :: 0 <= i < j < |a| ==> a[i].ts < a[j].ts
  }

  /** Two lists in order of arrival with the same elements are the same list. */
  lemma {:induction false} OrderOfArrivalIsUnique(a: seq<Order>, b: seq<Order>)
    requires Older(a) && Older(b) && multiset(a) == multiset(b)
    ensures a == b
  {
    assert |a| == |multiset(a)| == |b|;
    if a != [] {
      assert a[0] in multiset(b) && b[0] in multiset(a);
      assert a[0] in b && b[0] in a;
      assert a[0] == b[0];
      assert a == [a[0]] + a[1..] && b == [b[0]] + b[1..];
      MultisetCancel(a[0], multiset(a[1..]), multiset(b[1..]));
      OrderOfArrivalIsUnique(a[1..], b[1..]);
    }
  }

  function Insert(a: seq<Order>, o: Order): (r: seq<Order>)
    ensures multiset(r) == multiset(a) + multiset{o}
  {
    if a == [] || o.ts < a[0].ts then [o] + a
    else
      assert a == [a[0]] + a[1..];
      [a[0]] + Insert(a[1..], o)
  }

  /** The orders of a book in order of arrival. */
  function ByArrival(book: seq<Order>): (r: seq<Order>)
    ensures multiset(r) == multiset(book)
  {
    if book == [] then []
    else
      assert book == [book[0]] + book[1..];
      Insert(ByArrival(book[1..]), book[0])
  }

  ghost predicate DistinctTs(book: multiset<Order>) {
    && (forall o :: o in book ==> book[o] == 1)
    && (forall o, p :: o in book && p in book && o.ts == p.ts ==> o == p)
  }

  lemma {:induction false} InsertKeepsOrder(a: seq<Order>, o: Order)
    requires Older(a) && forall i :: 0 <= i < |a| ==> a[i].ts != o.ts
    ensures Older(Insert(a, o))
  {
    if a != [] && o.ts >= a[0].ts {
      InsertKeepsOrder(a[1..], o);
      var r := Insert(a[1..], o);
      forall i | 0 <= i < |r|
        ensures a[0].ts < r[i].ts
      {
        assert r[i] in multiset(r);
        assert r[i] == o || r[i] in multiset(a[1..]);
      }
    }
  }

  lemma {:induction false} ByArrivalIsOlder(book: seq<Order>)
    requires DistinctTs(multiset(book))
    ensures Older(ByArrival(book))
  {
    if book != [] {
      var rest := multiset(book[1..]);
      assert book == [book[0]] + book[1..];
      assert multiset(book) == multiset{book[0]} + rest;
      assert forall o :: o in rest ==> multiset(book)[o] >= rest[o];
      assert multiset(book)[book[0]] == 1 + rest[book[0]];
      ByArrivalIsOlder(book[1..]);
      var a := ByArrival(book[1..]);
      forall i | 0 <= i < |a|
        ensures a[i].ts != book[0].ts
      {
        assert a[i] in multiset(a);
      }
      InsertKeepsOrder(a, book[0]);
    }
  }

  function QuoteOf(o: Order): Quote {
    Quote(o.id, o.price, o.qty)
  }

  function Quotes(a: seq<Order>): (r: seq<Quote>) {
    seq(|a|, i requires 0 <= i < |a| => QuoteOf(a[i]))
  }

  /** `a` lists the orders of the book `h` in order of arrival. */
  ghost predicate Reads(h: seq<Order>, a: seq<Order>) {
    Older(a) && multiset(h) == multiset(a)
  }

  lemma ReadsIsByArrival(h: seq<Order>, a: seq<Order>)
    requires Reads(h, a)
    ensures a == ByArrival(h)
  {
    OlderIsDistinct(a);
    ByArrivalIsOlder(h);
    OrderOfArrivalIsUnique(a, ByArrival(h));
  }

  lemma {:induction false} OlderCounts(a: seq<Order>, o: Order)
    requires Older(a) && o in a
    ensures multiset(a)[o] == 1
  {
    assert a == [a[0]] + a[1..];
    if o == a[0] {
      assert o !in a[1..];
    } else {
      OlderCounts(a[1..], o);
    }
  }

  lemma OlderIsDistinct(a: seq<Order>)
    requires Older(a)
    ensures DistinctTs(multiset(a))
  {
    forall o | o in multiset(a)
      ensures o in a && multiset(a)[o] == 1
    {
      OlderCounts(a, o);
    }
  }

  function TakeAtOrder(a: seq<Order>, i: nat, qty: int): seq<Order>
    requires i < |a|
  {
    if a[i].qty > qty then a[i := Reduced(a[i], qty)] else a[..i] + a[i + 1..]
  }

  lemma QuotesOfTake(a: seq<Order>, i: nat, qty: int)
    requires i < |a|
    ensures Quotes(TakeAtOrder(a, i, qty)) == TakeAt(Quotes(a), i, qty)
  {
  }

  lemma TakeKeepsArrival(a: seq<Order>, i: nat, qty: int)
    requires Older(a) && i < |a|
    ensures Older(TakeAtOrder(a, i, qty))
  {
  }

  /** Taking from the root of the heap and taking from its place in the arrival list agree. */
  lemma TakeReads(h: seq<Order>, a: seq<Order>, i: nat, qty: int)
    requires Reads(h, a) && i < |a| && h != [] && a[i] == h[0]
    ensures Reads(TakeBest(h, qty), TakeAtOrder(a, i, qty))
  {
    TakeKeepsArrival(a, i, qty);
    SplitAt(a, i);
    MultisetCancel(h[0], multiset(Pop(h)), multiset(a[..i] + a[i + 1..]));
    if h[0].qty > qty {
      var left := Reduced(a[i], qty);
      SplitAt(a[i := left], i);
      assert a[i := left][..i] == a[..i] && a[i := left][i + 1..] == a[i + 1..];
    }
  }

  lemma TakeBestKeepsHeap(h: seq<Order>, qty: int)
    requires IsHeap(h) && h != []
    ensures IsHeap(TakeBest(h, qty))
  {
    PopKeepsHeap(h);
    if h[0].qty > qty {
      PushKeepsHeap(Pop(h), Reduced(h[0], qty));
    }
  }

  ghost predicate AllOf(a: seq<Order>, side: Side) {
    forall i :: 0 <= i < |a| ==> a[i].side == side
  }

  /** The root of the heap is the order the naive engine would pick. */
  lemma RootIsBestQuote(h: seq<Order>, a: seq<Order>, taker: Side)
    requires IsHeap(h) && h != [] && Reads(h, a) && AllOf(a, taker.Opposite())
    ensures a != [] && a[BestIndex(taker, Quotes(a))] == h[0]
  {
    assert h[0] in multiset(a);
    var c :| 0 <= c < |a| && a[c] == h[0];
    var b := BestIndex(taker, Quotes(a));
    assert Quotes(a)[b] == QuoteOf(a[b]) && Quotes(a)[c] == QuoteOf(a[c]);
    assert a[b] in multiset(h);
    RootIsLeastOf(h, a[b]);
    if b != c {
      assert !Better(taker, a[c].price, a[b].price);
      CostIsBetter(taker, a[b].price, a[c].price);
    }
  }

  lemma CostIsBetter(taker: Side, p: Price, q: Price)
    ensures Better(taker, p, q) <==> Below(Cost(taker.Opposite(), p), Cost(taker.Opposite(), q))
    ensures !Better(taker, p, q) && !Better(taker, q, p) ==> p == q
  {
  }
}
