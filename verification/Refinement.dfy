/** While its lists keep heap order, the reference engine does what the naive engine does: the same
    fills in the same order, and the same orders left resting. */
module Refinement {
  import opened Trading
  import opened Bags
  import opened Heapq
  import opened ReferenceEngine
  import opened EngineInvariants
  import opened NaiveEngine
  import opened Arrival

  ghost predicate Ordered(s: State) {
    IsHeap(s.buys) && IsHeap(s.sells)
  }

  /** `a` reads the book being matched in order of arrival, and `n` is the naive view of the match. */
  ghost predicate Tracks(m: Matching, n: Sweep, a: seq<Order>) {
    && IsHeap(m.book)
    && Reads(m.book, a)
    && n == Sweep(m.incoming.side, QuoteOf(m.incoming), Quotes(a), Trades(m.log))
  }

  lemma SoundIsAllOf(h: seq<Order>, a: seq<Order>, side: Side)
    requires Sound(multiset(h), side) && Reads(h, a)
    ensures AllOf(a, side)
  {
    forall i | 0 <= i < |a|
      ensures a[i].side == side
    {
      assert a[i] in multiset(a);
    }
  }

  lemma TracksStop(m: Matching, n: Sweep, a: seq<Order>)
    requires Tracks(m, n, a) && AllOf(a, m.incoming.side.Opposite())
    ensures Stopped(m) <==> Finished(n)
    ensures m.book != [] ==> a != [] && a[BestIndex(n.taker, n.book)] == m.book[0]
  {
    assert |multiset(m.book)| == |m.book| && |multiset(a)| == |a|;
    if m.book != [] {
      RootIsBestQuote(m.book, a, m.incoming.side);
    }
  }

  lemma TradesOfAppend(log: seq<Fill>, f: Fill)
    ensures Trades(log + [f]) == Trades(log) + [TradeOf(f)]
  {
  }

  lemma StepTracks(m: Matching, n: Sweep, a: seq<Order>) returns (a': seq<Order>)
    requires Tracks(m, n, a) && AllOf(a, m.incoming.side.Opposite())
    requires !Stopped(m) && m.book[0].id in m.index
    ensures !Finished(n) && Tracks(Step(m), Pass(n), a')
  {
    TracksStop(m, n, a);
    var i, best := BestIndex(n.taker, n.book), m.book[0];
    var qty := Min(m.incoming.qty, best.qty);
    a' := TakeAtOrder(a, i, qty);
    TakeReads(m.book, a, i, qty);
    QuotesOfTake(a, i, qty);
    TakeBestKeepsHeap(m.book, qty);
    TradesOfAppend(m.log, FillOf(m.incoming, best, qty, m.clock + 1));
  }

  lemma {:induction false} RunTracks(m: Matching, own: multiset<Order>, live: LiveMap, n: Sweep, a: seq<Order>)
    returns (a': seq<Order>)
    requires ValidMatching(m, own, live) && Tracks(m, n, a)
    ensures Tracks(Run(m), RunSweep(n), a')
    decreases |m.book|, m.incoming.qty > 0
  {
    SoundIsAllOf(m.book, a, m.incoming.side.Opposite());
    TracksStop(m, n, a);
    if Stopped(m) {
      a' := a;
    } else {
      BestIsIndexed(m, own, live);
      a' := StepTracks(m, n, a);
      var after := StepKeepsValid(m, own, live);
      a' := RunTracks(Step(m), own, after, Pass(n), a');
    }
  }

  /** The naive engine holds the same orders and has made the same trades. */
  ghost predicate Mirrors(s: State, n: Naive) {
    && n.buys == Quotes(ByArrival(s.buys))
    && n.sells == Quotes(ByArrival(s.sells))
    && n.trades == Trades(s.fills)
  }

  /** Resting orders have distinct sequence numbers, none above the clock. */
  lemma ValidBookIsDistinct(s: State, side: Side)
    requires Valid(s)
    ensures DistinctTs(multiset(Book(s, side)))
    ensures forall o :: o in multiset(Book(s, side)) ==> o.id in s.index && o.ts <= s.clock
  {
    var live :| ValidWith(s, live);
    forall o | o in multiset(Book(s, side))
      ensures multiset(Book(s, side))[o] == 1 && IsLive(live, o)
    {
      assert Both(s)[o] >= multiset(Book(s, side))[o];
    }
  }

  lemma ValidBookReads(s: State, side: Side)
    requires Valid(s)
    ensures Reads(Book(s, side), ByArrival(Book(s, side)))
  {
    ValidBookIsDistinct(s, side);
    ByArrivalIsOlder(Book(s, side));
  }

  lemma ArrivesLast(h: seq<Order>, a: seq<Order>, o: Order)
    requires Reads(h, a) && forall p :: p in multiset(h) ==> p.ts < o.ts
    ensures Reads(Push(h, o), a + [o]) && Quotes(a + [o]) == Quotes(a) + [QuoteOf(o)]
  {
    forall i | 0 <= i < |a|
      ensures a[i].ts < o.ts
    {
      assert a[i] in multiset(a);
    }
  }

  lemma RestingMirrors(s: State, o: Order)
    requires Valid(s) && o.ts > s.clock
    ensures var own := Book(s, o.side);
            Quotes(ByArrival(Push(own, o))) == Quotes(ByArrival(own)) + [QuoteOf(o)]
  {
    var own := Book(s, o.side);
    ValidBookReads(s, o.side);
    ValidBookIsDistinct(s, o.side);
    ArrivesLast(own, ByArrival(own), o);
    ReadsIsByArrival(Push(own, o), ByArrival(own) + [o]);
  }

  lemma TradesOfConcat(a: seq<Fill>, b: seq<Fill>)
    ensures Trades(a + b) == Trades(a) + Trades(b)
  {
  }

  ghost predicate MirrorsBook(s: State, n: Naive, side: Side) {
    QuoteBook(n, side) == Quotes(ByArrival(Book(s, side)))
  }

  lemma MirrorsBySide(s: State, n: Naive, side: Side)
    requires MirrorsBook(s, n, side) && MirrorsBook(s, n, side.Opposite()) && n.trades == Trades(s.fills)
    ensures Mirrors(s, n)
  {
  }

  lemma SettleBooks(s: State, m: Matching)
    ensures var r, own := Settle(s, m), Book(s, m.incoming.side);
            && Book(r, m.incoming.side.Opposite()) == m.book
            && Book(r, m.incoming.side) == (if m.incoming.qty > 0 then Push(own, m.incoming) else own)
            && r.fills == s.fills + m.log
  {
  }

  lemma CloseBooks(n: Naive, w: Sweep)
    ensures var r, own := Close(n, w), QuoteBook(n, w.taker);
            && QuoteBook(r, w.taker.Opposite()) == w.book
            && QuoteBook(r, w.taker) == (if w.quote.qty > 0 then own + [w.quote] else own)
            && r.trades == n.trades + w.log
  {
  }

  lemma SettleMirrors(s: State, n: Naive, m: Matching, w: Sweep, a: seq<Order>)
    requires Mirrors(s, n) && Reads(m.book, a)
    requires w == Sweep(m.incoming.side, QuoteOf(m.incoming), Quotes(a), Trades(m.log))
    requires var own := Book(s, m.incoming.side);
             Quotes(ByArrival(Push(own, m.incoming))) == Quotes(ByArrival(own)) + [QuoteOf(m.incoming)]
    ensures Mirrors(Settle(s, m), Close(n, w))
  {
    SettleBooks(s, m);
    CloseBooks(n, w);
    ReadsIsByArrival(m.book, a);
    TradesOfConcat(s.fills, m.log);
    MirrorsBySide(Settle(s, m), Close(n, w), m.incoming.side);
  }

  lemma {:induction false} RunKeepsHeap(m: Matching)
    requires IsHeap(m.book)
    ensures IsHeap(Run(m).book)
    decreases |m.book|, m.incoming.qty > 0
  {
    if !Stopped(m) {
      PopKeepsHeap(m.book);
      TakeBestKeepsHeap(m.book, Min(m.incoming.qty, m.book[0].qty));
      RunKeepsHeap(Step(m));
    }
  }

  /** An incoming order never breaks heap order. */
  lemma AddLimitKeepsOrdered(s: State, id: string, side: Side, price: Price, qty: int)
    requires Ordered(s)
    ensures Ordered(AddLimit(s, id, side, price, qty))
  {
    RunKeepsHeap(Arrive(s, id, side, price, qty));
    RunKeepsTaker(Arrive(s, id, side, price, qty));
    PushKeepsHeap(Book(s, side), Run(Arrive(s, id, side, price, qty)).incoming);
  }

  lemma AddLimitMirrors(s: State, n: Naive, r: Request)
    requires Valid(s) && Ordered(s) && Mirrors(s, n) && !r.Cancel? && r.id !in s.index
    ensures Mirrors(Apply(AsWritten, s, r), NaiveApply(n, r))
    ensures Trades(Returned(s, r)) == NaiveReturned(n, r)
  {
    var start := Arrive(s, r.id, r.side, LimitPrice(r), r.qty);
    var a := ByArrival(start.book);
    var live := ArriveIsValid(s, r.id, r.side, LimitPrice(r), r.qty);
    ValidBookReads(s, r.side.Opposite());
    assert Trades([]) == [];
    assert Tracks(start, Open(n, r), a);
    a := RunTracks(start, multiset(Book(s, r.side)), live, Open(n, r), a);
    RunKeepsTaker(start);
    RestingMirrors(s, Run(start).incoming);
    SettleMirrors(s, n, Run(start), RunSweep(Open(n, r)), a);
  }

  lemma {:induction false} WithoutKeepsArrival(a: seq<Order>, id: string)
    requires Older(a)
    ensures Older(Without(a, id)) && Quotes(Without(a, id)) == Except(Quotes(a), id)
    ensures forall o :: o in Without(a, id) ==> o in a
  {
    if a != [] {
      WithoutKeepsArrival(a[1..], id);
      assert Quotes(a)[1..] == Quotes(a[1..]);
      if a[0].id != id {
        var rest := Without(a[1..], id);
        forall i | 0 <= i < |rest|
          ensures a[0].ts < rest[i].ts
        {
          assert rest[i] in a[1..];
        }
        assert Quotes([a[0]] + rest) == [QuoteOf(a[0])] + Quotes(rest);
      }
    }
  }

  lemma FilteredCounts(mode: CancelMode, h: seq<Order>, a: seq<Order>, id: string)
    requires multiset(h) == multiset(a)
    ensures multiset(Filtered(mode, h, id)) == multiset(Without(a, id))
  {
    FilteredElements(mode, h, id);
    WithoutElements(a, id);
    SameCounts(multiset(Filtered(mode, h, id)), multiset(Without(a, id)));
  }

  lemma FilteredMirrors(mode: CancelMode, h: seq<Order>, id: string)
    requires DistinctTs(multiset(h))
    ensures Quotes(ByArrival(Filtered(mode, h, id))) == Except(Quotes(ByArrival(h)), id)
  {
    ByArrivalIsOlder(h);
    WithoutKeepsArrival(ByArrival(h), id);
    FilteredCounts(mode, h, ByArrival(h), id);
    ReadsIsByArrival(Filtered(mode, h, id), Without(ByArrival(h), id));
  }

  lemma {:induction false} ExceptAbsent(q: seq<Quote>, id: string)
    requires forall i :: 0 <= i < |q| ==> q[i].id != id
    ensures Except(q, id) == q
  {
    if q != [] {
      ExceptAbsent(q[1..], id);
    }
  }

  lemma AbsentNotQuoted(book: seq<Order>, id: string)
    requires forall o :: o in multiset(book) ==> o.id != id
    ensures Except(Quotes(ByArrival(book)), id) == Quotes(ByArrival(book))
  {
    var a := ByArrival(book);
    forall i | 0 <= i < |a|
      ensures a[i].id != id
    {
      assert a[i] in multiset(a);
    }
    ExceptAbsent(Quotes(a), id);
  }

  lemma DeadIdNotQuoted(s: State, side: Side, id: string)
    requires Valid(s) && id !in s.index
    ensures Except(Quotes(ByArrival(Book(s, side))), id) == Quotes(ByArrival(Book(s, side)))
  {
    ValidBookIsDistinct(s, side);
    AbsentNotQuoted(Book(s, side), id);
  }

  lemma CancelMirrors(mode: CancelMode, s: State, n: Naive, id: string)
    requires Valid(s) && Mirrors(s, n)
    ensures Mirrors(CancelOrder(mode, s, id), NaiveApply(n, Cancel(id)))
  {
    if id in s.index {
      ValidBookIsDistinct(s, Buy);
      ValidBookIsDistinct(s, Sell);
      FilteredMirrors(mode, s.buys, id);
      FilteredMirrors(mode, s.sells, id);
    } else {
      DeadIdNotQuoted(s, Buy, id);
      DeadIdNotQuoted(s, Sell, id);
    }
  }

  /** One request does the same in both engines. */
  lemma RequestMirrors(mode: CancelMode, s: State, n: Naive, r: Request)
    requires Valid(s) && Ordered(s) && Mirrors(s, n) && (!r.Cancel? ==> r.id !in s.index)
    ensures Mirrors(Apply(mode, s, r), NaiveApply(n, r))
    ensures Trades(Returned(s, r)) == NaiveReturned(n, r)
  {
    if r.Cancel? {
      CancelMirrors(mode, s, n, r.id);
    } else {
      AddLimitMirrors(s, n, r);
    }
  }

  /** Every cancel of the run leaves heap-ordered lists. */
  ghost predicate HeapKept(mode: CancelMode, s: State, rs: seq<Request>) {
    rs == [] || (
      && HeapKept(mode, s, rs[..|rs| - 1])
      && (rs[|rs| - 1].Cancel? ==> Ordered(Replay(mode, s, rs))))
  }

  lemma {:induction false} ReplayKeepsOrdered(mode: CancelMode, s: State, rs: seq<Request>)
    requires Ordered(s) && HeapKept(mode, s, rs)
    ensures Ordered(Replay(mode, s, rs))
  {
    if rs != [] {
      ReplayKeepsOrdered(mode, s, rs[..|rs| - 1]);
      var r := rs[|rs| - 1];
      if !r.Cancel? {
        AddLimitKeepsOrdered(Replay(mode, s, rs[..|rs| - 1]), r.id, r.side, LimitPrice(r), r.qty);
      }
    }
  }

  /** The heap engine refines the naive one over every run whose cancels keep heap order. */
  lemma {:induction false} ReplayMirrors(mode: CancelMode, s: State, n: Naive, rs: seq<Request>)
    requires Valid(s) && Ordered(s) && Mirrors(s, n) && FreshIds(mode, s, rs) && HeapKept(mode, s, rs)
    ensures Mirrors(Replay(mode, s, rs), NaiveReplay(n, rs))
  {
    if rs != [] {
      var prior := rs[..|rs| - 1];
      ReplayMirrors(mode, s, n, prior);
      ReplayKeepsValid(mode, s, prior);
      ReplayKeepsOrdered(mode, s, prior);
      RequestMirrors(mode, Replay(mode, s, prior), NaiveReplay(n, prior), rs[|rs| - 1]);
    }
  }

  predicate CancelFree(rs: seq<Request>) {
    forall i :: 0 <= i < |rs| ==> !rs[i].Cancel?
  }

  lemma {:induction false} CancelFreeKeepsHeap(mode: CancelMode, s: State, rs: seq<Request>)
    requires CancelFree(rs)
    ensures HeapKept(mode, s, rs)
  {
    if rs != [] {
      CancelFreeKeepsHeap(mode, s, rs[..|rs| - 1]);
    }
  }

  lemma {:induction false} RebuildIsHeap(book: seq<Order>)
    ensures IsHeap(Rebuild(book))
  {
    if book != [] {
      RebuildIsHeap(book[..|book| - 1]);
      PushKeepsHeap(Rebuild(book[..|book| - 1]), book[|book| - 1]);
    }
  }

  lemma {:induction false} ReheapedKeepsHeap(s: State, rs: seq<Request>)
    requires Ordered(s)
    ensures HeapKept(Reheaped, s, rs)
  {
    if rs != [] {
      var prior, r := rs[..|rs| - 1], rs[|rs| - 1];
      ReheapedKeepsHeap(s, prior);
      ReplayKeepsOrdered(Reheaped, s, prior);
      if r.Cancel? {
        RebuildIsHeap(Without(Replay(Reheaped, s, prior).buys, r.id));
        RebuildIsHeap(Without(Replay(Reheaped, s, prior).sells, r.id));
      }
    }
  }

  /** Every stream without cancels. */
  lemma CancelFreeRefinesNaive(mode: CancelMode, rs: seq<Request>)
    requires CancelFree(rs) && FreshIds(mode, INITIAL, rs)
    ensures Mirrors(Replay(mode, INITIAL, rs), NaiveReplay(NAIVE_INITIAL, rs))
  {
    CancelFreeKeepsHeap(mode, INITIAL, rs);
    InitialIsValid();
    assert Trades([]) == [];
    ReplayMirrors(mode, INITIAL, NAIVE_INITIAL, rs);
  }

  /** Every stream at all, when cancelling restores heap order. */
  lemma ReheapedRefinesNaive(rs: seq<Request>)
    requires FreshIds(Reheaped, INITIAL, rs)
    ensures Mirrors(Replay(Reheaped, INITIAL, rs), NaiveReplay(NAIVE_INITIAL, rs))
  {
    ReheapedKeepsHeap(INITIAL, rs);
    InitialIsValid();
    assert Trades([]) == [];
    ReplayMirrors(Reheaped, INITIAL, NAIVE_INITIAL, rs);
  }
}
