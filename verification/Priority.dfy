/** Price-time priority, read off the heap: what heap order buys in one call and over whole runs. */
module Priority {
  import opened Trading
  import opened Heapq
  import opened ReferenceEngine
  import opened EngineInvariants
  import opened NaiveEngine
  import opened Arrival
  import opened Conservation
  import opened Refinement

  /** The match after `k` passes. */
  function Passes(m: Matching, k: nat): Matching
    decreases k
  {
    if k == 0 || Stopped(m) then m else Passes(Step(m), k - 1)
  }

  /** `f` is a trade with the head of the book, which ranks first among all its orders, for as much as
      both can trade. */
  ghost predicate TakesFirst(at: Matching, f: Fill) {
    && at.book != [] && Between(f, at.incoming, at.book[0])
    && 0 < f.qty == Min(at.incoming.qty, at.book[0].qty)
    && forall o :: o in at.book && o != at.book[0] ==> Less(KeyOf(at.book[0]), KeyOf(o))
  }

  lemma RootRanksFirst(h: seq<Order>, o: Order)
    requires IsHeap(h) && DistinctTs(multiset(h)) && o in h && o != h[0]
    ensures Less(KeyOf(h[0]), KeyOf(o))
  {
    RootIsLeastOf(h, o);
    assert o in multiset(h) && h[0] in multiset(h);
    assert o.ts != h[0].ts;
  }

  lemma LiveBookIsDistinct(m: Matching, own: multiset<Order>, live: LiveMap)
    requires ValidMatching(m, own, live)
    ensures DistinctTs(multiset(m.book))
  {
    forall o | o in multiset(m.book)
      ensures multiset(m.book)[o] == 1 && IsLive(live, o)
    {
      assert AllLive(m, own)[o] >= multiset(m.book)[o];
    }
  }

  /** A pass that makes a fill makes exactly one, with the head of the book. */
  lemma FirstFill(m: Matching)
    requires !Stopped(m) && m.book[0].id in m.index
    ensures |Run(m).log| > |m.log| && |Step(m).log| == |m.log| + 1
    ensures Run(m).log[|m.log|] == FillOf(m.incoming, m.book[0], Min(m.incoming.qty, m.book[0].qty), m.clock + 1)
  {
    LogGrows(Step(m));
    assert Run(m).log[|m.log|] == Step(m).log[|m.log|];
  }

  /** The incoming order of the call, with what is left of it. */
  predicate SameTaker(m: Matching, at: Matching) {
    at.incoming == m.incoming.(qty := at.incoming.qty)
  }

  /** Where the k-th pass of a call stands: valid, heap-ordered and bound for the same end. */
  ghost predicate OnTheWay(m: Matching, at: Matching, own: multiset<Order>, live: LiveMap) {
    && ValidMatching(at, own, live)
    && IsHeap(at.book)
    && Run(at) == Run(m) && SameTaker(m, at)
  }

  lemma OnePass(m: Matching, at: Matching, own: multiset<Order>, live: LiveMap) returns (after: LiveMap)
    requires OnTheWay(m, at, own, live) && !Stopped(at)
    ensures OnTheWay(m, Step(at), own, after) && |Step(at).log| == |at.log| + 1
  {
    BestIsIndexed(at, own, live);
    after := StepKeepsValid(at, own, live);
    TakeBestKeepsHeap(at.book, Min(at.incoming.qty, at.book[0].qty));
  }

  lemma HeadRanksFirst(at: Matching, own: multiset<Order>, live: LiveMap, o: Order)
    requires ValidMatching(at, own, live) && IsHeap(at.book) && o in at.book && o != at.book[0]
    ensures Less(KeyOf(at.book[0]), KeyOf(o))
  {
    LiveBookIsDistinct(at, own, live);
    RootRanksFirst(at.book, o);
  }

  lemma HeadQuantity(at: Matching, own: multiset<Order>, live: LiveMap)
    requires ValidMatching(at, own, live) && at.book != []
    ensures at.book[0].qty > 0
  {
    assert at.book[0] in multiset(at.book);
  }

  /** The next fill is made with the first-ranked order of the book. */
  lemma NextTakesFirst(at: Matching, own: multiset<Order>, live: LiveMap)
    requires ValidMatching(at, own, live) && IsHeap(at.book) && !Stopped(at)
    ensures |at.log| < |Run(at).log| && TakesFirst(at, Run(at).log[|at.log|])
  {
    BestIsIndexed(at, own, live);
    HeadQuantity(at, own, live);
    FirstFill(at);
    forall o | o in at.book && o != at.book[0]
      ensures Less(KeyOf(at.book[0]), KeyOf(o))
    {
      HeadRanksFirst(at, own, live, o);
    }
  }

  lemma TakesFirstOnTheWay(m: Matching, at: Matching, own: multiset<Order>, live: LiveMap, f: Fill)
    requires OnTheWay(m, at, own, live) && !Stopped(at)
    requires |at.log| < |Run(m).log| && f == Run(m).log[|at.log|]
    ensures TakesFirst(at, f)
  {
    NextTakesFirst(at, own, live);
  }

  /** The match is still on its way, with a pass to come, as long as a fill is missing. */
  lemma {:induction false} StillOnTheWay(m: Matching, at: Matching, own: multiset<Order>, live: LiveMap, k: nat)
    returns (there: Matching, later: LiveMap)
    requires OnTheWay(m, at, own, live) && |at.log| + k < |Run(m).log|
    ensures there == Passes(at, k) && |there.log| == |at.log| + k && !Stopped(there)
    ensures OnTheWay(m, there, own, later)
    decreases k
  {
    there, later := at, live;
    if k > 0 {
      later := OnePass(m, at, own, live);
      there, later := StillOnTheWay(m, Step(at), own, later, k - 1);
    }
  }

  /** No trade-through: the k-th fill of a call is made with the first-ranked - best-priced, then
      oldest - of all opposite orders live at that instant. */
  lemma NoTradeThrough(m: Matching, own: multiset<Order>, live: LiveMap, k: nat)
    requires ValidMatching(m, own, live) && IsHeap(m.book)
    requires |m.log| + k < |Run(m).log|
    ensures SameTaker(m, Passes(m, k)) && TakesFirst(Passes(m, k), Run(m).log[|m.log| + k])
  {
    var there, later := StillOnTheWay(m, m, own, live, k);
    var f := Run(m).log[|m.log| + k];
    TakesFirstOnTheWay(m, there, own, later, f);
  }

  lemma SameSide(m: Matching, own: multiset<Order>, live: LiveMap, o: Order)
    requires ValidMatching(m, own, live) && o in m.book
    ensures o.side == m.incoming.side.Opposite() && m.book[0].side == m.incoming.side.Opposite()
  {
    assert o in multiset(m.book) && m.book[0] in multiset(m.book);
  }

  /** No later fill of the call is better priced than the head of the book. */
  lemma HeadIsBestPrice(m: Matching, own: multiset<Order>, live: LiveMap, j: nat)
    requires ValidMatching(m, own, live) && IsHeap(m.book)
    requires |m.log| <= j < |Run(m).log|
    ensures m.book != [] && !Better(m.incoming.side, Run(m).log[j].price, m.book[0].price)
  {
    FillsRespectLimits(m, j);
    var maker :| maker in m.book && Between(Run(m).log[j], m.incoming, maker);
    RootIsLeastOf(m.book, maker);
    SameSide(m, own, live, maker);
    CostIsBetter(m.incoming.side, maker.price, m.book[0].price);
  }

  /** From `start` on, no fill is better priced for the taker than an earlier one. */
  ghost predicate NoBetterLater(taker: Side, log: seq<Fill>, start: nat) {
    forall i, j :: start <= i < j < |log| ==> !Better(taker, log[j].price, log[i].price)
  }

  lemma NoBetterLaterStep(taker: Side, log: seq<Fill>, start: nat)
    requires NoBetterLater(taker, log, start + 1) && start < |log|
    requires forall j :: start < j < |log| ==> !Better(taker, log[j].price, log[start].price)
    ensures NoBetterLater(taker, log, start)
  {
  }

  lemma FirstIsNoWorse(m: Matching, own: multiset<Order>, live: LiveMap)
    requires ValidMatching(m, own, live) && IsHeap(m.book) && !Stopped(m)
    ensures |m.log| < |Run(m).log|
    ensures forall j :: |m.log| < j < |Run(m).log| ==>
              !Better(m.incoming.side, Run(m).log[j].price, Run(m).log[|m.log|].price)
  {
    BestIsIndexed(m, own, live);
    FirstFill(m);
    forall j | |m.log| < j < |Run(m).log|
      ensures !Better(m.incoming.side, Run(m).log[j].price, m.book[0].price)
    {
      HeadIsBestPrice(m, own, live, j);
    }
  }

  /** Within one call prices only get worse for the incoming order: they do not fall for a buy and
      do not rise for a sell. */
  lemma {:induction false} PricesDoNotImprove(m: Matching, own: multiset<Order>, live: LiveMap)
    requires ValidMatching(m, own, live) && IsHeap(m.book)
    ensures NoBetterLater(m.incoming.side, Run(m).log, |m.log|)
    decreases |m.book|, m.incoming.qty > 0
  {
    if !Stopped(m) {
      FirstIsNoWorse(m, own, live);
      var after := OnePass(m, m, own, live);
      PricesDoNotImprove(Step(m), own, after);
      NoBetterLaterStep(m.incoming.side, Run(m).log, |m.log|);
    }
  }

  /** A partially filled order keeps its place at the head of its book. */
  lemma PartialFillKeepsHead(h: seq<Order>, qty: int)
    requires IsHeap(h) && h != [] && DistinctTs(multiset(h)) && h[0].qty > qty
    ensures TakeBest(h, qty)[0] == Reduced(h[0], qty)
  {
    var r, left, rest := TakeBest(h, qty), Reduced(h[0], qty), Pop(h);
    TakeBestKeepsHeap(h, qty);
    assert left in multiset(r) && r[0] in multiset(r);
    RootIsLeastOf(r, left);
    assert r[0] == left || r[0] in multiset(rest);
    if r[0] in multiset(rest) {
      OthersRankLater(h, r[0]);
    }
  }

  /** What popping leaves ranks strictly after what it took. */
  lemma OthersRankLater(h: seq<Order>, o: Order)
    requires IsHeap(h) && h != [] && DistinctTs(multiset(h)) && o in multiset(Pop(h))
    ensures Less(KeyOf(h[0]), KeyOf(o))
  {
    assert h[0] in multiset(h) && o in multiset(h);
    assert multiset(h)[h[0]] == multiset(Pop(h))[h[0]] + 1;
    RootRanksFirst(h, o);
  }

  ghost predicate NoCross(taker: Side, limit: Price, book: seq<Order>) {
    forall o :: o in book ==> !Crosses(taker, limit, o.price)
  }

  /** Every resting buy is priced strictly below every resting sell. */
  ghost predicate Uncrossed(s: State) {
    forall b, o :: b in s.buys && o in s.sells ==> Below(b.price, o.price)
  }

  /** Whatever rests after a pass has a price that rested before it. */
  lemma TakeBestPrices(h: seq<Order>, qty: int, o: Order)
    requires h != [] && o in TakeBest(h, qty)
    ensures exists p :: p in h && p.price == o.price
  {
    assert o in multiset(TakeBest(h, qty));
    if o in multiset(Pop(h)) {
      assert o in multiset(h);
      assert o in h;
    } else {
      assert o == Reduced(h[0], qty);
      assert h[0] in h;
    }
  }

  lemma {:induction false} RunPrices(m: Matching, o: Order)
    requires o in Run(m).book
    ensures exists p :: p in m.book && p.price == o.price
    decreases |m.book|, m.incoming.qty > 0
  {
    if !Stopped(m) {
      RunPrices(Step(m), o);
      var p :| p in Step(m).book && p.price == o.price;
      if m.book[0].id in m.index {
        TakeBestPrices(m.book, Min(m.incoming.qty, m.book[0].qty), p);
      } else {
        assert p in multiset(Pop(m.book));
        assert p in multiset(m.book);
      }
    }
  }

  /** An order comes to rest only against a book that no longer crosses it. */
  lemma RestsUncrossed(m: Matching)
    requires IsHeap(m.book) && Sound(multiset(m.book), m.incoming.side.Opposite()) && Stopped(m) && m.incoming.qty > 0
    ensures NoCross(m.incoming.side, m.incoming.price, m.book)
  {
    forall o | o in m.book
      ensures !Crosses(m.incoming.side, m.incoming.price, o.price)
    {
      RootIsLeastOf(m.book, o);
      assert o in multiset(m.book) && m.book[0] in multiset(m.book);
      CrossingIsDownward(m.incoming.side, m.incoming.price, m.book[0].price, o.price);
    }
  }

  lemma CrossingIsDownward(taker: Side, limit: Price, best: Price, p: Price)
    requires !Below(Cost(taker.Opposite(), p), Cost(taker.Opposite(), best)) && !Crosses(taker, limit, best)
    ensures !Crosses(taker, limit, p)
  {
  }

  /** Settling keeps the books apart. */
  lemma SettleKeepsUncrossed(s: State, m: Matching)
    requires Uncrossed(s) && Stopped(m)
    requires forall o :: o in m.book ==> exists p :: p in Book(s, m.incoming.side.Opposite()) && p.price == o.price
    requires m.incoming.qty > 0 ==> NoCross(m.incoming.side, m.incoming.price, m.book)
    ensures Uncrossed(Settle(s, m))
  {
    var r, own := Settle(s, m), Book(s, m.incoming.side);
    SettleBooks(s, m);
    forall o, q | o in m.book && q in Book(r, m.incoming.side)
      ensures if q.price == m.incoming.price && m.incoming.qty > 0 && q !in own
              then !Crosses(m.incoming.side, q.price, o.price)
              else exists p :: p in Book(s, m.incoming.side.Opposite()) && p.price == o.price && q in own
    {
      if m.incoming.qty > 0 {
        assert q in multiset(Push(own, m.incoming));
        assert q == m.incoming || q in multiset(own);
      }
    }
  }

  lemma AddLimitKeepsUncrossed(s: State, id: string, side: Side, price: Price, qty: int)
    requires Valid(s) && Ordered(s) && Uncrossed(s) && id !in s.index
    ensures Uncrossed(AddLimit(s, id, side, price, qty))
  {
    var start, own := Arrive(s, id, side, price, qty), multiset(Book(s, side));
    var m := Run(start);
    var live := ArriveIsValid(s, id, side, price, qty);
    live := RunKeepsValid(start, own, live);
    RunKeepsTaker(start);
    RunKeepsHeap(start);
    forall o | o in m.book
      ensures exists p :: p in start.book && p.price == o.price
    {
      RunPrices(start, o);
    }
    if m.incoming.qty > 0 {
      RestsUncrossed(m);
    }
    SettleKeepsUncrossed(s, m);
  }

  lemma CancelKeepsUncrossed(mode: CancelMode, s: State, id: string)
    requires Uncrossed(s)
    ensures Uncrossed(CancelOrder(mode, s, id))
  {
    FilteredWithin(mode, s.buys, id);
    FilteredWithin(mode, s.sells, id);
  }

  lemma FilteredWithin(mode: CancelMode, book: seq<Order>, id: string)
    ensures forall o :: o in Filtered(mode, book, id) ==> o in book
  {
    FilteredElements(mode, book, id);
    forall o | o in Filtered(mode, book, id)
      ensures o in book
    {
      assert o in multiset(Filtered(mode, book, id));
      assert o in multiset(book);
    }
  }

  /** The book is never crossed in a run whose cancels keep heap order. */
  lemma {:induction false} ReplayKeepsUncrossed(mode: CancelMode, rs: seq<Request>)
    requires FreshIds(mode, INITIAL, rs) && HeapKept(mode, INITIAL, rs)
    ensures Uncrossed(Replay(mode, INITIAL, rs))
  {
    if rs != [] {
      var prior, r := rs[..|rs| - 1], rs[|rs| - 1];
      ReplayKeepsUncrossed(mode, prior);
      InitialIsValid();
      ReplayKeepsValid(mode, INITIAL, prior);
      ReplayKeepsOrdered(mode, INITIAL, prior);
      if r.Cancel? {
        CancelKeepsUncrossed(mode, Replay(mode, INITIAL, prior), r.id);
      } else {
        AddLimitKeepsUncrossed(Replay(mode, INITIAL, prior), r.id, r.side, LimitPrice(r), r.qty);
      }
    }
  }

  predicate NonNegative(p: Price) {
    p == PosInf || (p.Fin? && p.value >= 0.0)
  }

  lemma HasMember(book: seq<Order>)
    ensures book == [] || exists o :: o in book
  {
    if book != [] {
      assert book[0] in book;
    }
  }

  /** While the remainder of a market order rests, the opposite book is empty. */
  lemma MarketRemainderFacesEmptyBook(mode: CancelMode, rs: seq<Request>, o: Order)
    requires FreshIds(mode, INITIAL, rs) && HeapKept(mode, INITIAL, rs)
    requires var s := Replay(mode, INITIAL, rs);
             && o in Book(s, o.side) && o.price == MarketPrice(o.side)
             && forall p :: p in Book(s, o.side.Opposite()) ==> NonNegative(p.price)
    ensures Book(Replay(mode, INITIAL, rs), o.side.Opposite()) == []
  {
    var other := Book(Replay(mode, INITIAL, rs), o.side.Opposite());
    ReplayKeepsUncrossed(mode, rs);
    HasMember(other);
  }

  /** The fills a request returns: each with the first-ranked of the opposite orders then live, and
      none better priced than one before it. */
  ghost predicate ServedInOrder(m: Matching) {
    && NoBetterLater(m.incoming.side, Run(m).log, 0)
    && forall k :: 0 <= k < |Run(m).log| ==> SameTaker(m, Passes(m, k)) && TakesFirst(Passes(m, k), Run(m).log[k])
  }

  lemma ServesInOrder(m: Matching, own: multiset<Order>, live: LiveMap)
    requires ValidMatching(m, own, live) && IsHeap(m.book) && m.log == []
    ensures ServedInOrder(m)
  {
    PricesDoNotImprove(m, own, live);
    forall k | 0 <= k < |Run(m).log|
      ensures SameTaker(m, Passes(m, k)) && TakesFirst(Passes(m, k), Run(m).log[k])
    {
      NoTradeThrough(m, own, live, k);
    }
  }

  /** Every order of every run whose cancels keep heap order is served that way. */
  lemma RunsServeInOrder(mode: CancelMode, rs: seq<Request>, r: Request)
    requires FreshIds(mode, INITIAL, rs) && HeapKept(mode, INITIAL, rs)
    requires !r.Cancel? && r.id !in Replay(mode, INITIAL, rs).index
    ensures ServedInOrder(Arrive(Replay(mode, INITIAL, rs), r.id, r.side, LimitPrice(r), r.qty))
  {
    InitialIsValid();
    ReplayKeepsValid(mode, INITIAL, rs);
    ReplayKeepsOrdered(mode, INITIAL, rs);
    ServedOn(Replay(mode, INITIAL, rs), r);
  }

  lemma ServedOn(s: State, r: Request)
    requires Valid(s) && Ordered(s) && !r.Cancel? && r.id !in s.index
    ensures ServedInOrder(Arrive(s, r.id, r.side, LimitPrice(r), r.qty))
  {
    var live := ArriveIsValid(s, r.id, r.side, LimitPrice(r), r.qty);
    ServesInOrder(Arrive(s, r.id, r.side, LimitPrice(r), r.qty), multiset(Book(s, r.side)), live);
  }
}
