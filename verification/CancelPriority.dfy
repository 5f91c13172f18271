/** Cancelling filters the heap lists and does not restore heap order. This file says exactly what
    that costs: the engine serves the best order first in every continuation if and only if the
    lists it was left with are heaps. */
module CancelPriority {
  import opened Trading
  import opened Heapq
  import opened Inversion
  import opened ReferenceEngine
  import opened EngineInvariants
  import opened NaiveEngine
  import opened Arrival
  import opened Refinement
  import opened Priority

  /** The naive engine holding what `s` holds. */
  function NaiveOf(s: State): Naive {
    Naive(Quotes(ByArrival(s.buys)), Quotes(ByArrival(s.sells)), Trades(s.fills))
  }

  /** However the stream goes on, the fills are those of the naive engine. */
  ghost predicate ServesBestFirst(s: State) {
    forall rs :: CancelFree(rs) && FreshIds(AsWritten, s, rs) ==>
      Trades(Replay(AsWritten, s, rs).fills) == NaiveReplay(NaiveOf(s), rs).trades
  }

  /** A continuation on which the two engines part. */
  ghost predicate Parts(s: State, n: Naive, rs: seq<Request>) {
    && CancelFree(rs)
    && FreshIds(AsWritten, s, rs)
    && Trades(Replay(AsWritten, s, rs).fills) != NaiveReplay(n, rs).trades
  }

  lemma {:induction false} ReplayFromFront(s: State, r: Request, rs: seq<Request>)
    ensures Replay(AsWritten, s, [r] + rs) == Replay(AsWritten, Apply(AsWritten, s, r), rs)
    ensures FreshIds(AsWritten, s, [r] + rs)
       <==> (!r.Cancel? ==> r.id !in s.index) && FreshIds(AsWritten, Apply(AsWritten, s, r), rs)
  {
    var all := [r] + rs;
    if rs == [] {
      assert all[..0] == [];
      assert Replay(AsWritten, s, all[..0]) == s;
    } else {
      assert all[..|all| - 1] == [r] + rs[..|rs| - 1];
      ReplayFromFront(s, r, rs[..|rs| - 1]);
    }
  }

  lemma {:induction false} NaiveReplayFromFront(n: Naive, r: Request, rs: seq<Request>)
    ensures NaiveReplay(n, [r] + rs) == NaiveReplay(NaiveApply(n, r), rs)
  {
    var all := [r] + rs;
    if rs == [] {
      assert all[..0] == [];
      assert NaiveReplay(n, all[..0]) == n;
    } else {
      assert all[..|all| - 1] == [r] + rs[..|rs| - 1];
      NaiveReplayFromFront(n, r, rs[..|rs| - 1]);
    }
  }

  /** Parting later is parting. */
  lemma PartsFromFront(s: State, n: Naive, r: Request, rs: seq<Request>)
    requires !r.Cancel? && r.id !in s.index
    requires Parts(Apply(AsWritten, s, r), NaiveApply(n, r), rs)
    ensures Parts(s, n, [r] + rs)
  {
    ReplayFromFront(s, r, rs);
    NaiveReplayFromFront(n, r, rs);
  }

  lemma {:induction false} LongerThanAll(keys: set<string>) returns (n: nat)
    ensures forall k :: k in keys ==> |k| < n
  {
    n := 0;
    if keys != {} {
      var k :| k in keys;
      var m := LongerThanAll(keys - {k});
      n := if |k| < m then m else |k| + 1;
    }
  }

  lemma SomeFreshId(index: map<string, nat>) returns (id: string)
    ensures id !in index
  {
    var n := LongerThanAll(index.Keys);
    id := seq(n, _ => 'x');
  }

  /** The price of side `side` that ranks last when no buy rests below `low`; for the other side it is
      the most generous one. */
  function LastPrice(side: Side, low: Price): Price {
    if side == Buy then low else PosInf
  }

  /** No buy of the book rests below `low`. */
  ghost predicate Floored(book: seq<Order>, side: Side, low: Price) {
    side == Buy ==> forall o :: o in book ==> !Below(o.price, low)
  }

  /** Limits at the two end prices only. */
  predicate AtEnds(rs: seq<Request>, low: Price) {
    forall i :: 0 <= i < |rs| ==> rs[i].Limit? && (rs[i].price == low || rs[i].price == PosInf)
  }

  lemma AtEndsFromFront(r: Request, rs: seq<Request>, low: Price)
    requires AtEnds(rs, low) && r.Limit? && (r.price == low || r.price == PosInf)
    ensures AtEnds([r] + rs, low)
  {
  }

  /** What an order at that price ranks by. */
  function LastCost(side: Side, low: Price): Price {
    Cost(side, LastPrice(side, low))
  }

  ghost predicate Faces(s: State, side: Side, low: Price) {
    NoCross(side, LastPrice(side, low), Book(s, side.Opposite()))
  }

  function Filler(side: Side, id: string, low: Price): Request {
    Limit(id, side, LastPrice(side, low), 1)
  }

  lemma QuietStops(s: State, side: Side, id: string, low: Price)
    requires Faces(s, side, low)
    ensures Stopped(Arrive(s, id, side, LastPrice(side, low), 1))
  {
    var book := Book(s, side.Opposite());
    assert book != [] ==> book[0] in book;
  }

  /** An order that crosses nothing just rests. */
  lemma QuietArrival(s: State, side: Side, id: string, low: Price)
    requires Faces(s, side, low)
    ensures var o := Order(id, side, LastPrice(side, low), 1, s.clock + 1);
            var t := Apply(AsWritten, s, Filler(side, id, low));
            && t == Settle(s, Arrive(s, id, side, LastPrice(side, low), 1))
            && Book(t, side) == Push(Book(s, side), o)
            && Book(t, side.Opposite()) == Book(s, side.Opposite())
            && t.clock == s.clock + 1
  {
    QuietStops(s, side, id, low);
    SettleBooks(s, Arrive(s, id, side, LastPrice(side, low), 1));
  }

  lemma QuietOpen(s: State, n: Naive, side: Side, id: string, low: Price)
    requires Valid(s) && Mirrors(s, n) && Faces(s, side, low)
    ensures var w := Open(n, Filler(side, id, low));
            && Finished(w) && NaiveApply(n, Filler(side, id, low)) == Close(n, w)
            && Reads(Book(s, side.Opposite()), ByArrival(Book(s, side.Opposite())))
            && w.book == Quotes(ByArrival(Book(s, side.Opposite())))
  {
    ValidBookReads(s, side.Opposite());
    QuietSweep(Book(s, side.Opposite()), Open(n, Filler(side, id, low)));
  }

  lemma QuietMirrors(s: State, n: Naive, side: Side, id: string, low: Price)
    requires Valid(s) && Mirrors(s, n) && Faces(s, side, low)
    ensures Mirrors(Apply(AsWritten, s, Filler(side, id, low)), NaiveApply(n, Filler(side, id, low)))
  {
    var start := Arrive(s, id, side, LastPrice(side, low), 1);
    QuietArrival(s, side, id, low);
    QuietOpen(s, n, side, id, low);
    RestingMirrors(s, start.incoming);
    QuietSettle(s, n, start, Open(n, Filler(side, id, low)));
  }

  lemma QuietSettle(s: State, n: Naive, m: Matching, w: Sweep)
    requires Mirrors(s, n) && Reads(m.book, ByArrival(m.book)) && m.log == []
    requires w == Sweep(m.incoming.side, QuoteOf(m.incoming), Quotes(ByArrival(m.book)), [])
    requires var own := Book(s, m.incoming.side);
             Quotes(ByArrival(Push(own, m.incoming))) == Quotes(ByArrival(own)) + [QuoteOf(m.incoming)]
    ensures Mirrors(Settle(s, m), Close(n, w))
  {
    assert Trades([]) == [];
    SettleMirrors(s, n, m, w, ByArrival(m.book));
  }

  lemma QuietSweep(h: seq<Order>, w: Sweep)
    requires w.book == Quotes(ByArrival(h)) && NoCross(w.taker, w.quote.price, h)
    ensures Finished(w)
  {
    if w.book != [] {
      var i := BestIndex(w.taker, w.book);
      assert ByArrival(h)[i] in multiset(h);
      assert ByArrival(h)[i] in h;
    }
  }

  /** An order ranking after everything goes to the end of the list. */
  lemma LastIsAppended(h: seq<Order>, o: Order)
    requires forall p :: p in h ==> Less(KeyOf(p), KeyOf(o))
    ensures Push(h, o) == h + [o]
  {
    if |h| > 0 {
      assert h[Parent(|h|)] in h;
    }
  }

  ghost predicate InStep(s: State, n: Naive, side: Side, low: Price) {
    Valid(s) && Mirrors(s, n) && Faces(s, side, low) && Floored(Book(s, side), side, low)
  }

  /** `g` is `h` with `k` fillers behind it. */
  ghost predicate Filled(h: seq<Order>, g: seq<Order>, k: nat, mark: Key) {
    |g| == |h| + k && h <= g && FillersFrom(g, |h|, mark)
  }

  lemma FillOne(s: State, n: Naive, side: Side, id: string, low: Price) returns (t: State, w: Naive)
    requires InStep(s, n, side, low) && id !in s.index
    ensures t == Apply(AsWritten, s, Filler(side, id, low)) && w == NaiveApply(n, Filler(side, id, low))
    ensures InStep(t, w, side, low) && t.clock == s.clock + 1
    ensures Book(t, side) == Book(s, side) + [Order(id, side, LastPrice(side, low), 1, s.clock + 1)]
  {
    t, w := Apply(AsWritten, s, Filler(side, id, low)), NaiveApply(n, Filler(side, id, low));
    AddLimitKeepsValid(s, id, side, LastPrice(side, low), 1);
    QuietMirrors(s, n, side, id, low);
    QuietArrival(s, side, id, low);
    RanksLast(s, side, id, low);
  }

  lemma FilledOnce(h: seq<Order>, g: seq<Order>, k: nat, mark: Key, o: Order)
    requires Filled(h, g, k, mark) && !Small(o, mark)
    ensures Filled(h, g + [o], k + 1, mark)
  {
  }

  lemma BookIsOneSided(s: State, side: Side)
    requires Valid(s)
    ensures forall o :: o in Book(s, side) ==> o.side == side
  {
    var live :| ValidWith(s, live);
    forall o | o in Book(s, side)
      ensures o.side == side
    {
      assert o in multiset(Book(s, side));
    }
  }

  lemma LastPriceRanksLast(p: Order, o: Order, low: Price)
    requires p.side == o.side && o.price == LastPrice(o.side, low) && p.ts < o.ts
    requires o.side == Buy ==> !Below(p.price, low)
    ensures Less(KeyOf(p), KeyOf(o))
  {
  }

  lemma RanksLast(s: State, side: Side, id: string, low: Price)
    requires Valid(s) && Floored(Book(s, side), side, low)
    ensures var o := Order(id, side, LastPrice(side, low), 1, s.clock + 1);
            Push(Book(s, side), o) == Book(s, side) + [o]
  {
    var h, o := Book(s, side), Order(id, side, LastPrice(side, low), 1, s.clock + 1);
    ValidBookIsDistinct(s, side);
    BookIsOneSided(s, side);
    forall p | p in h
      ensures Less(KeyOf(p), KeyOf(o))
    {
      assert p in multiset(h);
      LastPriceRanksLast(p, o, low);
    }
    LastIsAppended(h, o);
  }

  /** A better element below a worse one, both small, with enough fillers behind them to drain the
      small elements (all of which are in `small`) and still have a filler at the end of the list. */
  ghost predicate Inverted(g: seq<Order>, a: nat, b: nat, cut: nat, mark: Key, small: set<Order>) {
    && a < |g| && b < |g| && Above(a, b)
    && Small(g[a], mark) && Small(g[b], mark) && Less(KeyOf(g[b]), KeyOf(g[a]))
    && FillersFrom(g, cut, mark)
    && |g| >= cut + |small|
    && forall o :: o in g && Small(o, mark) ==> o in small
  }

  lemma PopKeepsInverted(g: seq<Order>, a: nat, b: nat, cut: nat, mark: Key, small: set<Order>)
    returns (a': nat, b': nat)
    requires Inverted(g, a, b, cut, mark, small) && DistinctTs(multiset(g))
    requires a > 0 && Small(g[0], mark)
    ensures Inverted(Pop(g), a', b', cut, mark, small - {g[0]})
  {
    assert g[a] in g && g[b] in g && g[0] in g;
    assert |small| > 0;
    a', b' := PopKeepsInversion(g, a, b, cut, mark);
    forall o | o in Pop(g) && Small(o, mark)
      ensures o in small - {g[0]}
    {
      assert o in multiset(Pop(g)) && g[0] in multiset(g);
      assert o in multiset(g);
      assert multiset(g)[g[0]] == multiset(Pop(g))[g[0]] + 1;
    }
  }

  /** Whether the head of the list is what the naive engine would trade with next. */
  ghost predicate HeadIsBest(g: seq<Order>, taker: Side)
    requires g != []
  {
    ByArrival(g)[BestIndex(taker, Quotes(ByArrival(g)))] == g[0]
  }

  lemma BestQuoteRanksFirst(l: seq<Order>, taker: Side, i: nat, j: nat)
    requires i < |l| && j < |l| && Older(l) && l[i].side == l[j].side == taker.Opposite()
    requires !Better(taker, l[j].price, l[i].price) && (j < i ==> Better(taker, l[i].price, l[j].price))
    ensures !Less(KeyOf(l[j]), KeyOf(l[i]))
  {
    CostIsBetter(taker, l[j].price, l[i].price);
    CostIsBetter(taker, l[i].price, l[j].price);
  }

  lemma BestIndexIsFirst(l: seq<Order>, taker: Side, j: nat)
    requires j < |l|
    ensures var i := BestIndex(taker, Quotes(l));
            !Better(taker, l[j].price, l[i].price) && (j < i ==> Better(taker, l[i].price, l[j].price))
  {
    var q := Quotes(l);
    assert q[BestIndex(taker, q)].price == l[BestIndex(taker, q)].price && q[j].price == l[j].price;
  }

  /** If the head is the best order it ranks no worse than any other. */
  lemma BestHeadRanksFirst(g: seq<Order>, taker: Side, y: Order)
    requires g != [] && DistinctTs(multiset(g)) && y in g && (forall o :: o in g ==> o.side == taker.Opposite())
    requires HeadIsBest(g, taker)
    ensures !Less(KeyOf(y), KeyOf(g[0]))
  {
    var l := ByArrival(g);
    ByArrivalIsOlder(g);
    assert y in multiset(l) && g[0] in g;
    var j :| 0 <= j < |l| && l[j] == y;
    BestIndexIsFirst(l, taker, j);
    BestQuoteRanksFirst(l, taker, BestIndex(taker, Quotes(l)), j);
  }

  /** A request for exactly the head of a book, at a price every order meets. */
  function HeadTaker(s: State, side: Side, id: string, low: Price): Request
    requires Book(s, side) != []
  {
    Limit(id, side.Opposite(), LastPrice(side, low), Book(s, side)[0].qty)
  }

  lemma LastPriceTakesAll(side: Side, p: Price, low: Price)
    requires side == Buy ==> !Below(p, low)
    ensures Crosses(side.Opposite(), LastPrice(side, low), p)
  {
  }

  /** An order for exactly the head of the book is used up by it. */
  lemma ExactTake(m: Matching)
    requires !Stopped(m) && m.book[0].id in m.index && m.incoming.qty == m.book[0].qty && m.log == []
    ensures Run(m) == Step(m) && Step(m).incoming == m.incoming.(qty := 0) && Step(m).book == Pop(m.book)
    ensures Step(m).log == [FillOf(m.incoming, m.book[0], m.book[0].qty, m.clock + 1)]
  {
  }

  lemma HeadTakerRuns(s: State, side: Side, id: string, low: Price)
    requires Valid(s) && Book(s, side) != [] && Floored(Book(s, side), side, low) && id !in s.index
    ensures var start := Arrive(s, id, side.Opposite(), LastPrice(side, low), Book(s, side)[0].qty);
            !Stopped(start) && start.book[0].id in start.index
  {
    var start := Arrive(s, id, side.Opposite(), LastPrice(side, low), Book(s, side)[0].qty);
    var live := ArriveIsValid(s, id, side.Opposite(), LastPrice(side, low), Book(s, side)[0].qty);
    BestIsIndexed(start, multiset(Book(s, side.Opposite())), live);
    LastPriceTakesAll(side, start.book[0].price, low);
  }

  /** Every quote of the book can be reached at the end price. */
  lemma EndPriceReaches(g: seq<Order>, side: Side, i: nat, low: Price)
    requires Floored(g, side, low) && i < |ByArrival(g)|
    ensures Crosses(side.Opposite(), LastPrice(side, low), Quotes(ByArrival(g))[i].price)
  {
    var a := ByArrival(g);
    assert a[i] in multiset(g);
    assert a[i] in g;
    LastPriceTakesAll(side, a[i].price, low);
  }

  lemma HeadTakerOpens(s: State, n: Naive, side: Side, id: string, low: Price)
    requires Valid(s) && Mirrors(s, n) && Book(s, side) != [] && Floored(Book(s, side), side, low)
    ensures var g, w := Book(s, side), Open(n, HeadTaker(s, side, id, low));
            && Reads(g, ByArrival(g)) && w.book == Quotes(ByArrival(g)) && w.book != []
            && (HeadHasQuantity(g) ==> !Finished(w))
  {
    var g, w := Book(s, side), Open(n, HeadTaker(s, side, id, low));
    ValidBookReads(s, side);
    assert g[0] in multiset(ByArrival(g));
    EndPriceReaches(g, side, BestIndex(w.taker, w.book), low);
  }

  predicate HeadHasQuantity(g: seq<Order>) {
    g != [] && g[0].qty > 0
  }

  /** What the reference engine makes of it. */
  lemma HeadTakerMatch(s: State, side: Side, id: string, low: Price) returns (m: Matching)
    requires Valid(s) && Book(s, side) != [] && Floored(Book(s, side), side, low) && id !in s.index
    ensures var g := Book(s, side);
            && m == Run(Arrive(s, id, side.Opposite(), LastPrice(side, low), g[0].qty)) && m.book == Pop(g)
            && m.incoming == Order(id, side.Opposite(), LastPrice(side, low), 0, s.clock + 1)
            && m.log == [FillOf(m.incoming, g[0], g[0].qty, s.clock + 2)]
  {
    var start := Arrive(s, id, side.Opposite(), LastPrice(side, low), Book(s, side)[0].qty);
    HeadTakerRuns(s, side, id, low);
    ExactTake(start);
    m := Step(start);
  }

  lemma HeadTakerState(s: State, side: Side, id: string, low: Price) returns (m: Matching)
    requires Valid(s) && Book(s, side) != [] && Floored(Book(s, side), side, low) && id !in s.index
    ensures var g, t := Book(s, side), Apply(AsWritten, s, HeadTaker(s, side, id, low));
            && t == Settle(s, m) && m.book == Pop(g) && Book(t, side) == Pop(g)
            && m.incoming == Order(id, side.Opposite(), LastPrice(side, low), 0, s.clock + 1)
            && m.log == [FillOf(m.incoming, g[0], g[0].qty, s.clock + 2)]
            && t.fills == s.fills + m.log
  {
    m := HeadTakerMatch(s, side, id, low);
    SettleBooks(s, m);
  }

  lemma PopReads(g: seq<Order>, a: seq<Order>, i: nat)
    requires Reads(g, a) && g != [] && i < |a| && a[i] == g[0]
    ensures Reads(Pop(g), TakeAtOrder(a, i, g[0].qty))
  {
    TakeReads(g, a, i, g[0].qty);
  }

  /** What the naive engine makes of it when it picks the same order. */
  lemma HeadTakerSweep(w: Sweep, a: seq<Order>, head: Order)
    requires w.book == Quotes(a) && !Finished(w) && w.quote.qty == head.qty && w.log == []
    requires a[BestIndex(w.taker, w.book)] == head
    ensures var i := BestIndex(w.taker, w.book);
            RunSweep(w) == Sweep(w.taker, Lessened(w.quote, head.qty), Quotes(TakeAtOrder(a, i, head.qty)),
                                 [TradeWith(w.taker, w.quote, QuoteOf(head), head.qty)])
  {
    QuotesOfTake(a, BestIndex(w.taker, w.book), head.qty);
    assert RunSweep(w) == Pass(w);
  }

  lemma HeadTakerBridge(s: State, n: Naive, m: Matching, w: Sweep, a: seq<Order>)
    requires Valid(s) && Mirrors(s, n) && Reads(m.book, a) && m.incoming.ts > s.clock
    requires w == Sweep(m.incoming.side, QuoteOf(m.incoming), Quotes(a), Trades(m.log))
    ensures Mirrors(Settle(s, m), Close(n, w))
  {
    RestingMirrors(s, m.incoming);
    SettleMirrors(s, n, m, w, a);
  }

  lemma TradeOfHead(m: Matching, w: Sweep, head: Order)
    requires m.log == [FillOf(m.incoming, head, head.qty, m.incoming.ts + 1)]
    requires w.taker == m.incoming.side && w.quote.id == m.incoming.id
    ensures Trades(m.log) == [TradeWith(w.taker, w.quote, QuoteOf(head), head.qty)]
  {
  }

  /** A sweep that is to take the head of `g`, read in order of arrival as `l`. */
  lemma SweepTakesHead(w: Sweep, g: seq<Order>, l: seq<Order>) returns (a: seq<Order>)
    requires g != [] && Reads(g, l) && w.book == Quotes(l) && !Finished(w) && w.quote.qty == g[0].qty && w.log == []
    requires l[BestIndex(w.taker, w.book)] == g[0]
    ensures Reads(Pop(g), a)
    ensures RunSweep(w) == Sweep(w.taker, Lessened(w.quote, g[0].qty), Quotes(a),
                                 [TradeWith(w.taker, w.quote, QuoteOf(g[0]), g[0].qty)])
  {
    var i := BestIndex(w.taker, w.book);
    HeadTakerSweep(w, l, g[0]);
    PopReads(g, l, i);
    a := TakeAtOrder(l, i, g[0].qty);
  }

  /** The naive engine takes the head of the list when that is the best order. */
  lemma NaiveTakesHead(s: State, n: Naive, side: Side, id: string, low: Price) returns (a: seq<Order>)
    requires Floored(Book(s, side), side, low)
    requires Valid(s) && Mirrors(s, n) && HeadHasQuantity(Book(s, side))
    requires HeadIsBest(Book(s, side), side.Opposite())
    ensures var g, w := Book(s, side), Open(n, HeadTaker(s, side, id, low));
            && Reads(Pop(g), a)
            && RunSweep(w) == Sweep(w.taker, Lessened(w.quote, g[0].qty), Quotes(a),
                                    [TradeWith(w.taker, w.quote, QuoteOf(g[0]), g[0].qty)])
  {
    HeadTakerOpens(s, n, side, id, low);
    a := SweepTakesHead(Open(n, HeadTaker(s, side, id, low)), Book(s, side), ByArrival(Book(s, side)));
  }

  /** When both engines take the head, they stay in step. */
  lemma HeadTakerMirrors(s: State, n: Naive, side: Side, id: string, low: Price)
    requires Floored(Book(s, side), side, low)
    requires Valid(s) && Mirrors(s, n) && HeadHasQuantity(Book(s, side)) && id !in s.index
    requires HeadIsBest(Book(s, side), side.Opposite())
    ensures var r := HeadTaker(s, side, id, low);
            Mirrors(Apply(AsWritten, s, r), NaiveApply(n, r))
  {
    var m := HeadTakerState(s, side, id, low);
    var a := NaiveTakesHead(s, n, side, id, low);
    var w := Open(n, HeadTaker(s, side, id, low));
    TradeOfHead(m, w, Book(s, side)[0]);
    HeadTakerBridge(s, n, m, RunSweep(w), a);
  }

  lemma AppendsDiffer(common: seq<Trade>, a: seq<Trade>, b: seq<Trade>)
    requires a != [] && b != [] && a[0] != b[0]
    ensures common + a != common + b
  {
    assert (common + a)[|common|] != (common + b)[|common|];
  }

  lemma PartsNow(s: State, n: Naive, r: Request)
    requires !r.Cancel? && r.id !in s.index && Trades(Apply(AsWritten, s, r).fills) != NaiveApply(n, r).trades
    ensures Parts(s, n, [r])
  {
    ReplayFromFront(s, r, []);
    NaiveReplayFromFront(n, r, []);
    assert [r] + [] == [r];
  }

  lemma PartsBy(s: State, n: Naive, r: Request, t: Trade, log: seq<Trade>)
    requires !r.Cancel? && r.id !in s.index && n.trades == Trades(s.fills) && log != [] && log[0] != t
    requires Trades(Apply(AsWritten, s, r).fills) == Trades(s.fills) + [t] && NaiveApply(n, r).trades == n.trades + log
    ensures Parts(s, n, [r])
  {
    AppendsDiffer(n.trades, [t], log);
    PartsNow(s, n, r);
  }

  function MakerId(t: Trade, side: Side): string {
    if side == Buy then t.buyId else t.sellId
  }

  /** The naive engine's first trade is with another order than the head. */
  lemma NaiveTakesOther(s: State, n: Naive, side: Side, id: string, low: Price) returns (log: seq<Trade>)
    requires Floored(Book(s, side), side, low)
    requires Valid(s) && Mirrors(s, n) && HeadHasQuantity(Book(s, side))
    requires !HeadIsBest(Book(s, side), side.Opposite())
    ensures NaiveApply(n, HeadTaker(s, side, id, low)).trades == n.trades + log
    ensures log != [] && MakerId(log[0], side) != Book(s, side)[0].id
  {
    var g, w := Book(s, side), Open(n, HeadTaker(s, side, id, low));
    HeadTakerOpens(s, n, side, id, low);
    FirstTrade(w);
    DifferentIds(s, side, ByArrival(g)[BestIndex(w.taker, w.book)]);
    CloseBooks(n, RunSweep(w));
    log := RunSweep(w).log;
  }

  /** The reference engine's is with the head. */
  lemma ReferenceTakesHeadOf(s: State, side: Side, id: string, low: Price) returns (t: Trade)
    requires Valid(s) && Book(s, side) != [] && Floored(Book(s, side), side, low) && id !in s.index
    ensures Trades(Apply(AsWritten, s, HeadTaker(s, side, id, low)).fills) == Trades(s.fills) + [t]
    ensures MakerId(t, side) == Book(s, side)[0].id
  {
    var m := HeadTakerState(s, side, id, low);
    TradesOfAppend(s.fills, m.log[0]);
    t := TradeOf(m.log[0]);
  }

  /** When the head is not the best order, taking it is a trade the naive engine does not make. */
  lemma HeadTakerParts(s: State, n: Naive, side: Side, id: string, low: Price)
    requires Floored(Book(s, side), side, low)
    requires Valid(s) && Mirrors(s, n) && HeadHasQuantity(Book(s, side)) && id !in s.index
    requires !HeadIsBest(Book(s, side), side.Opposite())
    ensures Parts(s, n, [HeadTaker(s, side, id, low)])
  {
    var t := ReferenceTakesHeadOf(s, side, id, low);
    var log := NaiveTakesOther(s, n, side, id, low);
    PartsBy(s, n, HeadTaker(s, side, id, low), t, log);
  }

  lemma DifferentIds(s: State, side: Side, o: Order)
    requires Valid(s) && Book(s, side) != [] && o in multiset(Book(s, side)) && o != Book(s, side)[0]
    ensures o.id != Book(s, side)[0].id
  {
    var live :| ValidWith(s, live);
    var g := Book(s, side);
    assert g[0] in multiset(g);
    assert Both(s)[o] > 0 && Both(s)[g[0]] > 0;
  }

  lemma HeadIsSound(s: State, side: Side)
    requires Valid(s) && Book(s, side) != []
    ensures HeadHasQuantity(Book(s, side)) && DistinctTs(multiset(Book(s, side)))
    ensures forall o :: o in Book(s, side) ==> o.side == side
  {
    var live :| ValidWith(s, live);
    var g := Book(s, side);
    assert g[0] in multiset(g);
    ValidBookIsDistinct(s, side);
    forall o | o in g
      ensures o.side == side
    {
      assert o in multiset(g);
    }
  }

  ghost predicate Draining(s: State, n: Naive, side: Side, a: nat, b: nat, cut: nat, mark: Key, small: set<Order>,
                           low: Price) {
    Floored(Book(s, side), side, low) && Valid(s) && Mirrors(s, n) && Inverted(Book(s, side), a, b, cut, mark, small)
  }

  lemma DrainList(g: seq<Order>, side: Side, a: nat, b: nat, cut: nat, mark: Key, small: set<Order>)
    returns (a': nat, b': nat)
    requires Inverted(g, a, b, cut, mark, small) && DistinctTs(multiset(g)) && forall o :: o in g ==> o.side == side
    requires HeadIsBest(g, side.Opposite())
    ensures g[0] in small && Inverted(Pop(g), a', b', cut, mark, small - {g[0]})
  {
    BestHeadRanksFirst(g, side.Opposite(), g[b]);
    assert g[0] in g;
    a', b' := PopKeepsInverted(g, a, b, cut, mark, small);
  }

  lemma PopKeepsFloor(g: seq<Order>, side: Side, low: Price)
    requires g != [] && Floored(g, side, low)
    ensures Floored(Pop(g), side, low)
  {
    forall o | o in Pop(g)
      ensures o in g
    {
      assert o in multiset(Pop(g));
      assert o in multiset(g);
    }
  }

  lemma DrainState(s: State, n: Naive, side: Side, id: string, low: Price) returns (t: State, w: Naive)
    requires Floored(Book(s, side), side, low)
    requires Valid(s) && Mirrors(s, n) && HeadHasQuantity(Book(s, side)) && id !in s.index
    requires HeadIsBest(Book(s, side), side.Opposite())
    ensures var r := HeadTaker(s, side, id, low);
            t == Apply(AsWritten, s, r) && w == NaiveApply(n, r)
    ensures Valid(t) && Mirrors(t, w) && Book(t, side) == Pop(Book(s, side)) && Floored(Book(t, side), side, low)
  {
    PopKeepsFloor(Book(s, side), side, low);
    HeadTakerMirrors(s, n, side, id, low);
    var m := HeadTakerState(s, side, id, low);
    AddLimitKeepsValid(s, id, side.Opposite(), LastPrice(side, low), Book(s, side)[0].qty);
    t, w := Apply(AsWritten, s, HeadTaker(s, side, id, low)), NaiveApply(n, HeadTaker(s, side, id, low));
  }

  lemma TakerAtEnds(s: State, side: Side, id: string, rest: seq<Request>, low: Price)
    requires Book(s, side) != [] && AtEnds(rest, low)
    ensures AtEnds([HeadTaker(s, side, id, low)] + rest, low)
  {
    AtEndsFromFront(HeadTaker(s, side, id, low), rest, low);
  }

  /** An inversion shows: draining the book reaches an order that is not best. */
  lemma {:induction false} Drain(s: State, n: Naive, side: Side, a: nat, b: nat, cut: nat, mark: Key, small: set<Order>,
                                 low: Price) returns (rs: seq<Request>)
    requires Draining(s, n, side, a, b, cut, mark, small, low)
    ensures Parts(s, n, rs) && AtEnds(rs, low)
    decreases |small|
  {
    HeadIsSound(s, side);
    var id := SomeFreshId(s.index);
    var rest: seq<Request> := [];
    if HeadIsBest(Book(s, side), side.Opposite()) {
      var a', b' := DrainList(Book(s, side), side, a, b, cut, mark, small);
      var t, w := DrainState(s, n, side, id, low);
      rest := Drain(t, w, side, a', b', cut, mark, small - {Book(s, side)[0]}, low);
      PartsFromFront(s, n, HeadTaker(s, side, id, low), rest);
    } else {
      HeadTakerParts(s, n, side, id, low);
      AddNothing([HeadTaker(s, side, id, low)]);
    }
    TakerAtEnds(s, side, id, rest, low);
    rs := [HeadTaker(s, side, id, low)] + rest;
  }

  lemma AddNothing(rs: seq<Request>)
    ensures rs + [] == rs
  {
  }

  lemma {:induction false} ElementsBound(h: seq<Order>) returns (small: set<Order>)
    ensures |small| <= |h| && forall o :: o in h ==> o in small
  {
    if h == [] {
      small := {};
    } else {
      var rest := ElementsBound(h[1..]);
      small := rest + {h[0]};
      assert forall o :: o in h ==> o == h[0] || o in h[1..];
    }
  }

  /** A list of small elements, collected in `small`, with a better one below a worse one. */
  ghost predicate Disordered(h: seq<Order>, a: nat, b: nat, mark: Key, small: set<Order>) {
    && a < |h| && b < |h| && Above(a, b) && Less(KeyOf(h[b]), KeyOf(h[a]))
    && |small| <= |h|
    && forall o :: o in h ==> o in small && Small(o, mark)
  }

  /** The small elements of a filled book are those it held before the fillers. */
  lemma FilledIsInverted(h: seq<Order>, g: seq<Order>, a: nat, b: nat, mark: Key, small: set<Order>)
    requires Disordered(h, a, b, mark, small) && Filled(h, g, |h|, mark)
    ensures Inverted(g, a, b, |h|, mark, small)
  {
    forall o | o in g && Small(o, mark)
      ensures o in small
    {
      var i :| 0 <= i < |g| && g[i] == o;
      assert i < |h| && g[i] == h[i];
    }
    assert h[a] in h && h[b] in h && g[a] == h[a] && g[b] == h[b];
  }

  /** Filling under way: `k` fillers are still to come. */
  ghost predicate Filling(s: State, n: Naive, side: Side, h: seq<Order>, k: nat, mark: Key, low: Price) {
    && InStep(s, n, side, low)
    && k <= |h| && Filled(h, Book(s, side), |h| - k, mark)
    && mark.cost == LastCost(side, low) && mark.ts <= s.clock + 1
  }

  lemma FillingNext(s: State, n: Naive, side: Side, h: seq<Order>, k: nat, mark: Key, o: Order, t: State, w: Naive,
                    low: Price)
    requires Filling(s, n, side, h, k, mark, low) && k > 0 && InStep(t, w, side, low) && t.clock == s.clock + 1
    requires Book(t, side) == Book(s, side) + [o]
    requires o.side == side && o.price == LastPrice(side, low) && o.ts == s.clock + 1
    ensures Filling(t, w, side, h, k - 1, mark, low)
  {
    FilledOnce(h, Book(s, side), |h| - k, mark, o);
  }

  lemma FillMore(s: State, n: Naive, side: Side, h: seq<Order>, k: nat, mark: Key, id: string, low: Price)
    returns (t: State, w: Naive)
    requires Filling(s, n, side, h, k, mark, low) && k > 0 && id !in s.index
    ensures t == Apply(AsWritten, s, Filler(side, id, low)) && w == NaiveApply(n, Filler(side, id, low))
    ensures Filling(t, w, side, h, k - 1, mark, low)
  {
    t, w := FillOne(s, n, side, id, low);
    FillingNext(s, n, side, h, k, mark, Order(id, side, LastPrice(side, low), 1, s.clock + 1), t, w, low);
  }

  /** Put the fillers behind `h` one at a time, then drain. */
  lemma {:induction false} FillAndDrain(s: State, n: Naive, side: Side, h: seq<Order>, k: nat, mark: Key,
                                        a: nat, b: nat,
                                        small: set<Order>, low: Price) returns (rs: seq<Request>)
    requires Filling(s, n, side, h, k, mark, low) && Disordered(h, a, b, mark, small)
    ensures Parts(s, n, rs) && AtEnds(rs, low)
    decreases k
  {
    if k == 0 {
      FilledIsInverted(h, Book(s, side), a, b, mark, small);
      rs := Drain(s, n, side, a, b, |h|, mark, small, low);
    } else {
      var id := SomeFreshId(s.index);
      var t, w := FillMore(s, n, side, h, k, mark, id, low);
      var rest := FillAndDrain(t, w, side, h, k - 1, mark, a, b, small, low);
      rs := [Filler(side, id, low)] + rest;
      PartsFromFront(s, n, Filler(side, id, low), rest);
      AtEndsFromFront(Filler(side, id, low), rest, low);
    }
  }

  lemma BookIsSmall(s: State, side: Side, low: Price)
    requires Valid(s) && Floored(Book(s, side), side, low)
    ensures forall o :: o in Book(s, side) ==> Small(o, Key(LastCost(side, low), s.clock + 1))
  {
    ValidBookIsDistinct(s, side);
    BookIsOneSided(s, side);
    forall o | o in Book(s, side)
      ensures Small(o, Key(LastCost(side, low), s.clock + 1))
    {
      assert o in multiset(Book(s, side));
      LastPriceRanksLast(o, Order(o.id, side, LastPrice(side, low), 1, s.clock + 1), low);
    }
  }

  lemma DisorderStarts(s: State, n: Naive, side: Side, low: Price) returns (a: nat, b: nat, small: set<Order>)
    requires Valid(s) && !IsHeap(Book(s, side)) && Floored(Book(s, side), side, low)
    ensures Disordered(Book(s, side), a, b, Key(LastCost(side, low), s.clock + 1), small)
  {
    a, b := BadEdge(Book(s, side));
    small := ElementsBound(Book(s, side));
    BookIsSmall(s, side, low);
  }

  /** No buy of the state rests below `low`. */
  ghost predicate AllFloored(s: State, low: Price) {
    Floored(s.buys, Buy, low)
  }

  /** Facing nothing, a disordered list shows: fill up behind it and drain it. */
  lemma DisorderShowsAlone(s: State, n: Naive, side: Side, low: Price) returns (rs: seq<Request>)
    requires Valid(s) && Mirrors(s, n) && !IsHeap(Book(s, side)) && AllFloored(s, low)
    requires Book(s, side.Opposite()) == []
    ensures Parts(s, n, rs) && AtEnds(rs, low)
  {
    var h, mark := Book(s, side), Key(LastCost(side, low), s.clock + 1);
    var a, b, small := DisorderStarts(s, n, side, low);
    assert Filled(h, h, 0, mark);
    rs := FillAndDrain(s, n, side, h, |h|, mark, a, b, small, low);
  }

  /** Taking the head of one book leaves the other as it was. */
  lemma HeadTakerSpares(s: State, side: Side, id: string, low: Price)
    requires Valid(s) && Book(s, side) != [] && Floored(Book(s, side), side, low) && id !in s.index
    ensures Book(Apply(AsWritten, s, HeadTaker(s, side, id, low)), side.Opposite()) == Book(s, side.Opposite())
  {
    var m := HeadTakerState(s, side, id, low);
    SettleBooks(s, m);
  }

  /** One order less to face, with the engines still in step. */
  lemma DrainFacing(s: State, n: Naive, side: Side, id: string, low: Price) returns (t: State, w: Naive)
    requires Valid(s) && Mirrors(s, n) && Book(s, side) != [] && AllFloored(s, low) && id !in s.index
    requires HeadIsBest(Book(s, side), side.Opposite())
    ensures var r := HeadTaker(s, side, id, low);
            t == Apply(AsWritten, s, r) && w == NaiveApply(n, r)
    ensures Valid(t) && Mirrors(t, w) && AllFloored(t, low) && |Book(t, side)| < |Book(s, side)|
    ensures Book(t, side.Opposite()) == Book(s, side.Opposite())
  {
    HeadIsSound(s, side);
    t, w := DrainState(s, n, side, id, low);
    HeadTakerSpares(s, side, id, low);
  }

  /** A list that is not a heap gives a stream on which the fills are not best-first, whatever faces it:
      limits at two prices suffice, one below which no buy rests and plus infinity. The orders that face
      it are taken first, unless taking them already shows. */
  lemma {:induction false} DisorderShows(s: State, n: Naive, side: Side, low: Price) returns (rs: seq<Request>)
    requires Valid(s) && Mirrors(s, n) && !IsHeap(Book(s, side)) && AllFloored(s, low)
    ensures Parts(s, n, rs) && AtEnds(rs, low)
    decreases |Book(s, side.Opposite())|
  {
    var other := side.Opposite();
    if Book(s, other) == [] {
      rs := DisorderShowsAlone(s, n, side, low);
    } else {
      var id := SomeFreshId(s.index);
      var rest: seq<Request> := [];
      if HeadIsBest(Book(s, other), side) {
        var t, w := DrainFacing(s, n, other, id, low);
        rest := DisorderShows(t, w, side, low);
        PartsFromFront(s, n, HeadTaker(s, other, id, low), rest);
      } else {
        HeadIsSound(s, other);
        HeadTakerParts(s, n, other, id, low);
        AddNothing([HeadTaker(s, other, id, low)]);
      }
      TakerAtEnds(s, other, id, rest, low);
      rs := [HeadTaker(s, other, id, low)] + rest;
    }
  }

  lemma MirrorsItsNaive(s: State)
    ensures Mirrors(s, NaiveOf(s))
  {
  }

  lemma HeapsServeBestFirst(s: State, rs: seq<Request>)
    requires Valid(s) && Ordered(s) && CancelFree(rs) && FreshIds(AsWritten, s, rs)
    ensures Trades(Replay(AsWritten, s, rs).fills) == NaiveReplay(NaiveOf(s), rs).trades
  {
    MirrorsItsNaive(s);
    CancelFreeKeepsHeap(AsWritten, s, rs);
    ReplayMirrors(AsWritten, s, NaiveOf(s), rs);
  }

  predicate NonNegativePrices(rs: seq<Request>) {
    forall i :: 0 <= i < |rs| && !rs[i].Cancel? ==> NonNegative(LimitPrice(rs[i]))
  }

  /** The same over streams that use no negative price. */
  ghost predicate ServesNonNegativeBestFirst(s: State) {
    forall rs :: CancelFree(rs) && FreshIds(AsWritten, s, rs) && NonNegativePrices(rs) ==>
      Trades(Replay(AsWritten, s, rs).fills) == NaiveReplay(NaiveOf(s), rs).trades
  }

  lemma PartingDenies(s: State, rs: seq<Request>)
    requires Parts(s, NaiveOf(s), rs)
    ensures !ServesBestFirst(s)
    ensures NonNegativePrices(rs) ==> !ServesNonNegativeBestFirst(s)
  {
  }

  lemma OrderedServes(s: State)
    requires Valid(s) && Ordered(s)
    ensures ServesBestFirst(s) && ServesNonNegativeBestFirst(s)
  {
    forall rs | CancelFree(rs) && FreshIds(AsWritten, s, rs)
      ensures Trades(Replay(AsWritten, s, rs).fills) == NaiveReplay(NaiveOf(s), rs).trades
    {
      HeapsServeBestFirst(s, rs);
    }
  }

  lemma AtEndsIsNonNegative(rs: seq<Request>)
    requires AtEnds(rs, Fin(0.0))
    ensures NonNegativePrices(rs)
  {
  }

  lemma DisorderDenies(s: State, low: Price)
    requires Valid(s) && !Ordered(s) && AllFloored(s, low)
    ensures !ServesBestFirst(s) && (low == Fin(0.0) ==> !ServesNonNegativeBestFirst(s))
  {
    MirrorsItsNaive(s);
    var rs := DisorderShows(s, NaiveOf(s), if IsHeap(s.buys) then Sell else Buy, low);
    if low == Fin(0.0) {
      AtEndsIsNonNegative(rs);
    }
    PartingDenies(s, rs);
  }

  /** In any valid state, crossed or not: every cancel-free continuation is served best-first exactly
      when both lists are heaps. */
  lemma BestFirstIffHeaps(s: State)
    requires Valid(s)
    ensures ServesBestFirst(s) <==> Ordered(s)
  {
    if Ordered(s) {
      OrderedServes(s);
    } else {
      DisorderDenies(s, NegInf);
    }
  }

  /** No negative price is needed to tell: with no resting buy below zero, the cancel-free
      continuations without negative prices are served best-first exactly when both lists are heaps. */
  lemma NonNegativeBestFirstIffHeaps(s: State)
    requires Valid(s) && forall o :: o in s.buys ==> NonNegative(o.price)
    ensures ServesNonNegativeBestFirst(s) <==> Ordered(s)
  {
    if Ordered(s) {
      OrderedServes(s);
    } else {
      DisorderDenies(s, Fin(0.0));
    }
  }

  /** A cancel keeps price-time priority, over every cancel-free continuation, exactly when the lists it
      filters are heaps without the cancelled order. */
  lemma CancelKeepsPriorityIff(s: State, id: string)
    requires Valid(s) && id in s.index
    ensures ServesBestFirst(CancelOrder(AsWritten, s, id))
       <==> IsHeap(Without(s.buys, id)) && IsHeap(Without(s.sells, id))
  {
    CancelKeepsValid(AsWritten, s, id);
    BestFirstIffHeaps(CancelOrder(AsWritten, s, id));
  }

  lemma ReplayNext(mode: CancelMode, s: State, rs: seq<Request>, r: Request)
    ensures Replay(mode, s, rs + [r]) == Apply(mode, Replay(mode, s, rs), r)
  {
    assert (rs + [r])[..|rs|] == rs;
  }

  /** The same at any point of any run with ids fresh while live, whatever earlier cancels did. */
  lemma CancelKeepsPriorityInRunsIff(rs: seq<Request>, id: string)
    requires FreshIds(AsWritten, INITIAL, rs) && id in Replay(AsWritten, INITIAL, rs).index
    ensures var s := Replay(AsWritten, INITIAL, rs);
            ServesBestFirst(Replay(AsWritten, INITIAL, rs + [Cancel(id)]))
            <==> IsHeap(Without(s.buys, id)) && IsHeap(Without(s.sells, id))
  {
    InitialIsValid();
    ReplayKeepsValid(AsWritten, INITIAL, rs);
    ReplayNext(AsWritten, INITIAL, rs, Cancel(id));
    CancelKeepsPriorityIff(Replay(AsWritten, INITIAL, rs), id);
  }

  /** Best-first service can be relied on at every point of the run. */
  ghost predicate AlwaysServesBestFirst(rs: seq<Request>) {
    forall k :: 0 <= k <= |rs| ==> ServesBestFirst(Replay(AsWritten, INITIAL, rs[..k]))
  }

  lemma {:induction false} HeapKeptIffOrdered(rs: seq<Request>)
    requires FreshIds(AsWritten, INITIAL, rs)
    ensures HeapKept(AsWritten, INITIAL, rs)
       <==> forall k :: 0 <= k <= |rs| ==> Ordered(Replay(AsWritten, INITIAL, rs[..k]))
  {
    assert rs[..|rs|] == rs;
    if rs != [] {
      var prior := rs[..|rs| - 1];
      HeapKeptIffOrdered(prior);
      assert forall k :: 0 <= k < |rs| ==> prior[..k] == rs[..k];
      if HeapKept(AsWritten, INITIAL, rs) {
        ReplayKeepsOrdered(AsWritten, INITIAL, rs);
      }
    }
  }

  lemma {:induction false} FreshPrefix(rs: seq<Request>, k: nat)
    requires FreshIds(AsWritten, INITIAL, rs) && k <= |rs|
    ensures FreshIds(AsWritten, INITIAL, rs[..k])
  {
    if k == |rs| {
      assert rs[..k] == rs;
    } else {
      FreshPrefix(rs[..|rs| - 1], k);
      assert rs[..|rs| - 1][..k] == rs[..k];
    }
  }

  /** It can be exactly in the runs whose cancels keep heap order. */
  lemma AlwaysBestFirstIffHeapKept(rs: seq<Request>)
    requires FreshIds(AsWritten, INITIAL, rs)
    ensures AlwaysServesBestFirst(rs) <==> HeapKept(AsWritten, INITIAL, rs)
  {
    HeapKeptIffOrdered(rs);
    InitialIsValid();
    forall k | 0 <= k <= |rs|
      ensures ServesBestFirst(Replay(AsWritten, INITIAL, rs[..k])) <==> Ordered(Replay(AsWritten, INITIAL, rs[..k]))
    {
      FreshPrefix(rs, k);
      ReplayKeepsValid(AsWritten, INITIAL, rs[..k]);
      BestFirstIffHeaps(Replay(AsWritten, INITIAL, rs[..k]));
    }
  }
}
