/** Where the example contestant engine agrees with price-time priority: it acknowledges the same
    fills as the naive (and so the reference) engine exactly when every incoming order meets a book
    it cannot trade with, or a book all at one price. */
module TwoEngines {
  import opened Trading
  import opened Bags
  import opened ReferenceEngine
  import opened EngineInvariants
  import opened NaiveEngine
  import opened Arrival
  import opened Refinement
  import opened ListEngine
  import opened ListInvariants

  predicate OnePrice(book: seq<Quote>) {
    forall i, j :: 0 <= i < |book| && 0 <= j < |book| ==> book[i].price == book[j].price
  }

  predicate NoneCrosses(taker: Side, limit: Price, book: seq<Quote>) {
    forall i :: 0 <= i < |book| ==> !Crosses(taker, limit, book[i].price)
  }

  /** An order that crosses nothing rests. */
  lemma NothingCrosses(n: Naive, r: Request)
    requires !r.Cancel? && r.qty > 0 && NoneCrosses(r.side, LimitPrice(r), QuoteBook(n, r.side.Opposite()))
    ensures NaiveReturned(n, r) == []
    ensures NaiveApply(n, r) == WithQuoteBook(n, r.side, QuoteBook(n, r.side) + [Quote(r.id, LimitPrice(r), r.qty)])
  {
    assert Finished(Open(n, r));
    assert n.trades + [] == n.trades;
  }

  /** What a caller can check before the request: it brings no quantity, it can trade with nothing
      on the other side, or everything on the other side is at one price. */
  predicate Agreeable(n: Naive, r: Request) {
    r.Cancel? || (
      var book := QuoteBook(n, r.side.Opposite());
      r.qty <= 0 || NoneCrosses(r.side, LimitPrice(r), book) || OnePrice(book))
  }

  /** The naive engine holds the same orders. */
  ghost predicate ListsMirror(l: Lists, n: Naive) {
    && ValidLists(l)
    && n.buys == Quotes(ByArrival(l.buys))
    && n.sells == Quotes(ByArrival(l.sells))
  }

  ghost predicate PairTracks(p: Pairing, w: Sweep, a: seq<Order>) {
    Reads(p.book, a) && w == Sweep(p.incoming.side, QuoteOf(p.incoming), Quotes(a), p.log)
  }

  lemma ListBookReads(l: Lists, side: Side)
    requires ValidLists(l)
    ensures Reads(ListBook(l, side), ByArrival(ListBook(l, side)))
    ensures forall o :: o in multiset(ListBook(l, side)) ==> o.id in l.index && o.ts <= l.clock
  {
    var live :| ValidListsWith(l, live);
    forall o | o in multiset(ListBook(l, side))
      ensures multiset(ListBook(l, side))[o] == 1 && IsLive(live, o)
    {
      assert (multiset(l.buys) + multiset(l.sells))[o] >= multiset(ListBook(l, side))[o];
    }
    ByArrivalIsOlder(ListBook(l, side));
  }

  lemma HeadInArrival(p: Pairing, a: seq<Order>) returns (c: nat)
    requires p.book != [] && Reads(p.book, a)
    ensures c < |a| && a[c] == SortFor(p.incoming.side, p.book)[0]
    ensures forall i :: 0 <= i < |a| ==> !Less(TakerKey(p.incoming.side, a[i]), TakerKey(p.incoming.side, a[c]))
  {
    HeadIsMember(p.incoming.side, p.book);
    var head := SortFor(p.incoming.side, p.book)[0];
    assert head in multiset(a);
    c :| 0 <= c < |a| && a[c] == head;
    forall i | 0 <= i < |a|
      ensures !Less(TakerKey(p.incoming.side, a[i]), TakerKey(p.incoming.side, a[c]))
    {
      assert a[i] in multiset(a);
      SortedHead(p.incoming.side, p.book, a[i]);
    }
  }

  lemma OlderRanksFirst(taker: Side, a: seq<Order>, c: nat)
    requires Older(a) && c < |a| && a[0].price == a[c].price
    ensures c == 0 || Less(TakerKey(taker, a[0]), TakerKey(taker, a[c]))
  {
  }

  /** At one price both engines take the oldest order. */
  lemma OnePriceTakesOldest(p: Pairing, w: Sweep, a: seq<Order>)
    requires PairTracks(p, w, a) && p.book != [] && OnePrice(w.book)
    ensures a != [] && a[0] == SortFor(p.incoming.side, p.book)[0] && BestIndex(w.taker, w.book) == 0
  {
    var c := HeadInArrival(p, a);
    assert Quotes(a)[0].price == Quotes(a)[c].price;
    OlderRanksFirst(p.incoming.side, a, c);
    var i := BestIndex(w.taker, w.book);
    assert w.book[i].price == w.book[0].price;
  }

  lemma SplitHead(book: seq<Order>, a: seq<Order>, head: Order)
    requires a != [] && a[0] == head && multiset(book) == multiset(a)
    ensures multiset(a[1..]) == multiset(book) - multiset{head}
  {
    assert a == [a[0]] + a[1..];
    MultisetPart(multiset(book), head);
    MultisetCancel(head, multiset(a[1..]), multiset(book) - multiset{head});
  }

  /** The elements of an arrival list whose first order has traded. */
  lemma TakeOldestElements(a: seq<Order>, qty: int, others: multiset<Order>)
    requires a != [] && multiset(a[1..]) == others && qty <= a[0].qty
    ensures multiset(TakeAtOrder(a, 0, qty))
         == if a[0].qty == qty then others else others + multiset{Reduced(a[0], qty)}
  {
    if a[0].qty > qty {
      assert TakeAtOrder(a, 0, qty) == [Reduced(a[0], qty)] + a[1..];
    } else {
      assert TakeAtOrder(a, 0, qty) == a[1..];
    }
  }

  lemma TakeHeadReads(p: Pairing, a: seq<Order>)
    requires Reads(p.book, a) && !Exhausted(p) && !Blocked(p) && a != [] && a[0] == SortFor(p.incoming.side, p.book)[0]
    ensures Reads(Pair(p).book, TakeAtOrder(a, 0, Min(p.incoming.qty, a[0].qty)))
  {
    PairMultisets(p, multiset{});
    SplitHead(p.book, a, a[0]);
    TakeKeepsArrival(a, 0, Min(p.incoming.qty, a[0].qty));
    TakeOldestElements(a, Min(p.incoming.qty, a[0].qty), multiset(p.book) - multiset{a[0]});
  }

  lemma OnePriceAfterTake(a: seq<Order>, qty: int)
    requires a != [] && OnePrice(Quotes(a))
    ensures OnePrice(Quotes(TakeAtOrder(a, 0, qty)))
  {
    var r := TakeAtOrder(a, 0, qty);
    forall i | 0 <= i < |r|
      ensures Quotes(r)[i].price == Quotes(a)[0].price
    {
      var j := if a[0].qty > qty then i else i + 1;
      assert r[i].price == a[j].price;
      assert Quotes(a)[j].price == Quotes(a)[0].price;
    }
  }

  lemma PairKeepsTrack(p: Pairing, w: Sweep, a: seq<Order>) returns (a': seq<Order>)
    requires PairTracks(p, w, a) && OnePrice(w.book) && !Exhausted(p) && !Blocked(p)
    ensures !Finished(w) && PairTracks(Pair(p), Pass(w), a') && OnePrice(Pass(w).book)
  {
    OnePriceTakesOldest(p, w, a);
    var qty := Min(p.incoming.qty, a[0].qty);
    a' := TakeAtOrder(a, 0, qty);
    TakeHeadReads(p, a);
    QuotesOfTake(a, 0, qty);
    OnePriceAfterTake(a, qty);
  }

  lemma BlockedTracks(p: Pairing, w: Sweep, a: seq<Order>)
    requires PairTracks(p, w, a) && !Exhausted(p) && Blocked(p) && OnePrice(w.book)
    ensures Finished(w) && PairTracks(p.(book := SortFor(p.incoming.side, p.book)), w, a)
  {
    OnePriceTakesOldest(p, w, a);
  }

  lemma EmptyTracks(p: Pairing, w: Sweep, a: seq<Order>)
    requires PairTracks(p, w, a)
    ensures p.book == [] <==> w.book == []
  {
    assert |multiset(p.book)| == |p.book| && |multiset(a)| == |a|;
  }

  /** At one price the whole call is the same in both engines. */
  lemma {:induction false} OnePriceRunTracks(p: Pairing, w: Sweep, a: seq<Order>) returns (a': seq<Order>)
    requires PairTracks(p, w, a) && OnePrice(w.book)
    ensures PairTracks(RunPairs(p), RunSweep(w), a')
    decreases |p.book|, p.incoming.qty > 0
  {
    EmptyTracks(p, w, a);
    if Exhausted(p) {
      a' := a;
    } else if Blocked(p) {
      BlockedTracks(p, w, a);
      a' := a;
    } else {
      a' := PairKeepsTrack(p, w, a);
      a' := OnePriceRunTracks(Pair(p), Pass(w), a');
    }
  }

  /** Against a book that nothing crosses, both engines do nothing but rest the order. */
  lemma NoneCrossesTracks(p: Pairing, w: Sweep, a: seq<Order>)
    requires PairTracks(p, w, a) && (p.incoming.qty <= 0 || NoneCrosses(w.taker, w.quote.price, w.book))
    ensures PairTracks(RunPairs(p), RunSweep(w), a)
  {
    EmptyTracks(p, w, a);
    if !Exhausted(p) {
      var c := HeadInArrival(p, a);
      assert Quotes(a)[c].price == a[c].price;
    }
  }

  lemma {:induction false} PairLogGrows(p: Pairing)
    ensures p.log <= RunPairs(p).log
    decreases |p.book|, p.incoming.qty > 0
  {
    if !Exhausted(p) && !Blocked(p) {
      PairLogGrows(Pair(p));
      assert p.log <= Pair(p).log;
    }
  }

  /** The price of the head of a sorted book is the worst one, so it is the best one only if all
      prices are the same. */
  lemma WorstIsNotBest(p: Pairing, w: Sweep, a: seq<Order>)
    requires PairTracks(p, w, a) && p.book != [] && w.book != [] && !OnePrice(w.book)
    ensures SortFor(p.incoming.side, p.book)[0].price != w.book[BestIndex(w.taker, w.book)].price
  {
    var c := HeadInArrival(p, a);
    var best := BestIndex(w.taker, w.book);
    if a[c].price == w.book[best].price {
      forall i | 0 <= i < |w.book|
        ensures w.book[i].price == a[c].price
      {
        WorstAndBest(w.taker, w.book[i].price, a[c].price, a[i].ts, a[c].ts);
      }
    }
  }

  lemma WorstAndBest(taker: Side, p: Price, q: Price, i: nat, j: nat)
    requires !Better(taker, p, q) && !Less(SortKey(taker, p, i), SortKey(taker, q, j))
    ensures p == q
  {
  }

  lemma FirstPair(p: Pairing)
    requires !Exhausted(p) && p.log == []
    ensures var best := SortFor(p.incoming.side, p.book)[0];
            RunPairs(p).log == [] || RunPairs(p).log[0].price == best.price
  {
    if !Blocked(p) {
      PairLogGrows(Pair(p));
      assert RunPairs(p).log[0] == Pair(p).log[0];
    }
  }

  lemma SomeCrosses(w: Sweep)
    requires w.quote.qty > 0 && !NoneCrosses(w.taker, w.quote.price, w.book)
    ensures w.book != [] && !Finished(w)
  {
    var i :| 0 <= i < |w.book| && Crosses(w.taker, w.quote.price, w.book[i].price);
    CrossesBest(w.taker, w.quote.price, w.book[i].price, w.book[BestIndex(w.taker, w.book)].price);
  }

  lemma CrossesBest(taker: Side, limit: Price, p: Price, best: Price)
    requires Crosses(taker, limit, p) && !Better(taker, p, best)
    ensures Crosses(taker, limit, best)
  {
  }

  /** Otherwise the very first fill already differs. */
  lemma DisagreeableLogsDiffer(p: Pairing, w: Sweep, a: seq<Order>)
    requires PairTracks(p, w, a) && p.log == []
    requires p.incoming.qty > 0 && !NoneCrosses(w.taker, w.quote.price, w.book) && !OnePrice(w.book)
    ensures RunSweep(w).log != [] && (RunPairs(p).log == [] || RunPairs(p).log[0].price != RunSweep(w).log[0].price)
  {
    SomeCrosses(w);
    EmptyTracks(p, w, a);
    WorstIsNotBest(p, w, a);
    FirstPair(p);
    FirstTrade(w);
  }

  /** An order that is not agreeable trades in the naive engine, and if it does in the list engine the
      two first trades are at different prices. */
  lemma OrderParts(l: Lists, n: Naive, r: Request)
    requires ListsMirror(l, n) && !r.Cancel? && !Agreeable(n, r)
    ensures NaiveReturned(n, r) != []
    ensures ListReturned(l, r) == [] || ListReturned(l, r)[0].price != NaiveReturned(n, r)[0].price
  {
    var p, w := Enter(l, r.id, r.side, LimitPrice(r), r.qty), Open(n, r);
    var a := ByArrival(p.book);
    ListBookReads(l, r.side.Opposite());
    assert PairTracks(p, w, a);
    DisagreeableLogsDiffer(p, w, a);
  }

  lemma LeaveMirrors(l: Lists, n: Naive, p: Pairing, w: Sweep, a: seq<Order>)
    requires ListsMirror(l, n) && PairTracks(p, w, a) && ValidLists(Leave(l, p)) && p.incoming.ts == l.clock + 1
    ensures ListsMirror(Leave(l, p), Close(n, w))
  {
    var own := ListBook(l, p.incoming.side);
    ListBookReads(l, p.incoming.side);
    LeaveBooks(l, p);
    CloseBooks(n, w);
    ReadsIsByArrival(p.book, a);
    if p.incoming.qty > 0 {
      AppendReads(own, p.incoming);
    }
    MirrorBySide(Leave(l, p), Close(n, w), p.incoming.side);
  }

  lemma MirrorBySide(l: Lists, n: Naive, side: Side)
    requires ValidLists(l)
    requires QuoteBook(n, side) == Quotes(ByArrival(ListBook(l, side)))
    requires QuoteBook(n, side.Opposite()) == Quotes(ByArrival(ListBook(l, side.Opposite())))
    ensures ListsMirror(l, n)
  {
  }

  lemma OlderAppend(a: seq<Order>, o: Order)
    requires Older(a) && forall p :: p in multiset(a) ==> p.ts < o.ts
    ensures Older(a + [o]) && Quotes(a + [o]) == Quotes(a) + [QuoteOf(o)]
  {
    forall i | 0 <= i < |a|
      ensures a[i].ts < o.ts
    {
      assert a[i] in multiset(a);
    }
  }

  lemma AppendReads(own: seq<Order>, o: Order)
    requires Reads(own, ByArrival(own)) && forall p :: p in multiset(own) ==> p.ts < o.ts
    ensures Quotes(ByArrival(own + [o])) == Quotes(ByArrival(own)) + [QuoteOf(o)]
  {
    OlderAppend(ByArrival(own), o);
    ReadsIsByArrival(own + [o], ByArrival(own) + [o]);
  }

  /** One incoming order: the acknowledged fills agree exactly when the order is agreeable, and then
      the books agree afterwards. */
  lemma OrderAgreesIff(l: Lists, n: Naive, r: Request)
    requires ListsMirror(l, n) && !r.Cancel? && r.id !in l.index
    ensures ListReturned(l, r) == NaiveReturned(n, r) <==> Agreeable(n, r)
    ensures Agreeable(n, r) ==> ListsMirror(ListApply(l, r), NaiveApply(n, r))
  {
    var p, w := Enter(l, r.id, r.side, LimitPrice(r), r.qty), Open(n, r);
    var a := ByArrival(p.book);
    ListBookReads(l, r.side.Opposite());
    assert PairTracks(p, w, a);
    if Agreeable(n, r) {
      if OnePrice(w.book) {
        a := OnePriceRunTracks(p, w, a);
      } else {
        NoneCrossesTracks(p, w, a);
      }
      ApplyIsValid(l, r);
      RunPairsKeepsTaker(p);
      LeaveMirrors(l, n, RunPairs(p), RunSweep(w), a);
    } else {
      DisagreeableLogsDiffer(p, w, a);
    }
  }

  lemma ApplyIsValid(l: Lists, r: Request)
    requires ValidLists(l) && !r.Cancel? && r.id !in l.index
    ensures ValidLists(ListApply(l, r))
  {
    var p := Enter(l, r.id, r.side, LimitPrice(r), r.qty);
    var live := EnterIsValid(l, r.id, r.side, LimitPrice(r), r.qty);
    live := RunPairsKeepsValid(p, multiset(ListBook(l, r.side)), live, l.clock + 1);
    RunPairsKeepsTaker(p);
    LeaveKeepsValid(l, RunPairs(p), live);
  }

  lemma CancelOneSide(l: Lists, n: Naive, id: string, side: Side)
    requires ValidLists(l) && id in l.index && l.index[id].side == side
    requires QuoteBook(n, side) == Quotes(ByArrival(ListBook(l, side)))
    ensures Quotes(ByArrival(ListBook(ListCancel(l, id), side))) == Except(QuoteBook(n, side), id)
  {
    ListBookReads(l, side);
    OlderIsDistinct(ByArrival(ListBook(l, side)));
    FilteredMirrors(AsWritten, ListBook(l, side), id);
  }

  lemma CancelOtherSide(l: Lists, n: Naive, id: string, side: Side)
    requires ValidLists(l) && (id in l.index ==> l.index[id].side != side)
    requires QuoteBook(n, side) == Quotes(ByArrival(ListBook(l, side)))
    ensures Quotes(ByArrival(ListBook(ListCancel(l, id), side))) == Except(QuoteBook(n, side), id)
  {
    if id in l.index {
      var live :| ValidListsWith(l, live);
      WithoutOtherSide(l, live, id);
    } else {
      ListBookReads(l, side);
    }
    AbsentNotQuoted(ListBook(l, side), id);
  }

  lemma CancelAgrees(l: Lists, n: Naive, id: string)
    requires ListsMirror(l, n)
    ensures ListsMirror(ListApply(l, Cancel(id)), NaiveApply(n, Cancel(id)))
  {
    ListCancelKeepsValid(l, id);
    if id in l.index {
      var side := l.index[id].side;
      CancelOneSide(l, n, id, side);
      CancelOtherSide(l, n, id, side.Opposite());
      MirrorBySide(ListCancel(l, id), NaiveApply(n, Cancel(id)), side);
    } else {
      CancelOtherSide(l, n, id, Buy);
      CancelOtherSide(l, n, id, Sell);
    }
  }

  predicate Quoted(n: Naive, id: string) {
    (exists i :: 0 <= i < |n.buys| && n.buys[i].id == id) || (exists i :: 0 <= i < |n.sells| && n.sells[i].id == id)
  }

  /** No order of the stream comes in under an id that is resting. */
  ghost predicate UnquotedIds(n: Naive, rs: seq<Request>) {
    forall k :: 0 <= k < |rs| && !rs[k].Cancel? ==> !Quoted(NaiveReplay(n, rs[..k]), rs[k].id)
  }

  lemma IndexedIsQuoted(l: Lists, n: Naive, id: string)
    requires ListsMirror(l, n) && id in l.index
    ensures Quoted(n, id)
  {
    var live :| ValidListsWith(l, live);
    var o := live[id];
    assert IsLive(live, o);
    assert (multiset(l.buys) + multiset(l.sells))[o] == 1;
    if o in multiset(l.buys) {
      var i := QuotedIn(l.buys, o);
    } else {
      var i := QuotedIn(l.sells, o);
    }
  }

  lemma QuotedIn(book: seq<Order>, o: Order) returns (i: nat)
    requires o in multiset(book)
    ensures i < |Quotes(ByArrival(book))| && Quotes(ByArrival(book))[i].id == o.id
  {
    assert o in multiset(ByArrival(book));
    i :| 0 <= i < |ByArrival(book)| && ByArrival(book)[i] == o;
  }

  /** Every request of the stream was agreeable when it arrived. */
  predicate AllAgreeable(n: Naive, rs: seq<Request>) {
    rs == [] || (
      AllAgreeable(n, rs[..|rs| - 1]) && Agreeable(NaiveReplay(n, rs[..|rs| - 1]), rs[|rs| - 1]))
  }

  lemma UnquotedPrefix(n: Naive, rs: seq<Request>)
    requires rs != [] && UnquotedIds(n, rs)
    ensures UnquotedIds(n, rs[..|rs| - 1])
    ensures var r := rs[|rs| - 1]; !r.Cancel? ==> !Quoted(NaiveReplay(n, rs[..|rs| - 1]), r.id)
  {
    var prior := rs[..|rs| - 1];
    forall k | 0 <= k < |prior| && !prior[k].Cancel?
      ensures !Quoted(NaiveReplay(n, prior[..k]), prior[k].id)
    {
      assert prior[..k] == rs[..k] && prior[k] == rs[k];
    }
  }

  /** Over whole streams, cancels included: the acknowledgements are those of the naive engine
      exactly when every request is agreeable when it arrives. */
  lemma {:induction false} AcksAgreeIff(l: Lists, n: Naive, rs: seq<Request>)
    requires ListsMirror(l, n) && UnquotedIds(n, rs)
    ensures ListAcks(l, rs) == NaiveAcks(n, rs) <==> AllAgreeable(n, rs)
    ensures AllAgreeable(n, rs) ==> ListsMirror(ListReplay(l, rs), NaiveReplay(n, rs))
  {
    if rs != [] {
      var prior, r := rs[..|rs| - 1], rs[|rs| - 1];
      UnquotedPrefix(n, rs);
      AcksAgreeIff(l, n, prior);
      AcksStep(l, n, rs);
      if AllAgreeable(n, prior) {
        LastAgreesIff(ListReplay(l, prior), NaiveReplay(n, prior), r);
      }
    }
  }

  lemma AcksStep(l: Lists, n: Naive, rs: seq<Request>)
    requires rs != []
    ensures var prior, r := rs[..|rs| - 1], rs[|rs| - 1];
            ListAcks(l, rs) == NaiveAcks(n, rs)
            <==> ListAcks(l, prior) == NaiveAcks(n, prior)
                 && ListReturned(ListReplay(l, prior), r) == NaiveReturned(NaiveReplay(n, prior), r)
  {
    var a, b := ListAcks(l, rs), NaiveAcks(n, rs);
    assert a[..|rs| - 1] == ListAcks(l, rs[..|rs| - 1]) && b[..|rs| - 1] == NaiveAcks(n, rs[..|rs| - 1]);
    assert a == a[..|rs| - 1] + [a[|rs| - 1]] && b == b[..|rs| - 1] + [b[|rs| - 1]];
  }

  lemma LastAgreesIff(l: Lists, n: Naive, r: Request)
    requires ListsMirror(l, n) && (!r.Cancel? ==> !Quoted(n, r.id))
    ensures ListReturned(l, r) == NaiveReturned(n, r) <==> Agreeable(n, r)
    ensures Agreeable(n, r) ==> ListsMirror(ListApply(l, r), NaiveApply(n, r))
  {
    if r.Cancel? {
      CancelAgrees(l, n, r.id);
    } else {
      if r.id in l.index {
        IndexedIsQuoted(l, n, r.id);
      }
      OrderAgreesIff(l, n, r);
    }
  }

  lemma InitialMirrors()
    ensures ListsMirror(LISTS_INITIAL, NAIVE_INITIAL)
  {
    assert ValidListsWith(LISTS_INITIAL, map[]);
  }

  lemma DeadIdUnquoted(s: State, n: Naive, side: Side, id: string)
    requires Valid(s) && id !in s.index && QuoteBook(n, side) == Quotes(ByArrival(Book(s, side)))
    ensures forall i :: 0 <= i < |QuoteBook(n, side)| ==> QuoteBook(n, side)[i].id != id
  {
    ValidBookIsDistinct(s, side);
    UnquotedIn(Book(s, side), id);
  }

  /** Ids fresh in the reference engine are unquoted in the naive one. */
  lemma FreshIsUnquoted(s: State, n: Naive, id: string)
    requires Valid(s) && Mirrors(s, n) && id !in s.index
    ensures !Quoted(n, id)
  {
    DeadIdUnquoted(s, n, Buy, id);
    DeadIdUnquoted(s, n, Sell, id);
    assert QuoteBook(n, Buy) == n.buys && QuoteBook(n, Sell) == n.sells;
  }

  lemma UnquotedIn(book: seq<Order>, id: string)
    requires forall o :: o in multiset(book) ==> o.id != id
    ensures forall i :: 0 <= i < |Quotes(ByArrival(book))| ==> Quotes(ByArrival(book))[i].id != id
  {
    forall i | 0 <= i < |ByArrival(book)|
      ensures ByArrival(book)[i].id != id
    {
      assert ByArrival(book)[i] in multiset(ByArrival(book));
    }
  }

  /** The reference engine acknowledges what the naive engine does. */
  lemma {:induction false} ReferenceAcksAreNaive(mode: CancelMode, rs: seq<Request>)
    requires FreshIds(mode, INITIAL, rs) && HeapKept(mode, INITIAL, rs)
    ensures ReferenceAcks(mode, INITIAL, rs) == NaiveAcks(NAIVE_INITIAL, rs)
    ensures Valid(Replay(mode, INITIAL, rs)) && Mirrors(Replay(mode, INITIAL, rs), NaiveReplay(NAIVE_INITIAL, rs))
  {
    InitialIsValid();
    assert Trades([]) == [];
    if rs != [] {
      var prior := rs[..|rs| - 1];
      ReferenceAcksAreNaive(mode, prior);
      ReplayKeepsOrdered(mode, INITIAL, prior);
      RequestMirrors(mode, Replay(mode, INITIAL, prior), NaiveReplay(NAIVE_INITIAL, prior), rs[|rs| - 1]);
      ReplayKeepsValid(mode, INITIAL, rs);
    }
  }

  lemma {:induction false} FreshRunsAreUnquoted(mode: CancelMode, rs: seq<Request>)
    requires FreshIds(mode, INITIAL, rs) && HeapKept(mode, INITIAL, rs)
    ensures UnquotedIds(NAIVE_INITIAL, rs)
  {
    if rs != [] {
      var prior, r := rs[..|rs| - 1], rs[|rs| - 1];
      FreshRunsAreUnquoted(mode, prior);
      ReferenceAcksAreNaive(mode, prior);
      if !r.Cancel? {
        FreshIsUnquoted(Replay(mode, INITIAL, prior), NaiveReplay(NAIVE_INITIAL, prior), r.id);
      }
      UnquotedExtends(NAIVE_INITIAL, rs);
    }
  }

  lemma UnquotedExtends(n: Naive, rs: seq<Request>)
    requires rs != [] && UnquotedIds(n, rs[..|rs| - 1])
    requires var r := rs[|rs| - 1]; !r.Cancel? ==> !Quoted(NaiveReplay(n, rs[..|rs| - 1]), r.id)
    ensures UnquotedIds(n, rs)
  {
    var prior := rs[..|rs| - 1];
    forall k | 0 <= k < |rs| && !rs[k].Cancel?
      ensures !Quoted(NaiveReplay(n, rs[..k]), rs[k].id)
    {
      assert k < |prior| ==> prior[..k] == rs[..k] && prior[k] == rs[k];
    }
  }

  /** The two engines acknowledge the same fills on a stream whose cancels keep heap order exactly when
      every request is agreeable on arrival. */
  lemma EnginesAgreeIff(mode: CancelMode, rs: seq<Request>)
    requires FreshIds(mode, INITIAL, rs) && HeapKept(mode, INITIAL, rs)
    ensures ListAcks(LISTS_INITIAL, rs) == ReferenceAcks(mode, INITIAL, rs) <==> AllAgreeable(NAIVE_INITIAL, rs)
  {
    InitialMirrors();
    FreshRunsAreUnquoted(mode, rs);
    ReferenceAcksAreNaive(mode, rs);
    AcksAgreeIff(LISTS_INITIAL, NAIVE_INITIAL, rs);
  }

  predicate AllAt(book: seq<Quote>, p: Price) {
    forall i :: 0 <= i < |book| ==> book[i].price == p
  }

  lemma TakeKeepsAllAt(book: seq<Quote>, i: nat, qty: int, p: Price)
    requires i < |book| && AllAt(book, p)
    ensures AllAt(TakeAt(book, i, qty), p)
  {
  }

  lemma {:induction false} SweepKeepsAllAt(w: Sweep, p: Price)
    requires AllAt(w.book, p)
    ensures AllAt(RunSweep(w).book, p) && RunSweep(w).quote.price == w.quote.price && RunSweep(w).taker == w.taker
    decreases |w.book|, w.quote.qty > 0
  {
    if !Finished(w) {
      TakeKeepsAllAt(w.book, BestIndex(w.taker, w.book), Min(w.quote.qty, w.book[BestIndex(w.taker, w.book)].qty), p);
      SweepKeepsAllAt(Pass(w), p);
    }
  }

  lemma {:induction false} ExceptKeepsAllAt(book: seq<Quote>, id: string, p: Price)
    requires AllAt(book, p)
    ensures AllAt(Except(book, id), p)
  {
    if book != [] {
      ExceptKeepsAllAt(book[1..], id, p);
    }
  }

  /** Every incoming order of the stream is a limit at `p`. */
  predicate PricedAt(rs: seq<Request>, p: Price) {
    forall k :: 0 <= k < |rs| && !rs[k].Cancel? ==> LimitPrice(rs[k]) == p
  }

  lemma {:induction false} CommonPriceIsAgreeable(rs: seq<Request>, p: Price)
    requires PricedAt(rs, p)
    ensures AllAgreeable(NAIVE_INITIAL, rs)
    ensures AllAt(NaiveReplay(NAIVE_INITIAL, rs).buys, p) && AllAt(NaiveReplay(NAIVE_INITIAL, rs).sells, p)
  {
    if rs != [] {
      var prior, r := rs[..|rs| - 1], rs[|rs| - 1];
      var n := NaiveReplay(NAIVE_INITIAL, prior);
      CommonPriceIsAgreeable(prior, p);
      if r.Cancel? {
        ExceptKeepsAllAt(n.buys, r.id, p);
        ExceptKeepsAllAt(n.sells, r.id, p);
      } else {
        SweepKeepsAllAt(Open(n, r), p);
        CloseBooks(n, RunSweep(Open(n, r)));
      }
    }
  }

  /** At one common price the example contestant serves every stream, cancels included, in order of
      arrival: it acknowledges what the naive engine does. */
  lemma CommonPriceServesOldest(rs: seq<Request>, p: Price)
    requires UnquotedIds(NAIVE_INITIAL, rs) && PricedAt(rs, p)
    ensures ListAcks(LISTS_INITIAL, rs) == NaiveAcks(NAIVE_INITIAL, rs)
  {
    CommonPriceIsAgreeable(rs, p);
    InitialMirrors();
    AcksAgreeIff(LISTS_INITIAL, NAIVE_INITIAL, rs);
  }

  /** So at one common price the two engines agree on every stream whose cancels keep heap order. */
  lemma CommonPriceAgrees(mode: CancelMode, rs: seq<Request>, p: Price)
    requires FreshIds(mode, INITIAL, rs) && HeapKept(mode, INITIAL, rs) && PricedAt(rs, p)
    ensures ListAcks(LISTS_INITIAL, rs) == ReferenceAcks(mode, INITIAL, rs)
  {
    CommonPriceIsAgreeable(rs, p);
    EnginesAgreeIff(mode, rs);
  }

  /** Two levels suffice to part them: against sells at 100 and 105 a buy at 102 trades in the
      naive engine and does not in the list engine. */
  lemma TwoLevelsPart(l: Lists, n: Naive, qty: int)
    requires ListsMirror(l, n) && n.sells == [Quote("a", Fin(100.0), 1), Quote("b", Fin(105.0), 1)]
             && "c" !in l.index && qty > 0
    ensures ListReturned(l, Limit("c", Buy, Fin(102.0), qty)) != NaiveReturned(n, Limit("c", Buy, Fin(102.0), qty))
  {
    TwoLevelsDisagreeable(n, qty);
    OrderAgreesIff(l, n, Limit("c", Buy, Fin(102.0), qty));
  }

  lemma TwoLevelsDisagreeable(n: Naive, qty: int)
    requires n.sells == [Quote("a", Fin(100.0), 1), Quote("b", Fin(105.0), 1)] && qty > 0
    ensures !Agreeable(n, Limit("c", Buy, Fin(102.0), qty))
  {
    assert Crosses(Buy, Fin(102.0), n.sells[0].price);
    assert n.sells[0].price != n.sells[1].price;
  }
}
