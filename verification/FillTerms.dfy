/** The terms of a fill in plain words, for both engines: who buys, who sells, at whose price, how much,
    and what that means for market orders. */
module FillTerms {
  import opened Trading
  import Heapq
  import opened ReferenceEngine
  import opened EngineInvariants
  import opened Conservation
  import opened NaiveEngine
  import opened Arrival
  import opened Refinement
  import opened Priority
  import opened ListEngine
  import opened ListInvariants
  import opened MarketOrders
  import TwoEngines

  /** Prices are totally ordered, numbers as numbers and between the infinities. */
  lemma PricesAreOrdered(a: Price, b: Price, c: Price)
    ensures Below(a, b) ==> a != b && !Below(b, a)
    ensures a != b ==> Below(a, b) || Below(b, a)
    ensures Below(a, b) && Below(b, c) ==> Below(a, c)
    ensures a.Fin? ==> Below(NegInf, a) && Below(a, PosInf) && (b.Fin? ==> (Below(a, b) <==> a.value < b.value))
  {
  }

  /** The price `p` is no worse for the request than it asked: a limit buy pays no more, a limit sell
      gets no less, a market sell gets no less than zero. */
  predicate Acceptable(r: Request, p: Price)
    requires !r.Cancel?
  {
    match r
    case Limit(_, side, limit, _) => if side == Buy then !Below(limit, p) else !Below(p, limit)
    case Market(_, side, _) => side == Sell ==> !Below(p, Fin(0.0))
  }

  /** `t` is a trade of the request with the resting order `maker`: the buyer and the seller are named
      as such, the price is the resting order's, and neither trades more than it has. */
  predicate Terms(t: Trade, r: Request, maker: Order)
    requires !r.Cancel?
  {
    && maker.side != r.side
    && (if r.side == Buy then t.buyId == r.id && t.sellId == maker.id else t.sellId == r.id && t.buyId == maker.id)
    && t.price == maker.price && Acceptable(r, t.price)
    && 0 < t.qty <= r.qty && t.qty <= maker.qty
  }

  /** The prices that a request may trade at are the acceptable ones: a market buy takes every price, a
      market sell those that are not below zero. */
  lemma CrossesIffAcceptable(r: Request, p: Price)
    requires !r.Cancel?
    ensures Crosses(r.side, LimitPrice(r), p) <==> Acceptable(r, p)
    ensures r.Market? && r.side == Buy ==> Crosses(r.side, LimitPrice(r), p)
    ensures r.Market? && r.side == Sell ==> (Crosses(r.side, LimitPrice(r), p) <==> !Below(p, Fin(0.0)))
  {
  }

  // ----- The reference engine -----

  /** `f` is a fill of the match `m` with `maker`. */
  predicate Made(f: Fill, m: Matching, maker: Order) {
    && maker in m.book && Between(f, m.incoming, maker) && maker.side == m.incoming.side.Opposite()
    && 0 < f.qty <= m.incoming.qty
  }

  lemma {:induction false} RunMakes(m: Matching, own: multiset<Order>, live: LiveMap, k: nat) returns (maker: Order)
    requires ValidMatching(m, own, live) && |m.log| <= k < |Run(m).log|
    ensures Made(Run(m).log[k], m, maker)
    decreases |m.book|, m.incoming.qty > 0
  {
    BestIsIndexed(m, own, live);
    StepTakesFromBook(m);
    LogGrows(Step(m));
    maker := m.book[0];
    if k >= |Step(m).log| {
      var after := StepKeepsValid(m, own, live);
      maker := RunMakes(Step(m), own, after, k);
      assert !Stopped(Step(m));
      assert Made(Run(m).log[k], m, maker);
    } else {
      assert Run(m).log[k] == Step(m).log[k];
    }
  }

  lemma MadeOnTerms(s: State, r: Request, f: Fill, maker: Order)
    requires !r.Cancel? && Made(f, Arrive(s, r.id, r.side, LimitPrice(r), r.qty), maker)
    ensures Terms(TradeOf(f), r, maker)
  {
    CrossesIffAcceptable(r, maker.price);
  }

  /** Every fill the reference engine returns is on those terms with an order that rests when the
      request comes in. */
  lemma ReferenceFillsOnTerms(s: State, r: Request, k: nat) returns (maker: Order)
    requires Valid(s) && !r.Cancel? && r.id !in s.index && k < |Returned(s, r)|
    ensures maker in Book(s, r.side.Opposite()) && Terms(TradeOf(Returned(s, r)[k]), r, maker)
  {
    var m := Arrive(s, r.id, r.side, LimitPrice(r), r.qty);
    var live := ArriveIsValid(s, r.id, r.side, LimitPrice(r), r.qty);
    maker := RunMakes(m, multiset(Book(s, r.side)), live, k);
    MadeOnTerms(s, r, Returned(s, r)[k], maker);
  }

  lemma {:induction false} RunLeavesLess(m: Matching, own: multiset<Order>, live: LiveMap)
    requires ValidMatching(m, own, live)
    ensures Run(m).incoming.qty <= m.incoming.qty
    decreases |m.book|, m.incoming.qty > 0
  {
    if !Stopped(m) {
      BestIsIndexed(m, own, live);
      var after := StepKeepsValid(m, own, live);
      RunLeavesLess(Step(m), own, after);
    }
  }

  lemma OneOrderPerId(s: State, side: Side, o: Order, p: Order)
    requires Valid(s) && o in Book(s, side) && p in Book(s, side) && o.id == p.id
    ensures o == p
  {
    var live :| ValidWith(s, live);
    assert o in multiset(Book(s, side)) && p in multiset(Book(s, side));
    assert Both(s)[o] > 0 && Both(s)[p] > 0;
  }

  /** So whoever takes a resting order trades at its price. */
  lemma TakenAtRestingPrice(s: State, o: Order, r: Request, k: nat)
    requires Valid(s) && !r.Cancel? && r.id !in s.index && k < |Returned(s, r)|
    requires o in Book(s, r.side.Opposite())
    requires o.id == if r.side == Buy then Returned(s, r)[k].sellId else Returned(s, r)[k].buyId
    ensures Returned(s, r)[k].price == o.price
  {
    var maker := ReferenceFillsOnTerms(s, r, k);
    OneOrderPerId(s, r.side.Opposite(), o, maker);
  }

  /** The order that comes to rest with what is left of a request: at its limit, and of a market order a
      sell at zero and a buy at plus infinity. */
  function LeftAt(r: Request, left: int, ts: nat): Order
    requires !r.Cancel?
  {
    match r
    case Limit(id, side, price, _) => Order(id, side, price, left, ts)
    case Market(id, side, _) => Order(id, side, if side == Sell then Fin(0.0) else PosInf, left, ts)
  }

  lemma PushHolds(h: seq<Order>, o: Order)
    ensures o in Heapq.Push(h, o)
  {
    assert o in multiset(Heapq.Push(h, o));
  }

  lemma LeftOf(s: State, id: string, side: Side, price: Price, qty: int) returns (r: Matching)
    requires Valid(s) && id !in s.index
    ensures r == Run(Arrive(s, id, side, price, qty))
    ensures r.incoming == Order(id, side, price, r.incoming.qty, s.clock + 1) && r.incoming.qty <= qty
  {
    var m := Arrive(s, id, side, price, qty);
    var live := ArriveIsValid(s, id, side, price, qty);
    RunKeepsTaker(m);
    RunLeavesLess(m, multiset(Book(s, side)), live);
    r := Run(m);
  }

  /** What is left of an order that is live after its call joins its book. */
  lemma RemainderJoins(s: State, id: string, side: Side, price: Price, qty: int) returns (left: int)
    requires Valid(s) && id !in s.index && id in AddLimit(s, id, side, price, qty).index
    ensures 0 < left <= qty
    ensures Book(AddLimit(s, id, side, price, qty), side)
         == Heapq.Push(Book(s, side), Order(id, side, price, left, s.clock + 1))
  {
    RestsIffIndexed(s, id, side, price, qty);
    var r := LeftOf(s, id, side, price, qty);
    SettleBooks(s, r);
    left := r.incoming.qty;
  }

  /** In every valid state: a request that is live after its call rests at that price. */
  lemma RemainderRestsAt(mode: CancelMode, s: State, r: Request) returns (left: int)
    requires Valid(s) && !r.Cancel? && r.id !in s.index && r.id in Apply(mode, s, r).index
    ensures 0 < left <= r.qty && Valid(Apply(mode, s, r))
    ensures Book(Apply(mode, s, r), r.side) == Heapq.Push(Book(s, r.side), LeftAt(r, left, s.clock + 1))
  {
    left := RemainderJoins(s, r.id, r.side, LimitPrice(r), r.qty);
    AddLimitKeepsValid(s, r.id, r.side, LimitPrice(r), r.qty);
  }

  /** And whoever takes what rests of a market sell pays zero; what rests of a market buy pays plus
      infinity. */
  lemma MarketRemainderIsTakenAt(mode: CancelMode, s: State, id: string, side: Side, qty: int, r: Request, k: nat)
    requires Valid(s) && id !in s.index && id in Apply(mode, s, Market(id, side, qty)).index
    requires var t := Apply(mode, s, Market(id, side, qty));
             && !r.Cancel? && r.side == side.Opposite() && r.id !in t.index && k < |Returned(t, r)|
             && id == if side == Sell then Returned(t, r)[k].sellId else Returned(t, r)[k].buyId
    ensures Returned(Apply(mode, s, Market(id, side, qty)), r)[k].price == if side == Sell then Fin(0.0) else PosInf
  {
    var t := Apply(mode, s, Market(id, side, qty));
    var left := RemainderRestsAt(mode, s, Market(id, side, qty));
    PushHolds(Book(s, side), LeftAt(Market(id, side, qty), left, s.clock + 1));
    TakenAtRestingPrice(t, LeftAt(Market(id, side, qty), left, s.clock + 1), r, k);
  }

  /** The next buy does take it, where no other sell rests, if it accepts zero. */
  lemma NextBuyTakesMarketSell(mode: CancelMode, s: State, id: string, qty: int, t: State, buy: Request)
    returns (left: int)
    requires Valid(s) && s.sells == [] && id !in s.index
    requires t == Apply(mode, s, Market(id, Sell, qty)) && id in t.index
    requires !buy.Cancel? && buy.side == Buy && buy.qty > 0 && buy.id !in t.index && Acceptable(buy, Fin(0.0))
    ensures 0 < left <= qty && Returned(t, buy) != []
    ensures Returned(t, buy)[0] == Fill(buy.id, id, Fin(0.0), Min(buy.qty, left), t.clock + 2)
  {
    left := RemainderRestsAt(mode, s, Market(id, Sell, qty));
    HeadIsTaken(t, LeftAt(Market(id, Sell, qty), left, s.clock + 1), buy);
  }

  lemma HeadIsTaken(t: State, o: Order, buy: Request)
    requires Valid(t) && t.sells == [o] && !buy.Cancel? && buy.side == Buy && buy.qty > 0 && buy.id !in t.index
    requires Acceptable(buy, o.price)
    ensures Returned(t, buy) != []
    ensures Returned(t, buy)[0] == Fill(buy.id, o.id, o.price, Min(buy.qty, o.qty), t.clock + 2)
  {
    var m := Arrive(t, buy.id, Buy, LimitPrice(buy), buy.qty);
    var live := ArriveIsValid(t, buy.id, Buy, LimitPrice(buy), buy.qty);
    BestIsIndexed(m, multiset(t.buys), live);
    CrossesIffAcceptable(buy, o.price);
    FirstFill(m);
  }

  // ----- The example contestant -----

  predicate Paired(t: Trade, p: Pairing, maker: Order) {
    && maker in p.book && maker.side == p.incoming.side.Opposite()
    && t == TradeWith(p.incoming.side, QuoteOf(p.incoming), QuoteOf(maker), t.qty)
    && Crosses(p.incoming.side, p.incoming.price, maker.price)
    && 0 < t.qty <= p.incoming.qty && t.qty <= maker.qty
  }

  lemma {:induction false} PairLogExtends(p: Pairing)
    ensures p.log <= RunPairs(p).log
    decreases |p.book|, p.incoming.qty > 0
  {
    if !Exhausted(p) && !Blocked(p) {
      PairLogExtends(Pair(p));
      assert p.log <= Pair(p).log;
    }
  }

  lemma PairWithin(p: Pairing, o: Order)
    requires !Exhausted(p) && !Blocked(p) && o in Pair(p).book && Pair(p).incoming.qty > 0
    ensures o in p.book
  {
    var sorted := SortFor(p.incoming.side, p.book);
    assert o in sorted[1..];
    assert o in multiset(sorted);
  }

  lemma FirstIsPaired(p: Pairing, own: multiset<Order>, live: LiveMap, clock: nat)
    requires ValidPairing(p, own, live, clock) && !Exhausted(p) && !Blocked(p)
    ensures |Pair(p).log| == |p.log| + 1 <= |RunPairs(p).log|
    ensures Paired(RunPairs(p).log[|p.log|], p, SortFor(p.incoming.side, p.book)[0])
  {
    HeadIsLive(p, own, live, clock);
    HeadIsMember(p.incoming.side, p.book);
    PairLogExtends(Pair(p));
    assert RunPairs(p).log[|p.log|] == Pair(p).log[|p.log|];
    assert SortFor(p.incoming.side, p.book)[0] in p.book;
  }

  lemma {:induction false} RunPairsMakes(p: Pairing, own: multiset<Order>, live: LiveMap, clock: nat, k: nat)
    returns (maker: Order)
    requires ValidPairing(p, own, live, clock) && |p.log| <= k < |RunPairs(p).log|
    ensures Paired(RunPairs(p).log[k], p, maker)
    decreases |p.book|, p.incoming.qty > 0
  {
    FirstIsPaired(p, own, live, clock);
    maker := SortFor(p.incoming.side, p.book)[0];
    if k > |p.log| {
      var after := PairKeepsValid(p, own, live, clock);
      maker := RunPairsMakes(Pair(p), own, after, clock, k);
      PairWithin(p, maker);
      LaterIsPaired(p, own, live, clock, maker, RunPairs(p).log[k]);
    }
  }

  lemma LaterIsPaired(p: Pairing, own: multiset<Order>, live: LiveMap, clock: nat, maker: Order, t: Trade)
    requires ValidPairing(p, own, live, clock) && !Exhausted(p) && !Blocked(p)
    requires Paired(t, Pair(p), maker) && maker in p.book
    ensures Paired(t, p, maker)
  {
    HeadIsLive(p, own, live, clock);
  }

  lemma PairedOnTerms(l: Lists, r: Request, t: Trade, maker: Order)
    requires !r.Cancel? && Paired(t, Enter(l, r.id, r.side, LimitPrice(r), r.qty), maker)
    ensures Terms(t, r, maker)
  {
    CrossesIffAcceptable(r, maker.price);
  }

  /** The same terms hold for every fill of the example contestant. */
  lemma ContestantFillsOnTerms(l: Lists, r: Request, k: nat) returns (maker: Order)
    requires ValidLists(l) && !r.Cancel? && r.id !in l.index && k < |ListReturned(l, r)|
    ensures maker in ListBook(l, r.side.Opposite()) && Terms(ListReturned(l, r)[k], r, maker)
  {
    var p := Enter(l, r.id, r.side, LimitPrice(r), r.qty);
    var live := EnterIsValid(l, r.id, r.side, LimitPrice(r), r.qty);
    maker := RunPairsMakes(p, multiset(ListBook(l, r.side)), live, l.clock + 1, k);
    PairedOnTerms(l, r, ListReturned(l, r)[k], maker);
  }

  lemma {:induction false} RunPairsLeavesLess(p: Pairing, own: multiset<Order>, live: LiveMap, clock: nat)
    requires ValidPairing(p, own, live, clock)
    ensures RunPairs(p).incoming.qty <= p.incoming.qty
    decreases |p.book|, p.incoming.qty > 0
  {
    if !Exhausted(p) && !Blocked(p) {
      HeadIsLive(p, own, live, clock);
      var after := PairKeepsValid(p, own, live, clock);
      RunPairsLeavesLess(Pair(p), own, after, clock);
    }
  }

  lemma OneListedPerId(l: Lists, side: Side, o: Order, p: Order)
    requires ValidLists(l) && o in ListBook(l, side) && p in ListBook(l, side) && o.id == p.id
    ensures o == p
  {
    var live :| ValidListsWith(l, live);
    assert o in multiset(ListBook(l, side)) && p in multiset(ListBook(l, side));
    assert (multiset(l.buys) + multiset(l.sells))[o] > 0 && (multiset(l.buys) + multiset(l.sells))[p] > 0;
  }

  lemma ContestantRemainderJoins(l: Lists, id: string, side: Side, price: Price, qty: int, t: Lists)
    returns (left: int)
    requires ValidLists(l) && id !in l.index && t == Leave(l, RunPairs(Enter(l, id, side, price, qty))) && id in t.index
    ensures 0 < left <= qty && ListBook(t, side) == ListBook(l, side) + [Order(id, side, price, left, l.clock + 1)]
  {
    var p := Enter(l, id, side, price, qty);
    var live := EnterIsValid(l, id, side, price, qty);
    RunPairsKeepsTaker(p);
    RunPairsLeavesLess(p, multiset(ListBook(l, side)), live, l.clock + 1);
    LeaveBooks(l, RunPairs(p));
    left := RunPairs(p).incoming.qty;
  }

  /** A request of the contestant that is live after its call rests at the same price. */
  lemma ContestantRemainderRestsAt(l: Lists, r: Request) returns (left: int)
    requires ValidLists(l) && !r.Cancel? && r.id !in l.index && r.id in ListApply(l, r).index
    ensures 0 < left <= r.qty && ValidLists(ListApply(l, r))
    ensures ListBook(ListApply(l, r), r.side) == ListBook(l, r.side) + [LeftAt(r, left, l.clock + 1)]
  {
    left := ContestantRemainderJoins(l, r.id, r.side, LimitPrice(r), r.qty, ListApply(l, r));
    TwoEngines.ApplyIsValid(l, r);
  }

  /** Whoever takes it trades at that price there too. */
  lemma ContestantRemainderIsTakenAt(l: Lists, id: string, side: Side, qty: int, r: Request, k: nat)
    requires ValidLists(l) && id !in l.index && id in ListApply(l, Market(id, side, qty)).index
    requires var t := ListApply(l, Market(id, side, qty));
             && !r.Cancel? && r.side == side.Opposite() && r.id !in t.index && k < |ListReturned(t, r)|
             && id == if side == Sell then ListReturned(t, r)[k].sellId else ListReturned(t, r)[k].buyId
    ensures ListReturned(ListApply(l, Market(id, side, qty)), r)[k].price == if side == Sell then Fin(0.0) else PosInf
  {
    var t := ListApply(l, Market(id, side, qty));
    var left := ContestantRemainderRestsAt(l, Market(id, side, qty));
    var maker := ContestantFillsOnTerms(t, r, k);
    AppendHolds(ListBook(l, side), LeftAt(Market(id, side, qty), left, l.clock + 1));
    OneListedPerId(t, side, LeftAt(Market(id, side, qty), left, l.clock + 1), maker);
  }

  lemma AppendHolds(book: seq<Order>, o: Order)
    ensures o in book + [o]
  {
    assert (book + [o])[|book|] == o;
  }

  lemma LoneRemainder(l: Lists, r: Request, t: Lists) returns (o: Order)
    requires ValidLists(l) && !r.Cancel? && ListBook(l, r.side) == [] && r.id !in l.index
    requires t == ListApply(l, r) && r.id in t.index
    ensures ListBook(t, r.side) == [o] && o == LeftAt(r, o.qty, l.clock + 1) && 0 < o.qty <= r.qty
  {
    var left := ContestantRemainderRestsAt(l, r);
    o := LeftAt(r, left, l.clock + 1);
  }

  /** And the next buy takes it, where no other sell rests, if it accepts zero. */
  lemma NextBuyTakesContestantSell(l: Lists, id: string, qty: int, t: Lists, buy: Request) returns (left: int)
    requires ValidLists(l) && l.sells == [] && id !in l.index
    requires t == ListApply(l, Market(id, Sell, qty)) && id in t.index
    requires !buy.Cancel? && buy.side == Buy && buy.qty > 0 && buy.id !in t.index && Acceptable(buy, Fin(0.0))
    ensures 0 < left <= qty && ListReturned(t, buy) != []
    ensures ListReturned(t, buy)[0] == Trade(buy.id, id, Fin(0.0), Min(buy.qty, left))
  {
    var o := LoneRemainder(l, Market(id, Sell, qty), t);
    left := o.qty;
    LoneIsTaken(t, o, buy);
  }

  lemma LoneIsTaken(t: Lists, o: Order, buy: Request)
    requires t.sells == [o] && !buy.Cancel? && buy.side == Buy && buy.qty > 0 && Acceptable(buy, o.price)
    ensures ListReturned(t, buy) != [] && ListReturned(t, buy)[0] == Trade(buy.id, o.id, o.price, Min(buy.qty, o.qty))
  {
    var p := Enter(t, buy.id, Buy, LimitPrice(buy), buy.qty);
    assert [o][1..] == [] && SortFor(Buy, [o]) == [o];
    CrossesIffAcceptable(buy, o.price);
    PairLogExtends(Pair(p));
    assert RunPairs(p).log[0] == Pair(p).log[0];
  }
}
