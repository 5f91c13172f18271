/** When a market order leaves a remainder: exactly when it asks for more than the other side holds. */
module MarketOrders {
  import opened Trading
  import opened ReferenceEngine
  import opened EngineInvariants
  import opened Conservation
  import opened Priority

  /** What one side of a list of orders offers. */
  function Offered(book: seq<Order>, side: Side): int {
    Quantity(book, OfSide(side))
  }

  lemma {:induction false} OneSidedQuantity(book: seq<Order>, side: Side)
    requires Sound(multiset(book), side)
    ensures Offered(book, side) >= |book| && Offered(book, side.Opposite()) == 0
  {
    if book != [] {
      assert book == [book[0]] + book[1..];
      assert book[0] in multiset(book);
      SoundWithin(multiset(book), multiset(book[1..]), side);
      OneSidedQuantity(book[1..], side);
    }
  }

  lemma MatchSound(m: Matching, own: multiset<Order>, live: LiveMap)
    requires ValidMatching(m, own, live)
    ensures Sound(multiset(m.book), m.incoming.side.Opposite())
  {
  }

  /** What a match takes off the incoming order it takes out of the opposite book. */
  lemma MatchTakesAlike(m: Matching, own: multiset<Order>, live: LiveMap)
    requires ValidMatching(m, own, live) && m.log == []
    ensures var other := m.incoming.side.Opposite();
            Positive(m.incoming.qty) - Positive(Run(m).incoming.qty)
                == Offered(m.book, other) - Offered(Run(m).book, other)
  {
    var side, r := m.incoming.side, Run(m);
    var after := RunKeepsValid(m, own, live);
    RunKeepsTaker(m);
    MatchSound(r, own, after);
    OneSidedQuantity(m.book, side.Opposite());
    OneSidedQuantity(r.book, side.Opposite());
    RunConserves(m, own, live, OfSide(side));
    RunConserves(m, own, live, OfSide(side.Opposite()));
    SidesTradeTheSame(r.log);
  }

  /** A market order may trade with whatever faces it: for a sell, no resting buy has a negative price. */
  ghost predicate MarketReaches(s: State, taker: Side) {
    taker == Sell ==> forall o :: o in s.buys ==> NonNegative(o.price)
  }

  lemma MarketCrosses(side: Side, p: Price)
    requires side == Sell ==> NonNegative(p)
    ensures Crosses(side, MarketPrice(side), p)
  {
  }

  /** A market order that is left with something has emptied the opposite book. */
  lemma MarketStopsEmpty(m: Matching)
    requires m.incoming.price == MarketPrice(m.incoming.side) && Run(m).incoming.qty > 0
    requires m.incoming.side == Sell ==> forall o :: o in m.book ==> NonNegative(o.price)
    ensures Run(m).book == []
  {
    RunKeepsTaker(m);
    var r := Run(m);
    if r.book != [] {
      RunPrices(m, r.book[0]);
      MarketCrosses(m.incoming.side, r.book[0].price);
    }
  }

  /** Something is left of a market order if and only if it asks for more than the other side offers. */
  lemma MarketLeavesRemainderIff(s: State, id: string, side: Side, qty: int)
    requires Valid(s) && id !in s.index && MarketReaches(s, side)
    ensures Run(Arrive(s, id, side, MarketPrice(side), qty)).incoming.qty > 0
       <==> qty > 0 && qty > Offered(Book(s, side.Opposite()), side.Opposite())
  {
    var m := Arrive(s, id, side, MarketPrice(side), qty);
    var live := ArriveIsValid(s, id, side, MarketPrice(side), qty);
    var after := RunKeepsValid(m, multiset(Book(s, side)), live);
    RunKeepsTaker(m);
    MatchTakesAlike(m, multiset(Book(s, side)), live);
    OneSidedQuantity(m.book, side.Opposite());
    OneSidedQuantity(Run(m).book, side.Opposite());
    if Run(m).incoming.qty > 0 {
      MarketStopsEmpty(m);
    }
  }

  lemma RestsIffIndexed(s: State, id: string, side: Side, price: Price, qty: int)
    requires Valid(s) && id !in s.index
    ensures var m := Run(Arrive(s, id, side, price, qty));
            id in AddLimit(s, id, side, price, qty).index <==> m.incoming.qty > 0
  {
    var start := Arrive(s, id, side, price, qty);
    var live := ArriveIsValid(s, id, side, price, qty);
    var after := RunKeepsValid(start, multiset(Book(s, side)), live);
    RunKeepsTaker(start);
    IncomingIsLive(Run(start), multiset(Book(s, side)), after);
    IndexAfterSettling(s, Run(start));
  }

  lemma IndexAfterSettling(s: State, m: Matching)
    ensures Settle(s, m).index == if m.incoming.qty > 0 then m.index else m.index - {m.incoming.id}
  {
  }

  lemma MarketOrderRestsFrom(mode: CancelMode, s: State, id: string, side: Side, qty: int)
    requires Valid(s) && id !in s.index && MarketReaches(s, side)
    ensures id in Apply(mode, s, Market(id, side, qty)).index
       <==> qty > 0 && qty > Offered(Book(s, side.Opposite()), side.Opposite())
  {
    MarketLeavesRemainderIff(s, id, side, qty);
    RestsIffIndexed(s, id, side, MarketPrice(side), qty);
  }

  lemma ReachedIsValid(mode: CancelMode, rs: seq<Request>) returns (s: State)
    requires FreshIds(mode, INITIAL, rs)
    ensures s == Replay(mode, INITIAL, rs) && Valid(s)
  {
    InitialIsValid();
    ReplayKeepsValid(mode, INITIAL, rs);
    s := Replay(mode, INITIAL, rs);
  }

  /** In every reachable state, cancels as written included: a market order is live after the call -
      its remainder rests - if and only if it asked for more than the other side offered. */
  lemma MarketOrderRestsIff(mode: CancelMode, rs: seq<Request>, id: string, side: Side, qty: int)
    requires FreshIds(mode, INITIAL, rs) && id !in Replay(mode, INITIAL, rs).index
    requires MarketReaches(Replay(mode, INITIAL, rs), side)
    ensures var s := Replay(mode, INITIAL, rs);
            id in Apply(mode, s, Market(id, side, qty)).index
            <==> qty > 0 && qty > Offered(Book(s, side.Opposite()), side.Opposite())
  {
    var s := ReachedIsValid(mode, rs);
    MarketOrderRestsFrom(mode, s, id, side, qty);
  }

  function OneSell(price: Price): State {
    State([], [Order("a", Sell, price, 1, 1)], map["a" := 1], [], 1)
  }

  lemma OneSellIsReached(price: Price)
    ensures AddLimit(INITIAL, "a", Sell, price, 1) == OneSell(price)
  {
    assert Stopped(Arrive(INITIAL, "a", Sell, price, 1));
  }

  lemma MarketBuyRuns(price: Price)
    ensures Run(Arrive(OneSell(price), "b", Buy, PosInf, 2))
         == Matching(Order("b", Buy, PosInf, 1, 2), [], map["b" := 2], [Fill("b", "a", price, 1, 3)], 3)
  {
    var m := Arrive(OneSell(price), "b", Buy, PosInf, 2);
    assert Step(m).book == [] && Stopped(Step(m)) && Run(m) == Step(m);
    assert OneSell(price).index["b" := 2] - {"a"} == map["b" := 2];
  }

  /** One sell of 1, and a market buy of 2: one is traded and one comes to rest, where the design
      document has it cancelled. */
  lemma MarketRemainderRests(price: Price)
    ensures AddLimit(INITIAL, "a", Sell, price, 1) == OneSell(price)
    ensures Apply(AsWritten, OneSell(price), Market("b", Buy, 2))
         == State([Order("b", Buy, PosInf, 1, 2)], [], map["b" := 2], [Fill("b", "a", price, 1, 3)], 3)
  {
    OneSellIsReached(price);
    MarketBuyRuns(price);
  }
}
