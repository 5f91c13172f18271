/** The example contestant engine on the load bot's stream: after the first round of ten slots its
    oldest leftovers block it for good, so it never trades again. */
module BotContestant {
  import opened Trading
  import opened NaiveEngine
  import opened Arrival
  import opened ListEngine
  import opened ListInvariants
  import opened BotWorkload

  /** A leftover buy at 100 and a leftover sell at 109. */
  predicate Stuck(l: Lists, b: Order, s: Order) {
    b in l.buys && b.price == Fin(100.0) && s in l.sells && s.price == Fin(109.0)
  }

  /** The lists within the first round: at most one sell, waiting for the next buy. */
  predicate FirstRound(ids: nat -> string, n: nat, l: Lists) {
    && l.buys == [] && |l.sells| == n % 2
    && (n % 2 == 1 ==> QuoteOf(l.sells[0]) == Quote(ids(n), BotPrice(n), 1))
  }

  lemma SortOne(taker: Side, o: Order)
    ensures SortFor(taker, [o]) == [o]
  {
    assert [o][1..] == [];
  }

  lemma LoneSellRests(l: Lists, r: Request)
    requires !r.Cancel? && r.side == Sell && r.qty > 0 && l.buys == []
    ensures ListReturned(l, r) == []
    ensures ListApply(l, r).buys == []
    ensures ListApply(l, r).sells == l.sells + [Order(r.id, Sell, LimitPrice(r), r.qty, l.clock + 1)]
  {
  }

  lemma LoneSellTaken(l: Lists, r: Request)
    requires !r.Cancel? && r.side == Buy && r.qty == 1 && |l.sells| == 1 && l.sells[0].qty == 1
    requires Crosses(Buy, LimitPrice(r), l.sells[0].price)
    ensures ListReturned(l, r) == [Trade(r.id, l.sells[0].id, l.sells[0].price, 1)]
    ensures ListApply(l, r).buys == l.buys && ListApply(l, r).sells == []
  {
    var p := Enter(l, r.id, r.side, LimitPrice(r), r.qty);
    assert l.sells == [l.sells[0]];
    SortOne(Buy, l.sells[0]);
    assert Exhausted(Pair(p)) && RunPairs(p) == Pair(p);
  }

  /** A book whose sorted head does not cross yields nothing, and the order rests. */
  lemma BlockedRests(l: Lists, r: Request)
    requires !r.Cancel? && r.qty > 0 && ListBook(l, r.side.Opposite()) != []
    requires Blocked(Enter(l, r.id, r.side, LimitPrice(r), r.qty))
    ensures ListReturned(l, r) == []
    ensures ListBook(ListApply(l, r), r.side.Opposite()) == SortFor(r.side, ListBook(l, r.side.Opposite()))
    ensures ListBook(ListApply(l, r), r.side)
         == ListBook(l, r.side) + [Order(r.id, r.side, LimitPrice(r), r.qty, l.clock + 1)]
  {
  }

  lemma SortKeeps(taker: Side, book: seq<Order>, o: Order)
    requires o in book
    ensures o in SortFor(taker, book)
  {
    assert o in multiset(book);
    assert o in multiset(SortFor(taker, book));
  }

  /** An order at a price the incoming one cannot trade at keeps the whole book from trading. */
  lemma WorstBlocks(p: Pairing, o: Order)
    requires o in p.book && !Crosses(p.incoming.side, p.incoming.price, o.price)
    requires o.price.Fin? && p.incoming.price.Fin?
    ensures Blocked(p)
  {
    SortedHead(p.incoming.side, p.book, o);
    WorseBlocks(p.incoming.side, p.incoming.price, o, SortFor(p.incoming.side, p.book)[0]);
  }

  lemma WorseBlocks(taker: Side, limit: Price, o: Order, worse: Order)
    requires !Crosses(taker, limit, o.price) && o.price.Fin? && limit.Fin?
    requires !Less(TakerKey(taker, o), TakerKey(taker, worse))
    ensures !Crosses(taker, limit, worse.price)
  {
  }

  /** The leftover that faces an incoming order blocks it, and both leftovers stay. */
  lemma LeftoverBlocks(l: Lists, r: Request, facing: Order, own: Order)
    requires r.Limit? && r.price.Fin? && r.qty > 0 && own in ListBook(l, r.side)
    requires facing in ListBook(l, r.side.Opposite()) && facing.price.Fin? && !Crosses(r.side, r.price, facing.price)
    ensures ListReturned(l, r) == []
    ensures facing in ListBook(ListApply(l, r), r.side.Opposite()) && own in ListBook(ListApply(l, r), r.side)
  {
    WorstBlocks(Enter(l, r.id, r.side, LimitPrice(r), r.qty), facing);
    BlockedRests(l, r);
    SortKeeps(r.side, ListBook(l, r.side.Opposite()), facing);
  }

  lemma BotPrices(slot: nat)
    ensures slot % 2 == 1 ==> Below(Fin(100.0), BotPrice(slot))
    ensures slot % 2 == 0 ==> Below(BotPrice(slot), Fin(109.0))
  {
    assert slot % 2 == 1 ==> slot % 10 > 0;
    assert slot % 2 == 0 ==> slot % 10 < 9;
  }

  lemma StuckStays(ids: nat -> string, slot: nat, l: Lists, b: Order, s: Order)
    requires Stuck(l, b, s)
    ensures ListReturned(l, BotRequest(ids, slot)) == [] && Stuck(ListApply(l, BotRequest(ids, slot)), b, s)
  {
    BotPrices(slot);
    if slot % 2 == 0 {
      LeftoverBlocks(l, BotRequest(ids, slot), s, b);
    } else {
      LeftoverBlocks(l, BotRequest(ids, slot), b, s);
    }
  }

  lemma LastBuyBlocked(ids: nat -> string, l: Lists) returns (b: Order, s: Order)
    requires FirstRound(ids, 9, l)
    ensures ListReturned(l, BotRequest(ids, 10)) == [] && Stuck(ListApply(l, BotRequest(ids, 10)), b, s)
  {
    var r := BotRequest(ids, 10);
    s := l.sells[0];
    SortKeeps(Buy, l.sells, s);
    WorstBlocks(Enter(l, r.id, r.side, LimitPrice(r), r.qty), s);
    BlockedRests(l, r);
    b := ListApply(l, r).buys[0];
  }

  lemma FirstRoundStep(ids: nat -> string, n: nat, l: Lists)
    requires n < 9 && FirstRound(ids, n, l)
    ensures FirstRound(ids, n + 1, ListApply(l, BotRequest(ids, n + 1)))
    ensures ListReturned(l, BotRequest(ids, n + 1))
         == if n % 2 == 1 then [Trade(ids(n + 1), ids(n), BotPrice(n), 1)] else []
  {
    if n % 2 == 0 {
      LoneSellRests(l, BotRequest(ids, n + 1));
    } else {
      LoneSellTaken(l, BotRequest(ids, n + 1));
    }
  }

  lemma AcksGrow(l: Lists, ids: nat -> string, n: nat)
    ensures var before := ListReplay(l, BotStream(ids, n));
            && ListReplay(l, BotStream(ids, n + 1)) == ListApply(before, BotRequest(ids, n + 1))
            && Collected(ListAcks(l, BotStream(ids, n + 1)))
               == Collected(ListAcks(l, BotStream(ids, n))) + ListReturned(before, BotRequest(ids, n + 1))
  {
    BotStreamPrefix(ids, n + 1);
    var acks := ListAcks(l, BotStream(ids, n));
    var last := ListReturned(ListReplay(l, BotStream(ids, n)), BotRequest(ids, n + 1));
    assert (acks + [last])[..|acks|] == acks;
  }

  lemma AppendNothing(fills: seq<Trade>)
    ensures fills + [] == fills
  {
  }

  lemma TradeCountHalves(n: nat)
    requires n < 10
    ensures TradeCount(n) == n / 2
  {
    assert n / 10 == 0 && n % 10 == n;
  }

  lemma FirstRoundTrades(ids: nat -> string, n: nat, returned: seq<Trade>)
    requires n < 9 && returned == if n % 2 == 1 then [Trade(ids(n + 1), ids(n), BotPrice(n), 1)] else []
    ensures BotTrades(ids, n / 2) + returned == BotTrades(ids, (n + 1) / 2)
  {
    TradeCountHalves(n);
    TradeCountHalves(n + 1);
    if n % 2 == 1 {
      TradeOfSlot(ids, n);
    } else {
      assert (n + 1) / 2 == n / 2;
      AppendNothing(BotTrades(ids, n / 2));
    }
  }

  lemma FirstRoundAdvances(ids: nat -> string, n: nat, l: Lists, fills: seq<Trade>)
    requires n < 9 && FirstRound(ids, n, l) && fills == BotTrades(ids, n / 2)
    ensures FirstRound(ids, n + 1, ListApply(l, BotRequest(ids, n + 1)))
    ensures fills + ListReturned(l, BotRequest(ids, n + 1)) == BotTrades(ids, (n + 1) / 2)
  {
    FirstRoundStep(ids, n, l);
    FirstRoundTrades(ids, n, ListReturned(l, BotRequest(ids, n + 1)));
  }

  /** Within the first round the contestant makes the reference engine's fills. */
  lemma {:induction false} ContestantFirstRound(ids: nat -> string, n: nat) returns (l: Lists, fills: seq<Trade>)
    requires n <= 9
    ensures l == ListReplay(LISTS_INITIAL, BotStream(ids, n)) && FirstRound(ids, n, l)
    ensures fills == Collected(ListAcks(LISTS_INITIAL, BotStream(ids, n))) && fills == BotTrades(ids, n / 2)
  {
    if n == 0 {
      l, fills := LISTS_INITIAL, [];
    } else {
      var before, made := ContestantFirstRound(ids, n - 1);
      AcksGrow(LISTS_INITIAL, ids, n - 1);
      FirstRoundAdvances(ids, n - 1, before, made);
      l, fills := ListApply(before, BotRequest(ids, n)), made + ListReturned(before, BotRequest(ids, n));
    }
  }

  /** What the contestant holds and has made after `n` slots. */
  ghost predicate Reached(ids: nat -> string, n: nat, l: Lists, fills: seq<Trade>) {
    l == ListReplay(LISTS_INITIAL, BotStream(ids, n)) && fills == Collected(ListAcks(LISTS_INITIAL, BotStream(ids, n)))
  }

  /** A slot that makes nothing. */
  lemma NothingMade(ids: nat -> string, n: nat, l: Lists, fills: seq<Trade>) returns (after: Lists)
    requires Reached(ids, n, l, fills) && ListReturned(l, BotRequest(ids, n + 1)) == []
    ensures Reached(ids, n + 1, after, fills) && after == ListApply(l, BotRequest(ids, n + 1))
  {
    AcksGrow(LISTS_INITIAL, ids, n);
    AppendNothing(fills);
    after := ListApply(l, BotRequest(ids, n + 1));
  }

  lemma StuckReached(ids: nat -> string, n: nat, l: Lists, fills: seq<Trade>, b: Order, s: Order) returns (after: Lists)
    requires Reached(ids, n, l, fills) && Stuck(l, b, s)
    ensures Reached(ids, n + 1, after, fills) && Stuck(after, b, s)
  {
    StuckStays(ids, n + 1, l, b, s);
    after := NothingMade(ids, n, l, fills);
  }

  lemma RoundReached(ids: nat -> string, n: nat) returns (l: Lists, b: Order, s: Order)
    requires n == 9
    ensures Reached(ids, n + 1, l, BotTrades(ids, 4)) && Stuck(l, b, s)
  {
    var fills;
    l, fills := ContestantFirstRound(ids, n);
    b, s := LastBuyBlocked(ids, l);
    l := NothingMade(ids, n, l, fills);
  }

  lemma {:induction false} StaysStuck(ids: nat -> string, from: nat, n: nat, l: Lists, fills: seq<Trade>,
                                      b: Order, s: Order) returns (after: Lists)
    requires from <= n && Reached(ids, from, l, fills) && Stuck(l, b, s)
    ensures Reached(ids, n, after, fills) && Stuck(after, b, s)
    decreases n - from
  {
    after := l;
    if from < n {
      after := StuckReached(ids, from, l, fills, b, s);
      after := StaysStuck(ids, from + 1, n, after, fills, b, s);
    }
  }

  /** After the first round it makes none: whatever the length of the run, four fills in all. */
  lemma ContestantOnBotStream(ids: nat -> string, n: nat)
    requires n >= 10
    ensures Collected(ListAcks(LISTS_INITIAL, BotStream(ids, n))) == BotTrades(ids, 4)
  {
    var l, b, s := RoundReached(ids, 9);
    var after := StaysStuck(ids, 10, n, l, BotTrades(ids, 4), b, s);
  }

  /** How many fills the contestant makes of `n` slots. */
  function ContestantCount(n: nat): nat {
    if n >= 8 then 4 else n / 2
  }

  lemma CountInFirstRound(n: nat)
    requires n < 10
    ensures ContestantCount(n) == n / 2
  {
  }

  lemma CountIsNoMore(n: nat)
    ensures ContestantCount(n) <= TradeCount(n)
  {
    if n < 10 {
      TradeCountHalves(n);
    }
  }

  /** What it makes of any number of slots. */
  lemma ContestantFills(ids: nat -> string, n: nat)
    ensures Collected(ListAcks(LISTS_INITIAL, BotStream(ids, n))) == BotTrades(ids, ContestantCount(n))
  {
    if n < 10 {
      CountInFirstRound(n);
      var l, fills := ContestantFirstRound(ids, n);
    } else {
      ContestantOnBotStream(ids, n);
    }
  }
}
