/** The order stream the load bot sends, and what each engine makes of it. */
module BotWorkload {
  import opened Trading
  import opened ReferenceEngine
  import opened NaiveEngine
  import opened Arrival
  import opened Refinement
  import opened TwoEngines
  import opened Submissions

  /** The ids of the first `n` slots differ. */
  predicate Distinct(ids: nat -> string, n: nat) {
    forall i, j :: 1 <= i < j <= n ==> ids(i) != ids(j)
  }

  function BotPrice(slot: nat): Price {
    Fin(100.0 + (slot % 10) as real)
  }

  /** What the bot sends in a slot under an id; slots count from 1. */
  function BotMessage(id: string, slot: nat): Request {
    Limit(id, if slot % 2 == 0 then Buy else Sell, BotPrice(slot), 1)
  }

  function BotRequest(ids: nat -> string, slot: nat): Request {
    BotMessage(ids(slot), slot)
  }

  /** The first `n` slots. */
  function BotStream(ids: nat -> string, n: nat): (r: seq<Request>)
    ensures |r| == n
    ensures forall i :: 0 <= i < n ==> r[i] == BotRequest(ids, i + 1)
  {
    if n == 0 then [] else BotStream(ids, n - 1) + [BotRequest(ids, n)]
  }

  lemma BotStreamPrefix(ids: nat -> string, n: nat)
    requires n > 0
    ensures BotStream(ids, n)[..n - 1] == BotStream(ids, n - 1) && BotStream(ids, n)[n - 1] == BotRequest(ids, n)
  {
  }

  /** The messages of some slots. */
  function MessagesOf(ids: nat -> string, slots: seq<nat>): seq<Request> {
    seq(|slots|, i requires 0 <= i < |slots| => BotRequest(ids, slots[i]))
  }

  lemma MessagesNext(ids: nat -> string, slots: seq<nat>, slot: nat)
    ensures MessagesOf(ids, slots + [slot]) == MessagesOf(ids, slots) + [BotRequest(ids, slot)]
  {
  }

  // ----- Distinct ids are fresh -----

  lemma {:induction false} LaterIdIsUnsubmitted(ids: nat -> string, n: nat, later: nat)
    requires n < later && Distinct(ids, later)
    ensures !Submits(BotStream(ids, n), ids(later))
  {
    if n > 0 {
      LaterIdIsUnsubmitted(ids, n - 1, later);
      BotStreamPrefix(ids, n);
    }
  }

  lemma {:induction false} BotStreamIsUnrepeated(ids: nat -> string, n: nat)
    requires Distinct(ids, n)
    ensures Unrepeated(BotStream(ids, n)) && CancelFree(BotStream(ids, n))
  {
    if n > 0 {
      BotStreamIsUnrepeated(ids, n - 1);
      LaterIdIsUnsubmitted(ids, n - 1, n);
      BotStreamPrefix(ids, n);
    }
  }

  /** Distinct ids make the bot's stream cancel-free with ids fresh while live. */
  lemma BotIdsAreFresh(mode: CancelMode, ids: nat -> string, n: nat)
    requires Distinct(ids, n)
    ensures FreshIds(mode, INITIAL, BotStream(ids, n)) && CancelFree(BotStream(ids, n))
  {
    BotStreamIsUnrepeated(ids, n);
    UnrepeatedIsFresh(mode, BotStream(ids, n));
  }

  // ----- The closed form -----

  /** The sells left at 109 and the buys left at 100, one of each every ten slots. */
  function SellsLeft(ids: nat -> string, c: nat): seq<Quote> {
    seq(c, m requires 0 <= m < c => Quote(ids(10 * m + 9), Fin(109.0), 1))
  }

  function BuysLeft(ids: nat -> string, c: nat): seq<Quote> {
    seq(c, m requires 0 <= m < c => Quote(ids(10 * m + 10), Fin(100.0), 1))
  }

  /** Fill `t`: the buy of an even slot takes the sell of the slot before it, at 101, 103, 105 and
      107 in turn. */
  function BotTrade(ids: nat -> string, t: nat): Trade {
    var slot := 10 * (t / 4) + 2 * (t % 4) + 1;
    Trade(ids(slot + 1), ids(slot), Fin(101.0 + (2 * (t % 4)) as real), 1)
  }

  function BotTrades(ids: nat -> string, k: nat): seq<Trade> {
    seq(k, t requires 0 <= t < k => BotTrade(ids, t))
  }

  function TradeCount(n: nat): nat {
    4 * (n / 10) + n % 10 / 2
  }

  /** The sell waiting for the next buy. */
  function Waiting(ids: nat -> string, n: nat): seq<Quote> {
    if n % 2 == 1 && n % 10 != 9 then [Quote(ids(n), BotPrice(n), 1)] else []
  }

  function BotBook(ids: nat -> string, n: nat): Naive {
    Naive(BuysLeft(ids, n / 10), SellsLeft(ids, (n + 1) / 10) + Waiting(ids, n), BotTrades(ids, TradeCount(n)))
  }

  /** A buy of one takes the cheapest sell, when that is the last of the list and of quantity one. */
  lemma BuyTakesLast(n: Naive, r: Request, kept: seq<Quote>, q: Quote)
    requires !r.Cancel? && r.side == Buy && r.qty == 1 && q.qty == 1 && n.sells == kept + [q]
    requires Crosses(Buy, LimitPrice(r), q.price)
    requires forall i :: 0 <= i < |kept| ==> Below(q.price, kept[i].price)
    ensures NaiveReturned(n, r) == [Trade(r.id, q.id, q.price, 1)]
    ensures NaiveApply(n, r) == Naive(n.buys, kept, n.trades + [Trade(r.id, q.id, q.price, 1)])
  {
    var w := Open(n, r);
    assert n.sells[|kept|] == q;
    assert BestIndex(Buy, n.sells) == |kept|;
    assert (kept + [q])[..|kept|] == kept;
    assert TakeAt(n.sells, |kept|, 1) == kept;
    assert Finished(Pass(w)) && RunSweep(w) == Pass(w);
  }

  lemma Rounds(n: nat, c: nat, r: nat)
    requires n == 10 * c + r && r < 10
    ensures n / 10 == c && n % 10 == r && n % 2 == r % 2
  {
    assert n == 2 * (5 * c) + r;
  }

  lemma NextRounds(n: nat) returns (c: nat, r: nat)
    ensures n == 10 * c + r && r < 10 && n / 10 == c && n % 10 == r && n % 2 == r % 2
    ensures (n + 1) / 10 == (if r < 9 then c else c + 1) && (n + 1) % 10 == if r < 9 then r + 1 else 0
  {
    c, r := n / 10, n % 10;
    Rounds(n, c, r);
    Rounds(n + 1, if r < 9 then c else c + 1, if r < 9 then r + 1 else 0);
  }

  /** No fill comes of the slot after an even one, nor of the last slot of a round. */
  lemma QuietSlot(n: nat)
    requires n % 2 == 0 || n % 10 == 9
    ensures TradeCount(n + 1) == TradeCount(n)
    ensures n % 2 == 0 ==> (n + 1) / 10 == n / 10
    ensures n % 10 == 9 ==> (n + 1) / 10 == n / 10 + 1 && (n + 2) / 10 == (n + 1) / 10
  {
    var c, r := NextRounds(n);
    var _, _ := NextRounds(n + 1);
  }

  lemma SellsLeftGrows(ids: nat -> string, c: nat)
    ensures SellsLeft(ids, c + 1) == SellsLeft(ids, c) + [Quote(ids(10 * c + 9), Fin(109.0), 1)]
  {
  }

  lemma EvenSlot(n: nat) returns (c: nat)
    requires n % 2 == 0
    ensures (n + 1) / 10 == c && (n + 2) / 10 == (if n % 10 == 8 then c + 1 else c)
    ensures n % 10 == 8 <==> (n + 1) % 10 == 9
    ensures n % 10 == 8 ==> n + 1 == 10 * c + 9
    ensures (n + 1) % 2 == 1
  {
    var r;
    c, r := NextRounds(n);
    var _, _ := NextRounds(n + 1);
  }

  lemma WaitingAfterSell(ids: nat -> string, n: nat)
    requires n % 2 == 0
    ensures Waiting(ids, n) == []
    ensures Waiting(ids, n + 1) == if n % 10 == 8 then [] else [Quote(ids(n + 1), BotPrice(n + 1), 1)]
  {
    var _ := EvenSlot(n);
  }

  lemma SellJoins(kept: seq<Quote>, q: Quote, kept': seq<Quote>, waiting': seq<Quote>)
    requires (kept' == kept + [q] && waiting' == []) || (kept' == kept && waiting' == [q])
    ensures kept + [] + [q] == kept' + waiting'
  {
  }

  lemma SellsLeftExtends(ids: nat -> string, n: nat)
    requires n % 2 == 0
    ensures SellsLeft(ids, (n + 1) / 10) + Waiting(ids, n) + [Quote(ids(n + 1), BotPrice(n + 1), 1)]
         == SellsLeft(ids, (n + 2) / 10) + Waiting(ids, n + 1)
  {
    var c := EvenSlot(n);
    WaitingAfterSell(ids, n);
    if n % 10 == 8 {
      SellsLeftGrows(ids, c);
    }
    SellJoins(SellsLeft(ids, c), Quote(ids(n + 1), BotPrice(n + 1), 1), SellsLeft(ids, (n + 2) / 10),
              Waiting(ids, n + 1));
  }

  lemma BookAfterSell(ids: nat -> string, n: nat)
    requires n % 2 == 0
    ensures BotBook(ids, n + 1)
         == WithQuoteBook(BotBook(ids, n), Sell, BotBook(ids, n).sells + [Quote(ids(n + 1), BotPrice(n + 1), 1)])
  {
    QuietSlot(n);
    SellsLeftExtends(ids, n);
  }

  lemma SellRests(ids: nat -> string, n: nat)
    requires n % 2 == 0
    ensures NaiveReturned(BotBook(ids, n), BotRequest(ids, n + 1)) == []
    ensures NaiveApply(BotBook(ids, n), BotRequest(ids, n + 1)) == BotBook(ids, n + 1)
  {
    BookAfterSell(ids, n);
    NothingCrosses(BotBook(ids, n), BotRequest(ids, n + 1));
  }

  lemma BookAfterLastBuy(ids: nat -> string, n: nat)
    requires n % 10 == 9
    ensures BotBook(ids, n + 1)
         == WithQuoteBook(BotBook(ids, n), Buy, BotBook(ids, n).buys + [Quote(ids(n + 1), BotPrice(n + 1), 1)])
  {
    QuietSlot(n);
    assert BuysLeft(ids, n / 10 + 1) == BuysLeft(ids, n / 10) + [Quote(ids(n + 1), BotPrice(n + 1), 1)];
  }

  lemma LastBuyRests(ids: nat -> string, n: nat)
    requires n % 10 == 9
    ensures NaiveReturned(BotBook(ids, n), BotRequest(ids, n + 1)) == []
    ensures NaiveApply(BotBook(ids, n), BotRequest(ids, n + 1)) == BotBook(ids, n + 1)
  {
    BookAfterLastBuy(ids, n);
    NothingCrosses(BotBook(ids, n), BotRequest(ids, n + 1));
  }

  lemma BookBeforeBuy(ids: nat -> string, n: nat)
    requires n % 2 == 1 && n % 10 != 9
    ensures BotBook(ids, n).sells == SellsLeft(ids, (n + 1) / 10) + [Quote(ids(n), BotPrice(n), 1)]
    ensures var b := BotBook(ids, n);
            BotBook(ids, n + 1)
                == Naive(b.buys, SellsLeft(ids, (n + 1) / 10), b.trades + [BotTrade(ids, TradeCount(n))])
  {
    TradeOfSlot(ids, n);
    assert SellsLeft(ids, (n + 1) / 10) + [] == SellsLeft(ids, (n + 1) / 10);
  }

  lemma BuyTakes(ids: nat -> string, n: nat)
    requires n % 2 == 1 && n % 10 != 9
    ensures NaiveReturned(BotBook(ids, n), BotRequest(ids, n + 1)) == [BotTrade(ids, TradeCount(n))]
    ensures NaiveApply(BotBook(ids, n), BotRequest(ids, n + 1)) == BotBook(ids, n + 1)
  {
    BookBeforeBuy(ids, n);
    TradeOfSlot(ids, n);
    BuyTakesLast(BotBook(ids, n), BotRequest(ids, n + 1), SellsLeft(ids, (n + 1) / 10), Quote(ids(n), BotPrice(n), 1));
  }

  lemma TradeNumber(n: nat)
    requires n % 2 == 1 && n % 10 != 9
    ensures TradeCount(n) / 4 == n / 10 && TradeCount(n) % 4 == n % 10 / 2
    ensures TradeCount(n + 1) == TradeCount(n) + 1 && n == 10 * (n / 10) + 2 * (n % 10 / 2) + 1
  {
    var c, r := NextRounds(n);
    assert TradeCount(n) == 4 * c + r / 2 && r / 2 < 4;
  }

  lemma TradeOfSlot(ids: nat -> string, n: nat)
    requires n % 2 == 1 && n % 10 != 9
    ensures BotTrade(ids, TradeCount(n)) == Trade(ids(n + 1), ids(n), BotPrice(n), 1)
    ensures BotTrades(ids, TradeCount(n + 1)) == BotTrades(ids, TradeCount(n)) + [BotTrade(ids, TradeCount(n))]
  {
    TradeNumber(n);
  }

  lemma BotSlot(ids: nat -> string, n: nat)
    ensures NaiveApply(BotBook(ids, n), BotRequest(ids, n + 1)) == BotBook(ids, n + 1)
    ensures NaiveReturned(BotBook(ids, n), BotRequest(ids, n + 1))
         == if n % 2 == 1 && n % 10 != 9 then [BotTrade(ids, TradeCount(n))] else []
  {
    if n % 2 == 0 {
      SellRests(ids, n);
    } else if n % 10 == 9 {
      LastBuyRests(ids, n);
    } else {
      BuyTakes(ids, n);
    }
  }

  /** What the naive engine holds after any number of slots. */
  lemma {:induction false} NaiveOnBotStream(ids: nat -> string, n: nat)
    ensures NaiveReplay(NAIVE_INITIAL, BotStream(ids, n)) == BotBook(ids, n)
  {
    if n == 0 {
      assert BotBook(ids, 0) == NAIVE_INITIAL;
    } else {
      NaiveOnBotStream(ids, n - 1);
      BotStreamPrefix(ids, n);
      BotSlot(ids, n - 1);
    }
  }

  /** What the reference engine holds after any number of slots. */
  lemma ReferenceOnBotStream(mode: CancelMode, ids: nat -> string, n: nat)
    requires Distinct(ids, n)
    ensures var s := Replay(mode, INITIAL, BotStream(ids, n));
            && Trades(s.fills) == BotTrades(ids, TradeCount(n))
            && Quotes(ByArrival(s.buys)) == BuysLeft(ids, n / 10)
            && Quotes(ByArrival(s.sells)) == SellsLeft(ids, (n + 1) / 10) + Waiting(ids, n)
  {
    BotIdsAreFresh(mode, ids, n);
    CancelFreeRefinesNaive(mode, BotStream(ids, n));
    NaiveOnBotStream(ids, n);
  }

  /** `book` is `k` orders of quantity one, all at `p`. */
  ghost predicate HoldsAt(book: seq<Order>, k: nat, p: Price) {
    |book| == k && forall o :: o in multiset(book) ==> o.price == p && o.qty == 1
  }

  lemma RoundNumbers(k: nat)
    ensures TradeCount(10 * k) == 4 * k && 10 * k / 10 == k && (10 * k + 1) / 10 == k
    ensures 10 * k % 2 == 0
  {
    assert 10 * k % 10 == 0;
  }

  lemma FillsAre(fills: seq<Fill>, trades: seq<Trade>)
    requires Trades(fills) == trades
    ensures |fills| == |trades| && forall t :: 0 <= t < |fills| ==> TradeOf(fills[t]) == trades[t]
  {
    forall t | 0 <= t < |fills|
      ensures TradeOf(fills[t]) == trades[t]
    {
      assert Trades(fills)[t] == trades[t];
    }
  }

  lemma ReferenceAfterRounds(mode: CancelMode, ids: nat -> string, k: nat) returns (s: State)
    requires Distinct(ids, 10 * k)
    ensures s == Replay(mode, INITIAL, BotStream(ids, 10 * k))
    ensures Trades(s.fills) == BotTrades(ids, 4 * k)
    ensures Quotes(ByArrival(s.buys)) == BuysLeft(ids, k) && Quotes(ByArrival(s.sells)) == SellsLeft(ids, k)
  {
    var n := 10 * k;
    RoundNumbers(k);
    ReferenceOnBotStream(mode, ids, n);
    s := Replay(mode, INITIAL, BotStream(ids, n));
    assert Waiting(ids, n) == [];
    assert SellsLeft(ids, k) + [] == SellsLeft(ids, k);
  }

  /** After whole rounds of ten slots: four fills a round, one sell at 109 and one buy at 100 left. */
  lemma BotRounds(mode: CancelMode, ids: nat -> string, k: nat)
    requires Distinct(ids, 10 * k)
    ensures var s := Replay(mode, INITIAL, BotStream(ids, 10 * k));
            && |s.fills| == 4 * k && (forall t :: 0 <= t < 4 * k ==> TradeOf(s.fills[t]) == BotTrades(ids, 4 * k)[t])
            && HoldsAt(s.buys, k, Fin(100.0)) && HoldsAt(s.sells, k, Fin(109.0))
  {
    var s := ReferenceAfterRounds(mode, ids, k);
    FillsAre(s.fills, BotTrades(ids, 4 * k));
    BookAllAt(s.buys, ByArrival(s.buys), BuysLeft(ids, k), Fin(100.0));
    BookAllAt(s.sells, ByArrival(s.sells), SellsLeft(ids, k), Fin(109.0));
  }

  lemma BookAllAt(book: seq<Order>, a: seq<Order>, q: seq<Quote>, p: Price)
    requires multiset(a) == multiset(book) && Quotes(a) == q
    requires forall i :: 0 <= i < |q| ==> q[i].price == p && q[i].qty == 1
    ensures HoldsAt(book, |q|, p)
  {
    assert |multiset(a)| == |multiset(book)|;
    forall o | o in multiset(book)
      ensures o.price == p && o.qty == 1
    {
      assert o in multiset(a);
      assert o in a;
      var i :| 0 <= i < |a| && a[i] == o;
      assert QuoteOf(o) == q[i];
    }
  }
}
