/** Where quantity goes over whole runs, and what each fill owes to the two orders behind it.
    Cancels are taken as written unless a lemma says otherwise. */
module Conservation {
  import opened Trading
  import opened Bags
  import opened Heapq
  import opened ReferenceEngine
  import opened EngineInvariants

  /** Which orders to count: by id and side. */
  type Selection = (string, Side) -> bool

  function Weight(o: Order, sel: Selection): int {
    if sel(o.id, o.side) then o.qty else 0
  }

  function Quantity(book: seq<Order>, sel: Selection): int {
    if book == [] then 0 else Weight(book[0], sel) + Quantity(book[1..], sel)
  }

  function FillVolume(f: Fill, sel: Selection): int {
    (if sel(f.buyId, Buy) then f.qty else 0) + (if sel(f.sellId, Sell) then f.qty else 0)
  }

  /** What the selected orders have traded. */
  function Volume(fills: seq<Fill>, sel: Selection): int {
    if fills == [] then 0 else Volume(fills[..|fills| - 1], sel) + FillVolume(fills[|fills| - 1], sel)
  }

  function Positive(qty: int): int {
    if qty > 0 then qty else 0
  }

  /** What a run of requests has submitted; an order without positive quantity submits nothing. */
  function Submitted(rs: seq<Request>, sel: Selection): int {
    if rs == [] then 0
    else
      var r := rs[|rs| - 1];
      Submitted(rs[..|rs| - 1], sel) + if !r.Cancel? && sel(r.id, r.side) then Positive(r.qty) else 0
  }

  function RestingQuantity(s: State, sel: Selection): int {
    Quantity(s.buys, sel) + Quantity(s.sells, sel)
  }

  /** What cancels have taken out of the books during a run. */
  function Cancelled(mode: CancelMode, s: State, rs: seq<Request>, sel: Selection): int {
    if rs == [] then 0
    else
      var before, r := Replay(mode, s, rs[..|rs| - 1]), rs[|rs| - 1];
      Cancelled(mode, s, rs[..|rs| - 1], sel)
      + if r.Cancel? then RestingQuantity(before, (id, side) => id == r.id && sel(id, side)) else 0
  }

  lemma {:induction false} QuantityConcat(a: seq<Order>, b: seq<Order>, sel: Selection)
    ensures Quantity(a + b, sel) == Quantity(a, sel) + Quantity(b, sel)
  {
    if a == [] {
      assert a + b == b;
    } else {
      QuantityConcat(a[1..], b, sel);
      assert (a + b)[1..] == a[1..] + b;
    }
  }

  /** Quantity does not depend on the order of the list. */
  lemma {:induction false} QuantityOfPermutation(a: seq<Order>, b: seq<Order>, sel: Selection)
    requires multiset(a) == multiset(b)
    ensures Quantity(a, sel) == Quantity(b, sel)
  {
    if a == [] {
      assert |multiset(b)| == |b| == |multiset(a)| == 0;
    } else {
      assert a == [a[0]] + a[1..];
      assert a[0] in multiset(b);
      var i :| 0 <= i < |b| && b[i] == a[0];
      SplitAt(b, i);
      var rest := b[..i] + b[i + 1..];
      MultisetCancel(a[0], multiset(a[1..]), multiset(rest));
      QuantityOfPermutation(a[1..], rest, sel);
      QuantityConcat(b[..i], b[i + 1..], sel);
      QuantityConcat(b[..i], [b[i]] + b[i + 1..], sel);
    }
  }

  lemma QuantityOfPush(h: seq<Order>, x: Order, sel: Selection)
    ensures Quantity(Push(h, x), sel) == Quantity(h, sel) + Weight(x, sel)
  {
    QuantityOfPermutation(Push(h, x), h + [x], sel);
    QuantityConcat(h, [x], sel);
  }

  lemma QuantityOfPop(h: seq<Order>, sel: Selection)
    requires h != []
    ensures Quantity(Pop(h), sel) == Quantity(h, sel) - Weight(h[0], sel)
  {
    QuantityOfPermutation(Pop(h) + [h[0]], h, sel);
    QuantityConcat(Pop(h), [h[0]], sel);
  }

  lemma {:induction false} VolumeConcat(a: seq<Fill>, b: seq<Fill>, sel: Selection)
    ensures Volume(a + b, sel) == Volume(a, sel) + Volume(b, sel)
  {
    if b == [] {
      assert a + b == a;
    } else {
      VolumeConcat(a, b[..|b| - 1], sel);
      assert (a + b)[..|a + b| - 1] == a + b[..|b| - 1];
    }
  }

  /** Half of the balance: what matching still holds. */
  function Held(m: Matching, sel: Selection): int {
    Quantity(m.book, sel) + (if sel(m.incoming.id, m.incoming.side) then Positive(m.incoming.qty) else 0)
    + Volume(m.log, sel)
  }

  lemma QuantityOfTakeBest(book: seq<Order>, qty: int, sel: Selection)
    requires book != [] && qty <= book[0].qty
    ensures Quantity(TakeBest(book, qty), sel) == Quantity(book, sel) - if sel(book[0].id, book[0].side) then qty else 0
  {
    QuantityOfPop(book, sel);
    if book[0].qty > qty {
      QuantityOfPush(Pop(book), Reduced(book[0], qty), sel);
    }
  }

  lemma StepVolume(m: Matching, sel: Selection)
    requires !Stopped(m) && m.book[0].id in m.index && m.book[0].side == m.incoming.side.Opposite()
    ensures var qty := Min(m.incoming.qty, m.book[0].qty);
            Volume(Step(m).log, sel)
            == Volume(m.log, sel) + (if sel(m.incoming.id, m.incoming.side) then qty else 0)
               + (if sel(m.book[0].id, m.book[0].side) then qty else 0)
  {
    var log := Step(m).log;
    assert log[..|log| - 1] == m.log;
  }

  lemma StepConserves(m: Matching, sel: Selection)
    requires !Stopped(m) && m.book[0].id in m.index
    requires m.book[0].side == m.incoming.side.Opposite() && m.book[0].qty > 0
    ensures Held(Step(m), sel) == Held(m, sel)
  {
    QuantityOfTakeBest(m.book, Min(m.incoming.qty, m.book[0].qty), sel);
    StepVolume(m, sel);
  }

  lemma {:induction false} RunConserves(m: Matching, own: multiset<Order>, live: LiveMap, sel: Selection)
    requires ValidMatching(m, own, live)
    ensures Held(Run(m), sel) == Held(m, sel)
    decreases |m.book|, m.incoming.qty > 0
  {
    if !Stopped(m) {
      BestIsIndexed(m, own, live);
      StepConserves(m, sel);
      var after := StepKeepsValid(m, own, live);
      RunConserves(Step(m), own, after, sel);
    }
  }

  lemma SettleConserves(s: State, m: Matching, sel: Selection)
    ensures var r := Settle(s, m);
            RestingQuantity(r, sel) + Volume(r.fills, sel)
            == Quantity(Book(s, m.incoming.side), sel) + Held(m, sel) + Volume(s.fills, sel)
  {
    VolumeConcat(s.fills, m.log, sel);
    QuantityOfPush(Book(s, m.incoming.side), m.incoming, sel);
  }

  lemma AddLimitConserves(s: State, id: string, side: Side, price: Price, qty: int, sel: Selection)
    requires Valid(s) && id !in s.index
    ensures var r := AddLimit(s, id, side, price, qty);
            RestingQuantity(r, sel) + Volume(r.fills, sel)
            == RestingQuantity(s, sel) + Volume(s.fills, sel) + if sel(id, side) then Positive(qty) else 0
  {
    var start := Arrive(s, id, side, price, qty);
    var live := ArriveIsValid(s, id, side, price, qty);
    RunConserves(start, multiset(Book(s, side)), live, sel);
    RunKeepsTaker(start);
    SettleConserves(s, Run(start), sel);
  }

  lemma {:induction false} QuantityWithout(book: seq<Order>, id: string, sel: Selection)
    ensures Quantity(Without(book, id), sel)
         == Quantity(book, sel) - Quantity(book, (i, side) => i == id && sel(i, side))
  {
    if book != [] {
      QuantityWithout(book[1..], id, sel);
      if book[0].id != id {
        assert Without(book, id)[1..] == Without(book[1..], id);
      }
    }
  }

  lemma QuantityFiltered(mode: CancelMode, book: seq<Order>, id: string, sel: Selection)
    ensures Quantity(Filtered(mode, book, id), sel)
         == Quantity(book, sel) - Quantity(book, (i, side) => i == id && sel(i, side))
  {
    QuantityWithout(book, id, sel);
    QuantityOfPermutation(Filtered(mode, book, id), Without(book, id), sel);
  }

  lemma {:induction false} QuantityOfNone(book: seq<Order>, id: string, sel: Selection)
    requires forall o :: o in book ==> o.id != id
    ensures Quantity(book, (i, side) => i == id && sel(i, side)) == 0
  {
    if book != [] {
      QuantityOfNone(book[1..], id, sel);
    }
  }

  lemma RestingIsIndexed(s: State)
    requires Valid(s)
    ensures forall o :: o in s.buys || o in s.sells ==> o.id in s.index
  {
    var live :| ValidWith(s, live);
    forall o | o in s.buys || o in s.sells
      ensures o.id in s.index
    {
      assert o in multiset(s.buys) || o in multiset(s.sells);
      assert Both(s)[o] > 0;
    }
  }

  /** A cancel takes exactly the resting quantity of its id out of the books. */
  lemma CancelConserves(mode: CancelMode, s: State, id: string, sel: Selection)
    requires Valid(s)
    ensures RestingQuantity(CancelOrder(mode, s, id), sel)
         == RestingQuantity(s, sel) - RestingQuantity(s, (i, side) => i == id && sel(i, side))
  {
    if id in s.index {
      QuantityFiltered(mode, s.buys, id, sel);
      QuantityFiltered(mode, s.sells, id, sel);
    } else {
      RestingIsIndexed(s);
      QuantityOfNone(s.buys, id, sel);
      QuantityOfNone(s.sells, id, sel);
    }
  }

  /** For any choice of orders - one id, one side, all of them - what was submitted is what was
      traded, plus what rests, plus what was cancelled. */
  lemma {:induction false} RunsConserveQuantity(mode: CancelMode, rs: seq<Request>, sel: Selection)
    requires FreshIds(mode, INITIAL, rs)
    ensures var s := Replay(mode, INITIAL, rs);
            Submitted(rs, sel) == Volume(s.fills, sel) + RestingQuantity(s, sel) + Cancelled(mode, INITIAL, rs, sel)
  {
    if rs != [] {
      var prior, r := rs[..|rs| - 1], rs[|rs| - 1];
      var before := Replay(mode, INITIAL, prior);
      RunsConserveQuantity(mode, prior, sel);
      InitialIsValid();
      ReplayKeepsValid(mode, INITIAL, prior);
      if r.Cancel? {
        CancelConserves(mode, before, r.id, sel);
      } else {
        AddLimitConserves(before, r.id, r.side, LimitPrice(r), r.qty, sel);
      }
    }
  }

  function OfSide(side: Side): Selection {
    (_, s) => s == side
  }

  lemma {:induction false} SidesTradeTheSame(fills: seq<Fill>)
    ensures Volume(fills, OfSide(Buy)) == Volume(fills, OfSide(Sell))
  {
    if fills != [] {
      SidesTradeTheSame(fills[..|fills| - 1]);
    }
  }

  /** What a side has submitted and neither cancelled nor left resting. */
  function Traded(mode: CancelMode, rs: seq<Request>, side: Side): int {
    Submitted(rs, OfSide(side)) - RestingQuantity(Replay(mode, INITIAL, rs), OfSide(side))
    - Cancelled(mode, INITIAL, rs, OfSide(side))
  }

  lemma TradedIsVolume(mode: CancelMode, rs: seq<Request>, side: Side)
    requires FreshIds(mode, INITIAL, rs)
    ensures Traded(mode, rs, side) == Volume(Replay(mode, INITIAL, rs).fills, OfSide(side))
  {
    RunsConserveQuantity(mode, rs, OfSide(side));
  }

  /** Over a run the two sides trade equal quantities. */
  lemma SidesBalance(mode: CancelMode, rs: seq<Request>)
    requires FreshIds(mode, INITIAL, rs)
    ensures Traded(mode, rs, Buy) == Traded(mode, rs, Sell)
  {
    TradedIsVolume(mode, rs, Buy);
    TradedIsVolume(mode, rs, Sell);
    SidesTradeTheSame(Replay(mode, INITIAL, rs).fills);
  }

  /** `f` is a fill of `taker` against `maker` at the maker's price, inside the taker's limit. */
  predicate Between(f: Fill, taker: Order, maker: Order) {
    && f == FillOf(taker, maker, f.qty, f.ts)
    && Crosses(taker.side, taker.price, maker.price)
    && f.qty <= maker.qty
  }

  lemma StepTakesFromBook(m: Matching)
    requires !Stopped(m)
    ensures Step(m).incoming.qty > 0 ==> forall o :: o in Step(m).book ==> o in m.book
    ensures m.log <= Step(m).log
    ensures forall k :: |m.log| <= k < |Step(m).log| ==>
              m.book[0] in m.book && Between(Step(m).log[k], m.incoming, m.book[0])
  {
    if Step(m).incoming.qty > 0 {
      forall o | o in Step(m).book
        ensures o in m.book
      {
        assert o in multiset(Pop(m.book));
        assert o in multiset(m.book);
      }
    }
  }

  /** Every fill of a match is made with an order of the book as it stood, at that order's price
      and inside the limit of the incoming order - on any book, whether heap-ordered or not. */
  lemma {:induction false} FillsRespectLimits(m: Matching, k: nat)
    requires |m.log| <= k < |Run(m).log|
    ensures exists maker :: maker in m.book && Between(Run(m).log[k], m.incoming, maker)
    decreases |m.book|, m.incoming.qty > 0
  {
    if !Stopped(m) {
      StepTakesFromBook(m);
      LogGrows(Step(m));
      if k < |Step(m).log| {
        assert Between(Run(m).log[k], m.incoming, m.book[0]);
      } else {
        FillsRespectLimits(Step(m), k);
        var maker :| maker in Step(m).book && Between(Run(m).log[k], Step(m).incoming, maker);
        assert !Stopped(Step(m));
        assert maker in m.book;
        assert Between(Run(m).log[k], m.incoming, maker);
      }
    }
  }

  lemma {:induction false} LogGrows(m: Matching)
    ensures m.log <= Run(m).log
    decreases |m.book|, m.incoming.qty > 0
  {
    if !Stopped(m) {
      LogGrows(Step(m));
      assert m.log <= Step(m).log;
    }
  }

  predicate Mentions(f: Fill, id: string) {
    f.buyId == id || f.sellId == id
  }

  predicate Silent(fills: seq<Fill>, id: string) {
    forall k :: 0 <= k < |fills| ==> !Mentions(fills[k], id)
  }

  lemma StepIsSilent(m: Matching, id: string)
    requires !Stopped(m) && m.book[0].id != id && m.incoming.id != id && Silent(m.log, id)
    ensures Silent(Step(m).log, id)
  {
  }

  /** Fills are made between live orders only. */
  lemma {:induction false} FillsNameLiveOrders(m: Matching, own: multiset<Order>, live: LiveMap, id: string)
    requires ValidMatching(m, own, live) && id !in m.index && Silent(m.log, id)
    ensures Silent(Run(m).log, id)
    decreases |m.book|, m.incoming.qty > 0
  {
    if !Stopped(m) {
      BestIsIndexed(m, own, live);
      IncomingIsLive(m, own, live);
      StepIsSilent(m, id);
      var after := StepKeepsValid(m, own, live);
      StepShrinksIndex(m);
      FillsNameLiveOrders(Step(m), own, after, id);
    }
  }

  lemma StepShrinksIndex(m: Matching)
    requires !Stopped(m)
    ensures Step(m).index.Keys <= m.index.Keys
  {
  }

  predicate Adds(r: Request, id: string) {
    !r.Cancel? && r.id == id
  }

  lemma {:induction false} IndexShrinks(m: Matching)
    ensures Run(m).index.Keys <= m.index.Keys
    decreases |m.book|, m.incoming.qty > 0
  {
    if !Stopped(m) {
      IndexShrinks(Step(m));
    }
  }

  /** A request that does not add `id` brings no new fill of a dead `id` and does not revive it. */
  lemma DeadIdStaysDead(mode: CancelMode, s: State, r: Request, id: string)
    requires Valid(s) && id !in s.index && !Adds(r, id) && (!r.Cancel? ==> r.id !in s.index)
    ensures id !in Apply(mode, s, r).index
    ensures Apply(mode, s, r).fills == s.fills + Returned(s, r)
    ensures Silent(Returned(s, r), id)
  {
    if !r.Cancel? {
      var start := Arrive(s, r.id, r.side, LimitPrice(r), r.qty);
      var live := ArriveIsValid(s, r.id, r.side, LimitPrice(r), r.qty);
      FillsNameLiveOrders(start, multiset(Book(s, r.side)), live, id);
      IndexShrinks(start);
    }
  }

  /** Once an order is cancelled or filled, no later fill mentions its id unless the id is reused. */
  lemma {:induction false} CancelledOrdersDoNotTrade(mode: CancelMode, s: State, rs: seq<Request>, id: string)
    requires Valid(s) && FreshIds(mode, s, rs) && id !in s.index
    requires forall k :: 0 <= k < |rs| ==> !Adds(rs[k], id)
    ensures var after := Replay(mode, s, rs);
            && id !in after.index
            && s.fills <= after.fills
            && Silent(after.fills[|s.fills|..], id)
  {
    if rs != [] {
      var prior, r := rs[..|rs| - 1], rs[|rs| - 1];
      CancelledOrdersDoNotTrade(mode, s, prior, id);
      ReplayKeepsValid(mode, s, prior);
      DeadIdStaysDead(mode, Replay(mode, s, prior), r, id);
    }
  }

  // ----- Sequence numbers -----

  /** The fills from `k` on carry the numbers from `ts` on, one after the other. */
  predicate Numbered(log: seq<Fill>, k: nat, ts: nat) {
    forall i :: k <= i < |log| ==> log[i].ts == ts + (i - k)
  }

  /** A match numbers its fills one after the other from the counter on, and the counter counts them. */
  lemma {:induction false} MatchNumbersFills(m: Matching)
    ensures |m.log| <= |Run(m).log| && Run(m).clock == m.clock + (|Run(m).log| - |m.log|)
    ensures m.log <= Run(m).log && Numbered(Run(m).log, |m.log|, m.clock + 1)
    decreases |m.book|, m.incoming.qty > 0
  {
    if !Stopped(m) {
      MatchNumbersFills(Step(m));
      assert m.log <= Step(m).log <= Run(m).log;
      if |Step(m).log| > |m.log| {
        assert Run(m).log[|m.log|] == Step(m).log[|m.log|];
      }
    }
  }

  function Added(rs: seq<Request>): nat {
    if rs == [] then 0 else Added(rs[..|rs| - 1]) + if rs[|rs| - 1].Cancel? then 0 else 1
  }

  /** Fills are numbered in the order they were made, and no number is above the counter. */
  predicate Stamped(fills: seq<Fill>, clock: nat) {
    && (forall i, j :: 0 <= i < j < |fills| ==> fills[i].ts < fills[j].ts)
    && forall i :: 0 <= i < |fills| ==> fills[i].ts <= clock
  }

  lemma StampedAppend(fills: seq<Fill>, clock: nat, log: seq<Fill>, clock': nat)
    requires Stamped(fills, clock) && Numbered(log, 0, clock + 2) && clock' == clock + 1 + |log|
    ensures Stamped(fills + log, clock')
  {
  }

  /** The counter has counted each order added and each fill made, on every stream, and numbers the
      fills in the order they were made. */
  lemma {:induction false} CounterCountsOrdersAndFills(mode: CancelMode, rs: seq<Request>)
    ensures var s := Replay(mode, INITIAL, rs);
            s.clock == Added(rs) + |s.fills| && Stamped(s.fills, s.clock)
  {
    if rs != [] {
      var prior, r := rs[..|rs| - 1], rs[|rs| - 1];
      CounterCountsOrdersAndFills(mode, prior);
      if !r.Cancel? {
        var s := Replay(mode, INITIAL, prior);
        var m := Arrive(s, r.id, r.side, LimitPrice(r), r.qty);
        MatchNumbersFills(m);
        StampedAppend(s.fills, s.clock, Run(m).log, Run(m).clock);
        SettleStamps(s, Run(m));
      }
    }
  }

  lemma SettleStamps(s: State, m: Matching)
    ensures Settle(s, m).clock == m.clock && Settle(s, m).fills == s.fills + m.log
  {
  }
}
