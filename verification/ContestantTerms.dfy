/** What the example contestant does on every stream, whether or not it agrees with the reference: it
    serves the worst price first, and it conserves quantity. */
module ContestantTerms {
  import opened Trading
  import opened EngineInvariants
  import opened NaiveEngine
  import opened Conservation
  import opened ListEngine
  import opened ListInvariants
  import opened FillTerms
  import TwoEngines

  // ----- The worst price first -----

  /** The match after `k` passes. */
  function PairPasses(p: Pairing, k: nat): Pairing
    decreases k
  {
    if k == 0 || Exhausted(p) || Blocked(p) then p else PairPasses(Pair(p), k - 1)
  }

  /** `head` is an order of the book than which none is worse priced for the incoming one, and none
      equally priced is older. */
  predicate WorstOf(p: Pairing, head: Order) {
    && head in p.book
    && forall o :: o in p.book ==>
         (if p.incoming.side == Buy then !Below(head.price, o.price) else !Below(o.price, head.price))
         && (o.price == head.price ==> head.ts <= o.ts)
  }

  /** `t` is made with the worst of the book, for as much as both can trade. */
  predicate TakesWorst(p: Pairing, t: Trade, head: Order) {
    WorstOf(p, head) && Paired(t, p, head) && t.qty == Min(p.incoming.qty, head.qty)
  }

  lemma RanksLaterIsNoWorse(taker: Side, o: Order, head: Order)
    requires !Less(TakerKey(taker, o), TakerKey(taker, head))
    ensures if taker == Buy then !Below(head.price, o.price) else !Below(o.price, head.price)
    ensures o.price == head.price ==> head.ts <= o.ts
  {
  }

  lemma SortedHeadIsWorst(p: Pairing)
    requires p.book != []
    ensures WorstOf(p, SortFor(p.incoming.side, p.book)[0])
  {
    var head := SortFor(p.incoming.side, p.book)[0];
    HeadIsMember(p.incoming.side, p.book);
    forall o | o in p.book
      ensures if p.incoming.side == Buy then !Below(head.price, o.price) else !Below(o.price, head.price)
      ensures o.price == head.price ==> head.ts <= o.ts
    {
      SortedHead(p.incoming.side, p.book, o);
      RanksLaterIsNoWorse(p.incoming.side, o, head);
    }
  }

  lemma FirstTakesWorst(p: Pairing, own: multiset<Order>, live: LiveMap, clock: nat, log: seq<Trade>)
    returns (head: Order)
    requires ValidPairing(p, own, live, clock) && !Exhausted(p) && !Blocked(p) && log == RunPairs(p).log
    ensures |p.log| < |log| && TakesWorst(p, log[|p.log|], head)
  {
    head := SortFor(p.incoming.side, p.book)[0];
    SortedHeadIsWorst(p);
    FirstIsPaired(p, own, live, clock);
    PairLogExtends(Pair(p));
    assert RunPairs(p).log[|p.log|] == Pair(p).log[|p.log|];
  }

  /** The match is still going, bound for the same end, as long as a fill is missing. */
  lemma {:induction false} StillPairing(p: Pairing, own: multiset<Order>, live: LiveMap, clock: nat, k: nat)
    returns (at: Pairing, later: LiveMap)
    requires ValidPairing(p, own, live, clock) && |p.log| + k < |RunPairs(p).log|
    ensures at == PairPasses(p, k) && |at.log| == |p.log| + k && RunPairs(at) == RunPairs(p)
    ensures at.incoming == p.incoming.(qty := at.incoming.qty)
    ensures !Exhausted(at) && !Blocked(at) && ValidPairing(at, own, later, clock)
    decreases k
  {
    at, later := p, live;
    if k > 0 {
      later := PairKeepsValid(p, own, live, clock);
      at, later := StillPairing(Pair(p), own, later, clock, k - 1);
    }
  }

  /** The k-th fill of a call is made with the worst-priced of all opposite orders then resting, and the
      oldest of those, for the smaller of the two quantities. */
  lemma WorstIsServedFirst(p: Pairing, own: multiset<Order>, live: LiveMap, clock: nat, k: nat, log: seq<Trade>)
    returns (at: Pairing, head: Order)
    requires ValidPairing(p, own, live, clock) && log == RunPairs(p).log && |p.log| + k < |log|
    ensures at == PairPasses(p, k) && at.incoming == p.incoming.(qty := at.incoming.qty)
    ensures |at.log| == |p.log| + k && TakesWorst(at, log[|at.log|], head)
  {
    var later;
    at, later := StillPairing(p, own, live, clock, k);
    head := FirstTakesWorst(at, own, later, clock, log);
  }

  /** The call ends used up, with nothing left to trade with, or before a worst order that it may not
      trade with - whatever better ones lie behind. */
  lemma {:induction false} StopsAtWorst(p: Pairing) returns (head: Order)
    ensures var r := RunPairs(p);
            r.incoming.qty > 0 && r.book != [] ==>
              WorstOf(r, head) && !Crosses(p.incoming.side, p.incoming.price, head.price)
    decreases |p.book|, p.incoming.qty > 0
  {
    if Exhausted(p) {
      head := p.incoming;
    } else if Blocked(p) {
      head := SortFor(p.incoming.side, p.book)[0];
      SortedHeadIsWorst(p);
      SortKeepsWorst(p, head);
    } else {
      head := StopsAtWorst(Pair(p));
    }
  }

  lemma SortKeepsWorst(p: Pairing, head: Order)
    requires WorstOf(p, head)
    ensures WorstOf(p.(book := SortFor(p.incoming.side, p.book)), head)
  {
    var sorted := SortFor(p.incoming.side, p.book);
    forall o
      ensures o in sorted <==> o in p.book
    {
      assert o in multiset(sorted) <==> o in multiset(p.book);
    }
  }

  // ----- Conservation -----

  function TradeVolume(t: Trade, sel: Selection): int {
    (if sel(t.buyId, Buy) then t.qty else 0) + (if sel(t.sellId, Sell) then t.qty else 0)
  }

  /** What the selected orders have traded. */
  function VolumeOf(trades: seq<Trade>, sel: Selection): int {
    if trades == [] then 0 else VolumeOf(trades[..|trades| - 1], sel) + TradeVolume(trades[|trades| - 1], sel)
  }

  lemma {:induction false} VolumeOfConcat(a: seq<Trade>, b: seq<Trade>, sel: Selection)
    ensures VolumeOf(a + b, sel) == VolumeOf(a, sel) + VolumeOf(b, sel)
  {
    if b == [] {
      assert a + b == a;
    } else {
      VolumeOfConcat(a, b[..|b| - 1], sel);
      assert (a + b)[..|a + b| - 1] == a + b[..|b| - 1];
    }
  }

  function HeldBy(p: Pairing, sel: Selection): int {
    Quantity(p.book, sel) + (if sel(p.incoming.id, p.incoming.side) then Positive(p.incoming.qty) else 0)
    + VolumeOf(p.log, sel)
  }

  lemma QuantityOfTakeHead(book: seq<Order>, qty: int, sel: Selection)
    requires book != [] && qty <= book[0].qty
    ensures Quantity(TakeHead(book, qty), sel) == Quantity(book, sel) - if sel(book[0].id, book[0].side) then qty else 0
  {
    assert book == [book[0]] + book[1..];
    if book[0].qty != qty {
      assert TakeHead(book, qty)[1..] == book[1..];
    }
  }

  lemma PairVolume(p: Pairing, head: Order, sel: Selection)
    requires !Exhausted(p) && !Blocked(p) && head == SortFor(p.incoming.side, p.book)[0]
    requires head.side == p.incoming.side.Opposite()
    ensures var qty := Min(p.incoming.qty, head.qty);
            VolumeOf(Pair(p).log, sel)
            == VolumeOf(p.log, sel) + (if sel(p.incoming.id, p.incoming.side) then qty else 0)
               + (if sel(head.id, head.side) then qty else 0)
  {
    var log := Pair(p).log;
    assert log[..|log| - 1] == p.log;
  }

  lemma PairConserves(p: Pairing, own: multiset<Order>, live: LiveMap, clock: nat, sel: Selection)
    requires ValidPairing(p, own, live, clock) && !Exhausted(p) && !Blocked(p)
    ensures HeldBy(Pair(p), sel) == HeldBy(p, sel)
  {
    var sorted := SortFor(p.incoming.side, p.book);
    HeadIsLive(p, own, live, clock);
    QuantityOfPermutation(sorted, p.book, sel);
    QuantityOfTakeHead(sorted, Min(p.incoming.qty, sorted[0].qty), sel);
    PairVolume(p, sorted[0], sel);
  }

  lemma {:induction false} RunPairsConserves(p: Pairing, own: multiset<Order>, live: LiveMap, clock: nat,
                                             sel: Selection)
    requires ValidPairing(p, own, live, clock)
    ensures HeldBy(RunPairs(p), sel) == HeldBy(p, sel)
    decreases |p.book|, p.incoming.qty > 0
  {
    if !Exhausted(p) {
      if Blocked(p) {
        QuantityOfPermutation(SortFor(p.incoming.side, p.book), p.book, sel);
      } else {
        PairConserves(p, own, live, clock, sel);
        var after := PairKeepsValid(p, own, live, clock);
        RunPairsConserves(Pair(p), own, after, clock, sel);
      }
    }
  }

  function ListedQuantity(l: Lists, sel: Selection): int {
    Quantity(l.buys, sel) + Quantity(l.sells, sel)
  }

  lemma LeaveConserves(l: Lists, p: Pairing, sel: Selection)
    ensures ListedQuantity(Leave(l, p), sel)
         == Quantity(ListBook(l, p.incoming.side), sel) + Quantity(p.book, sel)
            + if sel(p.incoming.id, p.incoming.side) then Positive(p.incoming.qty) else 0
  {
    LeaveBooks(l, p);
    QuantityConcat(ListBook(l, p.incoming.side), [p.incoming], sel);
    assert [p.incoming][1..] == [];
  }

  lemma OrderConserves(l: Lists, r: Request, sel: Selection)
    requires ValidLists(l) && !r.Cancel? && r.id !in l.index
    ensures ListedQuantity(ListApply(l, r), sel) + VolumeOf(ListReturned(l, r), sel)
         == ListedQuantity(l, sel) + if sel(r.id, r.side) then Positive(r.qty) else 0
  {
    var p := Enter(l, r.id, r.side, LimitPrice(r), r.qty);
    var live := EnterIsValid(l, r.id, r.side, LimitPrice(r), r.qty);
    RunPairsConserves(p, multiset(ListBook(l, r.side)), live, l.clock + 1, sel);
    RunPairsKeepsTaker(p);
    LeaveConserves(l, RunPairs(p), sel);
  }

  function OfId(id: string, sel: Selection): Selection {
    (i, side) => i == id && sel(i, side)
  }

  lemma NoneOfId(l: Lists, live: LiveMap, id: string, side: Side)
    requires ValidListsWith(l, live) && (id !in l.index || side == l.index[id].side.Opposite())
    ensures forall o :: o in ListBook(l, side) ==> o.id != id
  {
    if id in l.index {
      WithoutOtherSide(l, live, id);
    }
    forall o | o in ListBook(l, side)
      ensures o.id != id
    {
      assert o in multiset(ListBook(l, side));
      assert (multiset(l.buys) + multiset(l.sells))[o] > 0;
    }
  }

  /** A cancel takes exactly the resting quantity of its id out of the lists. */
  lemma ListCancelConserves(l: Lists, id: string, sel: Selection)
    requires ValidLists(l)
    ensures ListedQuantity(ListCancel(l, id), sel) == ListedQuantity(l, sel) - ListedQuantity(l, OfId(id, sel))
  {
    var live :| ValidListsWith(l, live);
    if id in l.index {
      var side := l.index[id].side;
      QuantityWithout(ListBook(l, side), id, sel);
      NoneOfId(l, live, id, side.Opposite());
      QuantityOfNone(ListBook(l, side.Opposite()), id, sel);
      SameSelection(ListBook(l, side), id, sel);
      SameSelection(ListBook(l, side.Opposite()), id, sel);
    } else {
      NoneOfId(l, live, id, Buy);
      NoneOfId(l, live, id, Sell);
      QuantityOfNone(l.buys, id, sel);
      QuantityOfNone(l.sells, id, sel);
      SameSelection(l.buys, id, sel);
      SameSelection(l.sells, id, sel);
    }
  }

  lemma {:induction false} SameSelection(book: seq<Order>, id: string, sel: Selection)
    ensures Quantity(book, OfId(id, sel)) == Quantity(book, (i, side) => i == id && sel(i, side))
  {
    if book != [] {
      SameSelection(book[1..], id, sel);
    }
  }

  /** No order of the stream comes in under an id the contestant holds. */
  predicate FreshToLists(rs: seq<Request>) {
    rs == [] || (
      var prior, r := rs[..|rs| - 1], rs[|rs| - 1];
      FreshToLists(prior) && (!r.Cancel? ==> r.id !in ListReplay(LISTS_INITIAL, prior).index))
  }

  /** What cancels have taken out of the contestant's lists. */
  function ListCancelled(rs: seq<Request>, sel: Selection): int {
    if rs == [] then 0
    else
      var before, r := ListReplay(LISTS_INITIAL, rs[..|rs| - 1]), rs[|rs| - 1];
      ListCancelled(rs[..|rs| - 1], sel) + if r.Cancel? then ListedQuantity(before, OfId(r.id, sel)) else 0
  }

  lemma {:induction false} ContestantStaysValid(rs: seq<Request>)
    requires FreshToLists(rs)
    ensures ValidLists(ListReplay(LISTS_INITIAL, rs))
  {
    if rs == [] {
      TwoEngines.InitialMirrors();
    } else {
      var prior, r := rs[..|rs| - 1], rs[|rs| - 1];
      ContestantStaysValid(prior);
      if r.Cancel? {
        ListCancelKeepsValid(ListReplay(LISTS_INITIAL, prior), r.id);
      } else {
        TwoEngines.ApplyIsValid(ListReplay(LISTS_INITIAL, prior), r);
      }
    }
  }

  lemma AcksNext(rs: seq<Request>, sel: Selection)
    requires rs != []
    ensures var prior, r := rs[..|rs| - 1], rs[|rs| - 1];
            VolumeOf(Collected(ListAcks(LISTS_INITIAL, rs)), sel)
            == VolumeOf(Collected(ListAcks(LISTS_INITIAL, prior)), sel)
               + VolumeOf(ListReturned(ListReplay(LISTS_INITIAL, prior), r), sel)
  {
    var prior, r := rs[..|rs| - 1], rs[|rs| - 1];
    var acks, last := ListAcks(LISTS_INITIAL, prior), ListReturned(ListReplay(LISTS_INITIAL, prior), r);
    CollectedAppend(acks, last);
    VolumeOfConcat(Collected(acks), last, sel);
  }

  /** Over any run of the contestant and for any choice of orders: what was submitted is what was traded,
      plus what rests, plus what was cancelled. */
  lemma {:induction false} ContestantConserves(rs: seq<Request>, sel: Selection)
    requires FreshToLists(rs)
    ensures Submitted(rs, sel)
         == VolumeOf(Collected(ListAcks(LISTS_INITIAL, rs)), sel)
            + ListedQuantity(ListReplay(LISTS_INITIAL, rs), sel) + ListCancelled(rs, sel)
  {
    if rs != [] {
      var prior, r := rs[..|rs| - 1], rs[|rs| - 1];
      ContestantConserves(prior, sel);
      ContestantStaysValid(prior);
      AcksNext(rs, sel);
      if r.Cancel? {
        ListCancelConserves(ListReplay(LISTS_INITIAL, prior), r.id, sel);
      } else {
        OrderConserves(ListReplay(LISTS_INITIAL, prior), r, sel);
      }
    }
  }
}
