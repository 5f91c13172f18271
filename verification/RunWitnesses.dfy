/** Two runs that show which hypotheses the agreement of the two engines needs. */
module RunWitnesses {
  import opened Trading
  import opened Heapq
  import opened ReferenceEngine
  import opened NaiveEngine
  import opened CancelPriority
  import opened CancelWitness
  import opened ListEngine
  import opened TwoEngines
  import opened Submissions
  import opened BotContestant
  import opened ContestantVerdict
  import opened FillDiff
  import opened Validation
  import opened Arrival
  import opened Refinement

  // ----- At one common price, after a cancel -----

  function ParSell(v: real, id: string): Request {
    Limit(id, Sell, Fin(v), 1)
  }

  function ParBuy(v: real, id: string): Request {
    Limit(id, Buy, Fin(v), 1)
  }

  function FourSells(v: real): seq<Request> {
    [] + [ParSell(v, "a")] + [ParSell(v, "b")] + [ParSell(v, "c")] + [ParSell(v, "d")]
  }

  /** Four sells, a buy that takes the oldest, a cancel of the second and another buy, all at one price. */
  function ParRun(v: real): seq<Request> {
    FourSells(v) + [ParBuy(v, "e")] + [Cancel("b")] + [ParBuy(v, "f")]
  }

  function ParOrder(v: real, id: string, ts: nat): Order {
    WitnessOrder(id, v, ts)
  }

  lemma ParPush(v: real, h: seq<Order>, id: string, ts: nat)
    requires forall o :: o in h ==> o.side == Sell && o.price == Fin(v) && o.ts < ts
    ensures Push(h, ParOrder(v, id, ts)) == h + [ParOrder(v, id, ts)]
  {
    LastIsAppended(h, ParOrder(v, id, ts));
  }

  /** Nothing rests but sells at `v`, none numbered above the counter. */
  ghost predicate AllSells(v: real, s: State) {
    s.buys == [] && forall o :: o in s.sells ==> o.side == Sell && o.price == Fin(v) && o.ts <= s.clock
  }

  lemma SellGoesLast(v: real, rs: seq<Request>, s: State, id: string, t: State)
    requires Replay(AsWritten, INITIAL, rs) == s && AllSells(v, s)
    requires t == State([], s.sells + [ParOrder(v, id, s.clock + 1)], s.index[id := s.clock + 1], s.fills, s.clock + 1)
    ensures Replay(AsWritten, INITIAL, rs + [ParSell(v, id)]) == t && AllSells(v, t)
  {
    ReplayOne(INITIAL, rs, ParSell(v, id));
    ParPush(v, s.sells, id, s.clock + 1);
    SellRests(s, id, v);
  }

  function AfterOne(v: real): State {
    State([], [ParOrder(v, "a", 1)], map["a" := 1], [], 1)
  }

  function AfterTwo(v: real): State {
    State([], [ParOrder(v, "a", 1), ParOrder(v, "b", 2)], map["a" := 1, "b" := 2], [], 2)
  }

  function AfterThree(v: real): State {
    State([], [ParOrder(v, "a", 1), ParOrder(v, "b", 2), ParOrder(v, "c", 3)], map["a" := 1, "b" := 2, "c" := 3], [], 3)
  }

  function AfterFour(v: real): State {
    State([], [ParOrder(v, "a", 1), ParOrder(v, "b", 2), ParOrder(v, "c", 3), ParOrder(v, "d", 4)],
          map["a" := 1, "b" := 2, "c" := 3, "d" := 4], [], 4)
  }

  lemma OneSellRests(v: real)
    ensures Replay(AsWritten, INITIAL, [] + [ParSell(v, "a")]) == AfterOne(v)
    ensures AllSells(v, AfterOne(v))
  {
    SellGoesLast(v, [], INITIAL, "a", AfterOne(v));
  }

  lemma TwoSellsRest(v: real)
    ensures Replay(AsWritten, INITIAL, [] + [ParSell(v, "a")] + [ParSell(v, "b")]) == AfterTwo(v)
    ensures AllSells(v, AfterTwo(v))
  {
    OneSellRests(v);
    SellGoesLast(v, [] + [ParSell(v, "a")], AfterOne(v), "b", AfterTwo(v));
  }

  lemma ThreeSellsRest(v: real)
    ensures Replay(AsWritten, INITIAL, [] + [ParSell(v, "a")] + [ParSell(v, "b")] + [ParSell(v, "c")]) == AfterThree(v)
    ensures AllSells(v, AfterThree(v))
  {
    TwoSellsRest(v);
    SellGoesLast(v, [] + [ParSell(v, "a")] + [ParSell(v, "b")], AfterTwo(v), "c", AfterThree(v));
  }

  lemma FourIsThreeAndOne(v: real)
    ensures var s := AfterThree(v);
            AfterFour(v) == State([], s.sells + [ParOrder(v, "d", 4)], s.index["d" := 4], s.fills, 4)
  {
  }

  lemma FourSellsRest(v: real)
    ensures Replay(AsWritten, INITIAL, FourSells(v)) == AfterFour(v)
  {
    var three := [] + [ParSell(v, "a")] + [ParSell(v, "b")] + [ParSell(v, "c")];
    ThreeSellsRest(v);
    FourIsThreeAndOne(v);
    SellGoesLast(v, three, AfterThree(v), "d", AfterFour(v));
  }

  lemma SiftThree(b: Order, c: Order, d: Order)
    requires Less(KeyOf(b), KeyOf(c)) && Less(KeyOf(b), KeyOf(d))
    ensures SiftUp([d, b, c], 0) == [b, d, c]
  {
    assert SmallerChild([d, b, c], 0) == 1;
    assert Swap([d, b, c], 0, 1) == [b, d, c];
    assert SiftDown([b, d, c], 1) == [b, d, c];
  }

  lemma PopFour(v: real)
    ensures Pop(AfterFour(v).sells) == [ParOrder(v, "b", 2), ParOrder(v, "d", 4), ParOrder(v, "c", 3)]
  {
    var b, c, d := ParOrder(v, "b", 2), ParOrder(v, "c", 3), ParOrder(v, "d", 4);
    assert AfterFour(v).sells[..3][0 := d] == [d, b, c];
    SiftThree(b, c, d);
  }

  /** A buy of one at par takes the head of a book of such sells. */
  lemma ReferenceTakesHead(v: real, s: State, id: string)
    requires s.buys == [] && s.sells != [] && s.sells[0] == ParOrder(v, s.sells[0].id, s.sells[0].ts)
    requires s.sells[0].id in s.index && id !in s.index
    ensures Returned(s, ParBuy(v, id)) == [Fill(id, s.sells[0].id, Fin(v), 1, s.clock + 2)]
    ensures Apply(AsWritten, s, ParBuy(v, id))
         == State([], Pop(s.sells), s.index - {s.sells[0].id}, s.fills + Returned(s, ParBuy(v, id)), s.clock + 2)
  {
    var m := Arrive(s, id, Buy, Fin(v), 1);
    ExactTake(m);
    assert s.index[id := s.clock + 1] - {s.sells[0].id} - {id} == s.index - {s.sells[0].id};
  }

  function FirstFill(v: real): Fill {
    Fill("e", "a", Fin(v), 1, 6)
  }

  function AfterBuy(v: real): State {
    State([], [ParOrder(v, "b", 2), ParOrder(v, "d", 4), ParOrder(v, "c", 3)], map["b" := 2, "c" := 3, "d" := 4],
          [FirstFill(v)], 6)
  }

  function AfterCancel(v: real): State {
    State([], [ParOrder(v, "d", 4), ParOrder(v, "c", 3)], map["c" := 3, "d" := 4], [FirstFill(v)], 6)
  }

  lemma IndexAfterBuy(v: real)
    ensures AfterFour(v).index - {"a"} == AfterBuy(v).index
  {
  }

  lemma BuyIsReached(v: real)
    ensures Apply(AsWritten, AfterFour(v), ParBuy(v, "e")) == AfterBuy(v)
  {
    PopFour(v);
    ReferenceTakesHead(v, AfterFour(v), "e");
    IndexAfterBuy(v);
  }

  lemma CancelIsReached(v: real)
    ensures Apply(AsWritten, AfterBuy(v), Cancel("b")) == AfterCancel(v) && !IsHeap(AfterCancel(v).sells)
  {
    var d, c := ParOrder(v, "d", 4), ParOrder(v, "c", 3);
    assert AfterBuy(v).sells[1..] == [d, c] && [d, c][1..] == [c] && [c][1..] == [];
    assert Without([c], "b") == [c];
    assert Without([d, c], "b") == [d, c];
    assert AfterBuy(v).index - {"b"} == AfterCancel(v).index;
    assert !EdgeOk(AfterCancel(v).sells, 1);
  }

  lemma LastBuyTakesNewer(v: real)
    ensures Apply(AsWritten, AfterCancel(v), ParBuy(v, "f")).fills == [FirstFill(v), Fill("f", "d", Fin(v), 1, 8)]
  {
    ReferenceTakesHead(v, AfterCancel(v), "f");
  }

  lemma ReferenceNext(rs: seq<Request>, s: State, r: Request, t: State)
    requires Replay(AsWritten, INITIAL, rs) == s && Apply(AsWritten, s, r) == t
    ensures Replay(AsWritten, INITIAL, rs + [r]) == t
  {
    ReplayOne(INITIAL, rs, r);
  }

  lemma ReferenceOnParRun(v: real)
    ensures Replay(AsWritten, INITIAL, ParRun(v)).fills == [FirstFill(v), Fill("f", "d", Fin(v), 1, 8)]
  {
    var rs := FourSells(v);
    FourSellsRest(v);
    BuyIsReached(v);
    ReferenceNext(rs, AfterFour(v), ParBuy(v, "e"), AfterBuy(v));
    rs := rs + [ParBuy(v, "e")];
    CancelIsReached(v);
    ReferenceNext(rs, AfterBuy(v), Cancel("b"), AfterCancel(v));
    rs := rs + [Cancel("b")];
    LastBuyTakesNewer(v);
    ReferenceNext(rs, AfterCancel(v), ParBuy(v, "f"), Apply(AsWritten, AfterCancel(v), ParBuy(v, "f")));
  }

  lemma NaiveNext(rs: seq<Request>, n: Naive, r: Request, m: Naive)
    requires NaiveReplay(NAIVE_INITIAL, rs) == n && NaiveApply(n, r) == m
    ensures NaiveReplay(NAIVE_INITIAL, rs + [r]) == m
  {
    assert (rs + [r])[..|rs|] == rs;
  }

  function ParQuote(v: real, id: string): Quote {
    Quote(id, Fin(v), 1)
  }

  lemma NaiveSellRests(v: real, rs: seq<Request>, n: Naive, id: string, m: Naive)
    requires NaiveReplay(NAIVE_INITIAL, rs) == n && n.buys == [] && m == n.(sells := n.sells + [ParQuote(v, id)])
    ensures NaiveReplay(NAIVE_INITIAL, rs + [ParSell(v, id)]) == m
  {
    NothingCrosses(n, ParSell(v, id));
    NaiveNext(rs, n, ParSell(v, id), m);
  }

  /** A buy of one takes the first of the sells when none of them is cheaper. */
  lemma SweepTakesFirst(w: Sweep, q: Quote, rest: seq<Quote>)
    requires w.taker == Buy && w.quote.qty == 1 && q.qty == 1 && w.book == [q] + rest && w.log == []
    requires Crosses(Buy, w.quote.price, q.price) && forall i :: 0 <= i < |rest| ==> !Below(rest[i].price, q.price)
    ensures RunSweep(w) == Sweep(Buy, w.quote.(qty := 0), rest, [Trade(w.quote.id, q.id, q.price, 1)])
  {
    FirstIsBest(q, rest);
    assert TakeAt(w.book, 0, 1) == rest;
    assert Finished(Pass(w)) && RunSweep(w) == Pass(w);
  }

  lemma BuyTakesFirst(n: Naive, r: Request, q: Quote, rest: seq<Quote>)
    requires !r.Cancel? && r.side == Buy && r.qty == 1 && q.qty == 1 && n.sells == [q] + rest
    requires Crosses(Buy, LimitPrice(r), q.price) && forall i :: 0 <= i < |rest| ==> !Below(rest[i].price, q.price)
    ensures NaiveApply(n, r) == Naive(n.buys, rest, n.trades + [Trade(r.id, q.id, q.price, 1)])
  {
    SweepTakesFirst(Open(n, r), q, rest);
  }

  lemma FirstIsBest(q: Quote, rest: seq<Quote>)
    requires forall i :: 0 <= i < |rest| ==> !Below(rest[i].price, q.price)
    ensures BestIndex(Buy, [q] + rest) == 0
  {
    forall i | 0 < i <= |rest|
      ensures !Better(Buy, ([q] + rest)[i].price, q.price)
    {
      assert ([q] + rest)[i] == rest[i - 1];
    }
    assert ([q] + rest)[0] == q;
  }

  lemma NaiveBuyTakes(rs: seq<Request>, n: Naive, r: Request, q: Quote, rest: seq<Quote>, m: Naive)
    requires NaiveReplay(NAIVE_INITIAL, rs) == n
    requires r.Limit? && r.side == Buy && r.qty == 1 && q.qty == 1 && n.sells == [q] + rest
    requires Crosses(Buy, r.price, q.price) && forall i :: 0 <= i < |rest| ==> !Below(rest[i].price, q.price)
    requires m == Naive(n.buys, rest, n.trades + [Trade(r.id, q.id, q.price, 1)])
    ensures NaiveReplay(NAIVE_INITIAL, rs + [r]) == m
  {
    BuyTakesFirst(n, r, q, rest);
    NaiveNext(rs, n, r, m);
  }

  lemma NaiveFourSells(v: real)
    ensures NaiveReplay(NAIVE_INITIAL, FourSells(v))
         == Naive([], [ParQuote(v, "a"), ParQuote(v, "b"), ParQuote(v, "c"), ParQuote(v, "d")], [])
  {
    var a, b, c, d := ParQuote(v, "a"), ParQuote(v, "b"), ParQuote(v, "c"), ParQuote(v, "d");
    var rs: seq<Request> := [];
    assert NaiveReplay(NAIVE_INITIAL, rs) == NAIVE_INITIAL;
    NaiveSellRests(v, rs, NAIVE_INITIAL, "a", Naive([], [a], []));
    rs := rs + [ParSell(v, "a")];
    NaiveSellRests(v, rs, Naive([], [a], []), "b", Naive([], [a, b], []));
    rs := rs + [ParSell(v, "b")];
    NaiveSellRests(v, rs, Naive([], [a, b], []), "c", Naive([], [a, b, c], []));
    rs := rs + [ParSell(v, "c")];
    NaiveSellRests(v, rs, Naive([], [a, b, c], []), "d", Naive([], [a, b, c, d], []));
  }

  lemma NaiveTakesOldest(v: real)
    ensures NaiveReplay(NAIVE_INITIAL, FourSells(v) + [ParBuy(v, "e")])
         == Naive([], [ParQuote(v, "b"), ParQuote(v, "c"), ParQuote(v, "d")], [Trade("e", "a", Fin(v), 1)])
  {
    var a, b, c, d := ParQuote(v, "a"), ParQuote(v, "b"), ParQuote(v, "c"), ParQuote(v, "d");
    NaiveFourSells(v);
    NaiveBuyTakes(FourSells(v), Naive([], [a, b, c, d], []), ParBuy(v, "e"), a, [b, c, d],
                  Naive([], [b, c, d], [Trade("e", "a", Fin(v), 1)]));
  }

  lemma NaiveOnParRun(v: real)
    ensures NaiveReplay(NAIVE_INITIAL, ParRun(v))
         == Naive([], [ParQuote(v, "d")], [Trade("e", "a", Fin(v), 1), Trade("f", "c", Fin(v), 1)])
  {
    var c, d, t := ParQuote(v, "c"), ParQuote(v, "d"), Trade("e", "a", Fin(v), 1);
    var rs := FourSells(v) + [ParBuy(v, "e")];
    NaiveTakesOldest(v);
    NaiveCancelSecond(v, rs, [t]);
    NaiveBuyTakes(rs + [Cancel("b")], Naive([], [c, d], [t]), ParBuy(v, "f"), c, [d],
                  Naive([], [d], [t, Trade("f", "c", Fin(v), 1)]));
  }

  lemma NaiveCancelSecond(v: real, rs: seq<Request>, t: seq<Trade>)
    requires NaiveReplay(NAIVE_INITIAL, rs) == Naive([], [ParQuote(v, "b"), ParQuote(v, "c"), ParQuote(v, "d")], t)
    ensures NaiveReplay(NAIVE_INITIAL, rs + [Cancel("b")]) == Naive([], [ParQuote(v, "c"), ParQuote(v, "d")], t)
  {
    CancelSecond(v, t);
    NaiveNext(rs, NaiveReplay(NAIVE_INITIAL, rs), Cancel("b"), Naive([], [ParQuote(v, "c"), ParQuote(v, "d")], t));
  }

  lemma CancelSecond(v: real, t: seq<Trade>)
    ensures NaiveApply(Naive([], [ParQuote(v, "b"), ParQuote(v, "c"), ParQuote(v, "d")], t), Cancel("b"))
         == Naive([], [ParQuote(v, "c"), ParQuote(v, "d")], t)
  {
    var b, c, d := ParQuote(v, "b"), ParQuote(v, "c"), ParQuote(v, "d");
    assert [b, c, d][1..] == [c, d] && [c, d][1..] == [d] && [d][1..] == [];
    assert Except([d], "b") == [d];
    assert Except([c, d], "b") == [c, d];
  }

  lemma UnrepeatedNext(rs: seq<Request>, r: Request)
    requires Unrepeated(rs) && (!r.Cancel? ==> !Submits(rs, r.id))
    ensures Unrepeated(rs + [r])
    ensures forall id :: Submits(rs + [r], id) <==> Submits(rs, id) || (!r.Cancel? && r.id == id)
  {
    assert (rs + [r])[..|rs|] == rs;
  }

  lemma ParRunIsUnrepeated(v: real)
    ensures Unrepeated(ParRun(v))
  {
    var rs: seq<Request> := [];
    UnrepeatedNext(rs, ParSell(v, "a"));
    rs := rs + [ParSell(v, "a")];
    UnrepeatedNext(rs, ParSell(v, "b"));
    rs := rs + [ParSell(v, "b")];
    UnrepeatedNext(rs, ParSell(v, "c"));
    rs := rs + [ParSell(v, "c")];
    UnrepeatedNext(rs, ParSell(v, "d"));
    rs := rs + [ParSell(v, "d")];
    UnrepeatedNext(rs, ParBuy(v, "e"));
    rs := rs + [ParBuy(v, "e")];
    UnrepeatedNext(rs, Cancel("b"));
    rs := rs + [Cancel("b")];
    UnrepeatedNext(rs, ParBuy(v, "f"));
  }

  lemma ParRunIsPriced(v: real)
    ensures PricedAt(ParRun(v), Fin(v))
  {
  }

  lemma ReferenceTradesOnParRun(v: real)
    ensures Trades(Replay(AsWritten, INITIAL, ParRun(v)).fills)
            == [Trade("e", "a", Fin(v), 1), Trade("f", "d", Fin(v), 1)]
  {
    ReferenceOnParRun(v);
  }

  lemma ContestantOnParRun(v: real)
    ensures Made(ParRun(v)) == [Trade("e", "a", Fin(v), 1), Trade("f", "c", Fin(v), 1)]
  {
    ParRunIsUnrepeated(v);
    ParRunIsPriced(v);
    CommonPriceIsAgreeable(ParRun(v), Fin(v));
    var at := TogetherOrParted(ParRun(v));
    NaiveOnParRun(v);
  }

  lemma OtherFillsOtherAcks(rs: seq<Request>)
    requires Made(rs) != Trades(Replay(AsWritten, INITIAL, rs).fills)
    ensures ListAcks(LISTS_INITIAL, rs) != ReferenceAcks(AsWritten, INITIAL, rs)
  {
    LogIsCollected(AsWritten, rs);
  }

  /** Every request at one price is agreeable, and the contestant serves this run in order of arrival.
      The reference engine does not: the cancel has left its list out of heap order. */
  lemma EnginesPartAtOnePrice(v: real)
    ensures Unrepeated(ParRun(v)) && PricedAt(ParRun(v), Fin(v))
    ensures Made(ParRun(v)) == [Trade("e", "a", Fin(v), 1), Trade("f", "c", Fin(v), 1)]
    ensures Trades(Replay(AsWritten, INITIAL, ParRun(v)).fills)
            == [Trade("e", "a", Fin(v), 1), Trade("f", "d", Fin(v), 1)]
    ensures ListAcks(LISTS_INITIAL, ParRun(v)) != ReferenceAcks(AsWritten, INITIAL, ParRun(v))
  {
    ParRunIsUnrepeated(v);
    ParRunIsPriced(v);
    ContestantOnParRun(v);
    ReferenceTradesOnParRun(v);
    assert Made(ParRun(v))[1] == Trade("f", "c", Fin(v), 1) != Trade("f", "d", Fin(v), 1);
    OtherFillsOtherAcks(ParRun(v));
  }

  // ----- With an id submitted again -----

  function Ask(id: string, v: real): Request {
    Limit(id, Sell, Fin(v), 1)
  }

  function Bid(id: string, v: real): Request {
    Limit(id, Buy, Fin(v), 1)
  }

  /** Two levels and a buy between them; then the buy and the dearer sell are cancelled, and the buy
      comes in again under the same id. */
  function ReuseRun(v: real): seq<Request> {
    ReuseStart(v) + [Cancel("c")] + [Cancel("b")] + [Bid("c", v + 2.0)]
  }

  function TwoAsks(v: real): seq<Request> {
    [] + [Ask("a", v)] + [Ask("b", v + 5.0)]
  }

  function ReuseStart(v: real): seq<Request> {
    TwoAsks(v) + [Bid("c", v + 2.0)]
  }

  lemma NaiveAskRests(rs: seq<Request>, n: Naive, id: string, v: real, m: Naive)
    requires NaiveReplay(NAIVE_INITIAL, rs) == n && n.buys == [] && m == n.(sells := n.sells + [Quote(id, Fin(v), 1)])
    ensures NaiveReplay(NAIVE_INITIAL, rs + [Ask(id, v)]) == m
  {
    NothingCrosses(n, Ask(id, v));
    NaiveNext(rs, n, Ask(id, v), m);
  }

  lemma NaiveTwoAsks(v: real)
    ensures NaiveReplay(NAIVE_INITIAL, TwoAsks(v))
            == Naive([], [Quote("a", Fin(v), 1), Quote("b", Fin(v + 5.0), 1)], [])
  {
    var a, b := Quote("a", Fin(v), 1), Quote("b", Fin(v + 5.0), 1);
    NaiveAskRests([], NAIVE_INITIAL, "a", v, Naive([], [a], []));
    NaiveAskRests([] + [Ask("a", v)], Naive([], [a], []), "b", v + 5.0, Naive([], [a, b], []));
  }

  lemma NaiveCancels(rs: seq<Request>, n: Naive, id: string, m: Naive)
    requires NaiveReplay(NAIVE_INITIAL, rs) == n && m == Naive(Except(n.buys, id), Except(n.sells, id), n.trades)
    ensures NaiveReplay(NAIVE_INITIAL, rs + [Cancel(id)]) == m
  {
    NaiveNext(rs, n, Cancel(id), m);
  }

  lemma ExceptOne(q: Quote, id: string)
    ensures Except([], id) == [] && Except([q], id) == if q.id == id then [] else [q]
  {
    assert [q][1..] == [];
  }

  lemma NaiveTakesEarly(v: real)
    ensures NaiveReplay(NAIVE_INITIAL, ReuseStart(v))
         == Naive([], [Quote("b", Fin(v + 5.0), 1)], [Trade("c", "a", Fin(v), 1)])
  {
    var a, b, t := Quote("a", Fin(v), 1), Quote("b", Fin(v + 5.0), 1), Trade("c", "a", Fin(v), 1);
    NaiveTwoAsks(v);
    NaiveBuyTakes(TwoAsks(v), Naive([], [a, b], []), Bid("c", v + 2.0), a, [b], Naive([], [b], [t]));
  }

  lemma NaiveIsEmptied(v: real)
    ensures NaiveReplay(NAIVE_INITIAL, ReuseStart(v) + [Cancel("c")] + [Cancel("b")])
         == Naive([], [], [Trade("c", "a", Fin(v), 1)])
  {
    var b, t := Quote("b", Fin(v + 5.0), 1), Trade("c", "a", Fin(v), 1);
    var rs := ReuseStart(v);
    NaiveTakesEarly(v);
    ExceptOne(b, "c");
    NaiveCancels(rs, Naive([], [b], [t]), "c", Naive([], [b], [t]));
    rs := rs + [Cancel("c")];
    ExceptOne(b, "b");
    NaiveCancels(rs, Naive([], [b], [t]), "b", Naive([], [], [t]));
  }

  lemma NaiveOnReuseRun(v: real)
    ensures Wanted(ReuseRun(v)) == [Trade("c", "a", Fin(v), 1)]
  {
    NaiveIsEmptied(v);
    NothingCrosses(Naive([], [], [Trade("c", "a", Fin(v), 1)]), Bid("c", v + 2.0));
    WantedNext(ReuseStart(v) + [Cancel("c")] + [Cancel("b")], Bid("c", v + 2.0));
  }

  lemma ListNext(rs: seq<Request>, l: Lists, r: Request, m: Lists, made: seq<Trade>)
    requires ListReplay(LISTS_INITIAL, rs) == l && Made(rs) == made && ListApply(l, r) == m && ListReturned(l, r) == []
    ensures ListReplay(LISTS_INITIAL, rs + [r]) == m && Made(rs + [r]) == made
  {
    MadeNext(rs, r);
    assert made + [] == made;
  }

  lemma ListAskRests(rs: seq<Request>, l: Lists, id: string, v: real, m: Lists)
    requires ListReplay(LISTS_INITIAL, rs) == l && l.buys == [] && Made(rs) == []
    requires m == Lists([], l.sells + [Order(id, Sell, Fin(v), 1, l.clock + 1)],
                        l.index[id := Ticket(Sell, l.clock + 1)], l.clock + 1)
    ensures ListReplay(LISTS_INITIAL, rs + [Ask(id, v)]) == m && Made(rs + [Ask(id, v)]) == []
  {
    ListNext(rs, l, Ask(id, v), m, []);
  }

  function AskOrder(id: string, v: real, ts: nat): Order {
    Order(id, Sell, Fin(v), 1, ts)
  }

  function ListsAsked(v: real): Lists {
    Lists([], [AskOrder("a", v, 1), AskOrder("b", v + 5.0, 2)], map["a" := Ticket(Sell, 1), "b" := Ticket(Sell, 2)], 2)
  }

  /** The contestant turns to the dearer sell, which the buy cannot reach, and lets it rest. */
  function ListsBid(v: real): Lists {
    Lists([Order("c", Buy, Fin(v + 2.0), 1, 3)], [AskOrder("b", v + 5.0, 2), AskOrder("a", v, 1)],
          map["a" := Ticket(Sell, 1), "b" := Ticket(Sell, 2), "c" := Ticket(Buy, 3)], 3)
  }

  function ListsUnbid(v: real): Lists {
    Lists([], [AskOrder("b", v + 5.0, 2), AskOrder("a", v, 1)], map["a" := Ticket(Sell, 1), "b" := Ticket(Sell, 2)], 3)
  }

  function ListsLone(v: real): Lists {
    Lists([], [AskOrder("a", v, 1)], map["a" := Ticket(Sell, 1)], 3)
  }

  lemma ListTwoAsks(v: real)
    ensures ListReplay(LISTS_INITIAL, TwoAsks(v)) == ListsAsked(v) && Made(TwoAsks(v)) == []
  {
    var l := Lists([], [AskOrder("a", v, 1)], map["a" := Ticket(Sell, 1)], 1);
    ListAskRests([], LISTS_INITIAL, "a", v, l);
    ListAskRests([] + [Ask("a", v)], l, "b", v + 5.0, ListsAsked(v));
  }

  lemma SortTwo(taker: Side, o: Order, p: Order)
    requires Less(TakerKey(taker, p), TakerKey(taker, o))
    ensures SortFor(taker, [o, p]) == [p, o]
  {
    assert [o, p][1..] == [p] && [p][1..] == [];
    assert SortFor(taker, [p]) == [p];
    assert InsertBy(taker, [p], o) == [p] + InsertBy(taker, [], o);
  }

  lemma BidRests(v: real)
    ensures ListApply(ListsAsked(v), Bid("c", v + 2.0)) == ListsBid(v)
            && ListReturned(ListsAsked(v), Bid("c", v + 2.0)) == []
  {
    var p := Enter(ListsAsked(v), "c", Buy, Fin(v + 2.0), 1);
    SortTwo(Buy, AskOrder("a", v, 1), AskOrder("b", v + 5.0, 2));
    assert Blocked(p);
  }

  lemma WithoutOne(o: Order, id: string)
    ensures Without([o], id) == if o.id == id then [] else [o]
  {
    assert [o][1..] == [];
  }

  lemma BidIsCancelled(v: real)
    ensures ListApply(ListsBid(v), Cancel("c")) == ListsUnbid(v)
  {
    WithoutOne(Order("c", Buy, Fin(v + 2.0), 1, 3), "c");
    assert ListsBid(v).index - {"c"} == ListsUnbid(v).index;
  }

  lemma AskIsCancelled(v: real)
    ensures ListApply(ListsUnbid(v), Cancel("b")) == ListsLone(v)
  {
    WithoutOne(AskOrder("a", v, 1), "b");
    assert ListsUnbid(v).sells[1..] == [AskOrder("a", v, 1)];
    assert ListsUnbid(v).index - {"b"} == ListsLone(v).index;
  }

  lemma ContestantPassesOver(v: real)
    ensures ListReplay(LISTS_INITIAL, ReuseStart(v)) == ListsBid(v) && Made(ReuseStart(v)) == []
  {
    ListTwoAsks(v);
    BidRests(v);
    ListNext(TwoAsks(v), ListsAsked(v), Bid("c", v + 2.0), ListsBid(v), []);
  }

  lemma ContestantKeepsOne(v: real)
    ensures ListReplay(LISTS_INITIAL, ReuseStart(v) + [Cancel("c")] + [Cancel("b")]) == ListsLone(v)
    ensures Made(ReuseStart(v) + [Cancel("c")] + [Cancel("b")]) == []
  {
    var rs := ReuseStart(v);
    ContestantPassesOver(v);
    BidIsCancelled(v);
    ListNext(rs, ListsBid(v), Cancel("c"), ListsUnbid(v), []);
    AskIsCancelled(v);
    ListNext(rs + [Cancel("c")], ListsUnbid(v), Cancel("b"), ListsLone(v), []);
  }

  lemma ContestantOnReuseRun(v: real)
    ensures Made(ReuseRun(v)) == [Trade("c", "a", Fin(v), 1)]
  {
    ContestantKeepsOne(v);
    LoneSellTaken(ListsLone(v), Bid("c", v + 2.0));
    MadeNext(ReuseStart(v) + [Cancel("c")] + [Cancel("b")], Bid("c", v + 2.0));
  }

  lemma BetweenTwoLevels(n: Naive, r: Request, near: Quote, far: Quote)
    requires r.Limit? && r.side == Buy && r.qty > 0 && n.sells == [near, far]
    requires Crosses(Buy, r.price, near.price) && near.price != far.price
    ensures !Agreeable(n, r)
  {
    assert n.sells[0] == near && n.sells[1] == far;
  }

  lemma BidIsNotAgreeable(v: real)
    ensures !Agreeable(NaiveReplay(NAIVE_INITIAL, TwoAsks(v)), Bid("c", v + 2.0))
  {
    NaiveTwoAsks(v);
    BetweenTwoLevels(NaiveReplay(NAIVE_INITIAL, TwoAsks(v)), Bid("c", v + 2.0),
                     Quote("a", Fin(v), 1), Quote("b", Fin(v + 5.0), 1));
  }

  lemma {:induction false} DisagreementRemains(rs: seq<Request>, more: seq<Request>)
    requires !AllAgreeable(NAIVE_INITIAL, rs)
    ensures !AllAgreeable(NAIVE_INITIAL, rs + more)
  {
    if more == [] {
      assert rs + more == rs;
    } else {
      var before, r := more[..|more| - 1], more[|more| - 1];
      DisagreementRemains(rs, before);
      NotAllAgreeable(rs + before, r);
      assert rs + before + [r] == rs + more;
    }
  }

  /** Lists of at most one order, which are heaps whatever is filtered out of them. */
  ghost predicate Short(s: State) {
    |s.buys| <= 1 && |s.sells| <= 1
  }

  lemma {:induction false} WithoutIsNoLonger(book: seq<Order>, id: string)
    ensures |Without(book, id)| <= |book|
  {
    if book != [] {
      WithoutIsNoLonger(book[1..], id);
    }
  }

  lemma ShortCancel(rs: seq<Request>, id: string, s: State, t: State)
    requires s == Replay(AsWritten, INITIAL, rs) && t == CancelOrder(AsWritten, s, id) && Short(s)
    requires FreshIds(AsWritten, INITIAL, rs) && HeapKept(AsWritten, INITIAL, rs)
    ensures Replay(AsWritten, INITIAL, rs + [Cancel(id)]) == t && Short(t) && t.index.Keys == s.index.Keys - {id}
    ensures FreshIds(AsWritten, INITIAL, rs + [Cancel(id)]) && HeapKept(AsWritten, INITIAL, rs + [Cancel(id)])
  {
    ReplayOne(INITIAL, rs, Cancel(id));
    assert (rs + [Cancel(id)])[..|rs|] == rs;
    WithoutIsNoLonger(s.buys, id);
    WithoutIsNoLonger(s.sells, id);
  }

  lemma ReuseStartIsShort(v: real)
    ensures FreshIds(AsWritten, INITIAL, ReuseStart(v)) && HeapKept(AsWritten, INITIAL, ReuseStart(v))
    ensures Short(Replay(AsWritten, INITIAL, ReuseStart(v)))
  {
    UnrepeatedNext([], Ask("a", v));
    UnrepeatedNext([] + [Ask("a", v)], Ask("b", v + 5.0));
    UnrepeatedNext(TwoAsks(v), Bid("c", v + 2.0));
    UnrepeatedIsFresh(AsWritten, ReuseStart(v));
    CancelFreeKeepsHeap(AsWritten, INITIAL, ReuseStart(v));
    ReferenceAcksAreNaive(AsWritten, ReuseStart(v));
    NaiveTakesEarly(v);
    MirrorsAreAsLong(Replay(AsWritten, INITIAL, ReuseStart(v)), NaiveReplay(NAIVE_INITIAL, ReuseStart(v)));
  }

  lemma MirrorsAreAsLong(s: State, n: Naive)
    requires Mirrors(s, n)
    ensures |s.buys| == |n.buys| && |s.sells| == |n.sells|
  {
    assert |multiset(ByArrival(s.buys))| == |multiset(s.buys)|;
    assert |multiset(ByArrival(s.sells))| == |multiset(s.sells)|;
  }

  lemma ReuseRunIsFresh(v: real)
    ensures FreshIds(AsWritten, INITIAL, ReuseRun(v)) && HeapKept(AsWritten, INITIAL, ReuseRun(v))
  {
    var rs := ReuseStart(v);
    ReuseStartIsShort(v);
    var s := Replay(AsWritten, INITIAL, rs);
    var t := CancelOrder(AsWritten, s, "c");
    ShortCancel(rs, "c", s, t);
    rs := rs + [Cancel("c")];
    ShortCancel(rs, "b", t, CancelOrder(AsWritten, t, "b"));
    rs := rs + [Cancel("b")];
    assert (rs + [Bid("c", v + 2.0)])[..|rs|] == rs;
  }

  /** Ids fresh while live are not enough for the rate to tell, even with heap order kept throughout:
      here the contestant misses a trade, and the cancelled id, submitted again, makes the very same
      trade up. */
  lemma ReusedIdHidesDisagreement(v: real, events: nat)
    requires events > 0
    ensures FreshIds(AsWritten, INITIAL, ReuseRun(v)) && HeapKept(AsWritten, INITIAL, ReuseRun(v))
    ensures !AllAgreeable(NAIVE_INITIAL, ReuseRun(v))
    ensures Judgement(Trades(Replay(AsWritten, INITIAL, ReuseRun(v)).fills), Made(ReuseRun(v)), events, |ReuseRun(v)|)
         == 1.0
  {
    ReuseRunIsFresh(v);
    ReferenceAcksAreNaive(AsWritten, ReuseRun(v));
    NaiveOnReuseRun(v);
    ContestantOnReuseRun(v);
    JudgementIsPerfectIff(Wanted(ReuseRun(v)), Made(ReuseRun(v)), events, |ReuseRun(v)|);
    ReuseRunIsNotAgreeable(v);
  }

  lemma ReuseRunIsNotAgreeable(v: real)
    ensures !AllAgreeable(NAIVE_INITIAL, ReuseRun(v))
  {
    BidIsNotAgreeable(v);
    NotAllAgreeable(TwoAsks(v), Bid("c", v + 2.0));
    var more := [Cancel("c"), Cancel("b"), Bid("c", v + 2.0)];
    DisagreementRemains(ReuseStart(v), more);
    assert ReuseRun(v) == ReuseStart(v) + more;
  }

  // ----- With an id submitted while it is live -----

  function TwiceSold(): State {
    State([], [WitnessOrder("a", 5.0, 1), WitnessOrder("a", 6.0, 2)], map["a" := 2], [], 2)
  }

  function OnceBought(): State {
    State([], [WitnessOrder("a", 6.0, 2)], map[], [Fill("b", "a", Fin(5.0), 1, 4)], 4)
  }

  function OnceSold(): State {
    State([], [WitnessOrder("a", 5.0, 1)], map["a" := 1], [], 1)
  }

  lemma FirstSellRests()
    ensures AddLimit(INITIAL, "a", Sell, Fin(5.0), 1) == OnceSold()
  {
    LastIsAppended([], WitnessOrder("a", 5.0, 1));
    SellRests(INITIAL, "a", 5.0);
  }

  lemma SecondSellRests()
    ensures AddLimit(OnceSold(), "a", Sell, Fin(6.0), 1) == TwiceSold()
  {
    LastIsAppended(OnceSold().sells, WitnessOrder("a", 6.0, 2));
    SellRests(OnceSold(), "a", 6.0);
  }

  lemma FirstBuyTakesCheaper()
    ensures AddLimit(TwiceSold(), "b", Buy, Fin(10.0), 1) == OnceBought()
  {
    var m := Arrive(TwiceSold(), "b", Buy, Fin(10.0), 1);
    assert Pop(m.book) == [WitnessOrder("a", 6.0, 2)];
    ExactTake(m);
    assert Step(m).index - {"b"} == map[];
  }

  lemma SecondBuyDropsOther()
    ensures AddLimit(OnceBought(), "c", Buy, Fin(10.0), 1)
         == State([Order("c", Buy, Fin(10.0), 1, 5)], [], map["c" := 5], OnceBought().fills, 5)
  {
    var m := Arrive(OnceBought(), "c", Buy, Fin(10.0), 1);
    assert Step(m) == m.(book := []) && Stopped(Step(m)) && Run(m) == Step(m);
  }

  /** Two sells under one id, at 5 and 6, and two buys at 10: the fill of the first takes the id out of the
      index, so that the second sell, still resting, is dropped unfilled, and the second buy rests. Of the
      two sold units one was traded, none rests and none was cancelled: ids fresh while live are what
      conservation and refinement need. */
  lemma ReusedLiveIdVanishes()
    ensures AddLimit(AddLimit(INITIAL, "a", Sell, Fin(5.0), 1), "a", Sell, Fin(6.0), 1) == TwiceSold()
    ensures AddLimit(AddLimit(TwiceSold(), "b", Buy, Fin(10.0), 1), "c", Buy, Fin(10.0), 1)
         == State([Order("c", Buy, Fin(10.0), 1, 5)], [], map["c" := 5], [Fill("b", "a", Fin(5.0), 1, 4)], 5)
  {
    FirstSellRests();
    SecondSellRests();
    FirstBuyTakesCheaper();
    SecondBuyDropsOther();
  }
}
