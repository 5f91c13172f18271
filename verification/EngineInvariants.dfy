/** What every request keeps, with cancels exactly as the engine performs them: the index agrees
    with the books, resting quantities are positive, and quantity is conserved. */
module EngineInvariants {
  import opened Trading
  import opened Bags
  import opened Heapq
  import opened ReferenceEngine

  /** The live orders by id. */
  type LiveMap = map<string, Order>

  /** The index names exactly the live orders and maps each id to that very order; no two live
      orders share a sequence number. */
  ghost predicate Agrees(live: LiveMap, index: map<string, nat>, clock: nat) {
    && index.Keys == live.Keys
    && (forall id :: id in live ==> live[id].id == id && index[id] == live[id].ts && live[id].ts <= clock)
    && (forall i, j :: i in live && j in live && live[i].ts == live[j].ts ==> i == j)
  }

  ghost predicate IsLive(live: LiveMap, o: Order) {
    o.id in live && live[o.id] == o
  }

  /** The lists behind `all` hold each live order once and nothing else. */
  ghost predicate Exactly(all: multiset<Order>, live: LiveMap) {
    forall o :: all[o] == if IsLive(live, o) then 1 else 0
  }

  ghost predicate Sound(book: multiset<Order>, side: Side) {
    forall o :: o in book ==> o.side == side && o.qty > 0
  }

  ghost function Both(s: State): multiset<Order> {
    multiset(s.buys) + multiset(s.sells)
  }

  ghost predicate ValidWith(s: State, live: LiveMap) {
    && Exactly(Both(s), live)
    && Agrees(live, s.index, s.clock)
    && Sound(multiset(s.buys), Buy)
    && Sound(multiset(s.sells), Sell)
  }

  /** Between requests: the keys of the index are exactly the ids resting in the two books, each
      resting once, on its own side, with a positive quantity, and indexed as that very order. */
  ghost predicate Valid(s: State) {
    exists live :: ValidWith(s, live)
  }

  /** Everything live while an order is matched; `own` is the book of its own side. */
  ghost function AllLive(m: Matching, own: multiset<Order>): multiset<Order> {
    multiset(m.book) + own + multiset{m.incoming}
  }

  ghost predicate ValidMatching(m: Matching, own: multiset<Order>, live: LiveMap) {
    && Exactly(AllLive(m, own), live)
    && Agrees(live, m.index, m.clock)
    && Sound(multiset(m.book), m.incoming.side.Opposite())
    && Sound(own, m.incoming.side)
  }

  lemma ExactlyReplace(all: multiset<Order>, live: LiveMap, o: Order, p: Order)
    requires Exactly(all, live) && IsLive(live, o) && p.id == o.id
    ensures Exactly(all - multiset{o} + multiset{p}, live[o.id := p])
  {
    assert all[o] == 1;
    assert p != o ==> all[p] == 0;
    var after := all - multiset{o} + multiset{p};
    forall q
      ensures after[q] == if IsLive(live[o.id := p], q) then 1 else 0
    {
      assert q != o && q != p ==> after[q] == all[q];
    }
  }

  lemma ExactlyWith(all: multiset<Order>, live: LiveMap, o: Order)
    requires Exactly(all, live) && o.id !in live
    ensures Exactly(all + multiset{o}, live[o.id := o])
  {
    assert all[o] == 0;
  }

  lemma ExactlyWithout(others: multiset<Order>, live: LiveMap, o: Order)
    requires Exactly(others + multiset{o}, live)
    ensures Exactly(others, live - {o.id})
  {
    forall p
      ensures others[p] == if IsLive(live - {o.id}, p) then 1 else 0
    {
      assert (others + multiset{o})[p] == others[p] + if p == o then 1 else 0;
      assert (others + multiset{o})[o] == others[o] + 1;
    }
  }

  lemma AgreesReplace(live: LiveMap, index: map<string, nat>, clock: nat, clock': nat, o: Order, p: Order)
    requires Agrees(live, index, clock) && IsLive(live, o) && p.id == o.id && p.ts == o.ts && clock <= clock'
    ensures Agrees(live[o.id := p], index, clock')
  {
  }

  lemma AgreesWithout(live: LiveMap, index: map<string, nat>, clock: nat, id: string)
    requires Agrees(live, index, clock)
    ensures Agrees(live - {id}, index - {id}, clock)
  {
  }

  lemma AgreesWith(live: LiveMap, index: map<string, nat>, clock: nat, o: Order)
    requires Agrees(live, index, clock) && o.id !in live && o.ts > clock
    ensures Agrees(live[o.id := o], index[o.id := o.ts], o.ts)
  {
  }

  lemma SoundWith(book: multiset<Order>, o: Order, side: Side)
    requires Sound(book, side) && o.side == side && o.qty > 0
    ensures Sound(book + multiset{o}, side)
  {
  }

  lemma SoundWithin(book: multiset<Order>, part: multiset<Order>, side: Side)
    requires Sound(book, side) && part <= book
    ensures Sound(part, side)
  {
    assert forall o :: o in part ==> part[o] <= book[o];
  }

  /** The branch of the match loop that drops an unindexed order is never taken. */
  lemma BestIsIndexed(m: Matching, own: multiset<Order>, live: LiveMap)
    requires ValidMatching(m, own, live) && m.book != []
    ensures IsLive(live, m.book[0]) && m.book[0].id in m.index && m.book[0].id != m.incoming.id
    ensures m.book[0].side == m.incoming.side.Opposite() && m.book[0].qty > 0
  {
    var best := m.book[0];
    assert best in multiset(m.book);
    assert AllLive(m, own)[best] >= multiset(m.book)[best] + multiset{m.incoming}[best];
    IncomingIsLive(m, own, live);
  }

  lemma IncomingIsLive(m: Matching, own: multiset<Order>, live: LiveMap)
    requires ValidMatching(m, own, live)
    ensures IsLive(live, m.incoming)
  {
    assert AllLive(m, own)[m.incoming] > 0;
  }

  /** The multisets of one pass: the two parties give way to what is left of them. */
  lemma StepMultisets(m: Matching, own: multiset<Order>)
    requires !Stopped(m) && m.book[0].id in m.index
    ensures var best, r := m.book[0], Step(m);
            var left := Reduced(best, Min(m.incoming.qty, best.qty));
            var mid := AllLive(m, own) - multiset{m.incoming} + multiset{r.incoming} - multiset{best};
            AllLive(r, own) == if left.qty > 0 then mid + multiset{left} else mid
  {
    var best, rest, inc' := m.book[0], multiset(Pop(m.book)), Step(m).incoming;
    calc {
      AllLive(m, own);
      rest + multiset{best} + own + multiset{m.incoming};
      (rest + own) + multiset{best} + multiset{m.incoming};
    }
    MultisetTrade(rest + own, best, m.incoming, inc');
  }

  lemma StepKeepsSound(m: Matching, own: multiset<Order>)
    requires Sound(multiset(m.book), m.incoming.side.Opposite()) && !Stopped(m)
    ensures Sound(multiset(Step(m).book), m.incoming.side.Opposite())
  {
    var best, rest := m.book[0], multiset(Pop(m.book));
    assert best in multiset(m.book);
    SoundWithin(multiset(m.book), rest, best.side);
    var left := Reduced(best, Min(m.incoming.qty, best.qty));
    if left.qty > 0 {
      SoundWith(rest, left, best.side);
    }
  }

  lemma StepKeepsValid(m: Matching, own: multiset<Order>, live: LiveMap) returns (after: LiveMap)
    requires ValidMatching(m, own, live) && !Stopped(m)
    ensures ValidMatching(Step(m), own, after)
  {
    BestIsIndexed(m, own, live);
    IncomingIsLive(m, own, live);
    StepMultisets(m, own);
    StepKeepsSound(m, own);
    var best, r, all := m.book[0], Step(m), AllLive(m, own);
    var left := Reduced(best, Min(m.incoming.qty, best.qty));
    ExactlyReplace(all, live, m.incoming, r.incoming);
    AgreesReplace(live, m.index, m.clock, r.clock, m.incoming, r.incoming);
    var mid, mids := all - multiset{m.incoming} + multiset{r.incoming}, live[m.incoming.id := r.incoming];
    if left.qty > 0 {
      ExactlyReplace(mid, mids, best, left);
      AgreesReplace(mids, m.index, r.clock, r.clock, best, left);
      after := mids[best.id := left];
    } else {
      assert IsLive(mids, best) && mid[best] == 1;
      MultisetPart(mid, best);
      ExactlyWithout(mid - multiset{best}, mids, best);
      AgreesWithout(mids, m.index, r.clock, best.id);
      after := mids - {best.id};
    }
  }

  lemma {:induction false} RunKeepsValid(m: Matching, own: multiset<Order>, live: LiveMap) returns (after: LiveMap)
    requires ValidMatching(m, own, live)
    ensures ValidMatching(Run(m), own, after)
    decreases |m.book|, m.incoming.qty > 0
  {
    if Stopped(m) {
      after := live;
    } else {
      after := StepKeepsValid(m, own, live);
      after := RunKeepsValid(Step(m), own, after);
    }
  }

  lemma BothSides(s: State, side: Side)
    ensures multiset(Book(s, side.Opposite())) + multiset(Book(s, side)) == Both(s)
  {
    Commute(multiset(s.buys), multiset(s.sells));
  }

  lemma ArriveMultisets(s: State, id: string, side: Side, price: Price, qty: int)
    ensures var m := Arrive(s, id, side, price, qty);
            AllLive(m, multiset(Book(s, side))) == Both(s) + multiset{m.incoming}
  {
    BothSides(s, side);
  }

  lemma ArriveIsValid(s: State, id: string, side: Side, price: Price, qty: int) returns (live: LiveMap)
    requires Valid(s) && id !in s.index
    ensures ValidMatching(Arrive(s, id, side, price, qty), multiset(Book(s, side)), live)
  {
    var before :| ValidWith(s, before);
    var m := Arrive(s, id, side, price, qty);
    live := before[id := m.incoming];
    ExactlyWith(Both(s), before, m.incoming);
    AgreesWith(before, s.index, s.clock, m.incoming);
    ArriveMultisets(s, id, side, price, qty);
    SoundBooks(s, side);
  }

  lemma SoundBooks(s: State, side: Side)
    requires Sound(multiset(s.buys), Buy) && Sound(multiset(s.sells), Sell)
    ensures Sound(multiset(Book(s, side)), side) && Sound(multiset(Book(s, side.Opposite())), side.Opposite())
  {
  }

  lemma SettleMultisets(s: State, m: Matching)
    ensures var own := multiset(Book(s, m.incoming.side));
            Both(Settle(s, m)) == if m.incoming.qty > 0 then AllLive(m, own) else multiset(m.book) + own
  {
    var r, own := Settle(s, m), multiset(Book(s, m.incoming.side));
    BothSides(r, m.incoming.side);
    if m.incoming.qty > 0 {
      assert multiset(m.book) + (own + multiset{m.incoming}) == AllLive(m, own);
    }
  }

  lemma SettleIsSound(s: State, m: Matching)
    requires Sound(multiset(m.book), m.incoming.side.Opposite())
             && Sound(multiset(Book(s, m.incoming.side)), m.incoming.side)
    ensures Sound(multiset(Settle(s, m).buys), Buy) && Sound(multiset(Settle(s, m).sells), Sell)
  {
    if m.incoming.qty > 0 {
      SoundWith(multiset(Book(s, m.incoming.side)), m.incoming, m.incoming.side);
    }
  }

  /** Settling a finished match: what is left of the incoming order rests, or leaves the index. */
  lemma SettleKeepsValid(s: State, m: Matching, live: LiveMap)
    requires ValidMatching(m, multiset(Book(s, m.incoming.side)), live)
    ensures Valid(Settle(s, m))
  {
    var r, own := Settle(s, m), multiset(Book(s, m.incoming.side));
    IncomingIsLive(m, own, live);
    SettleIsSound(s, m);
    SettleMultisets(s, m);
    if m.incoming.qty > 0 {
      assert ValidWith(r, live);
    } else {
      ExactlyWithout(Both(r), live, m.incoming);
      AgreesWithout(live, m.index, m.clock, m.incoming.id);
      assert ValidWith(r, live - {m.incoming.id});
    }
  }

  lemma AddLimitKeepsValid(s: State, id: string, side: Side, price: Price, qty: int)
    requires Valid(s) && id !in s.index
    ensures Valid(AddLimit(s, id, side, price, qty))
  {
    var start, own := Arrive(s, id, side, price, qty), multiset(Book(s, side));
    var live := ArriveIsValid(s, id, side, price, qty);
    live := RunKeepsValid(start, own, live);
    RunKeepsTaker(start);
    SettleKeepsValid(s, Run(start), live);
  }

  /** Matching only lowers the quantity of the incoming order. */
  lemma {:induction false} RunKeepsTaker(m: Matching)
    ensures Run(m).incoming == m.incoming.(qty := Run(m).incoming.qty)
    decreases |m.book|, m.incoming.qty > 0
  {
    if !Stopped(m) {
      RunKeepsTaker(Step(m));
    }
  }

  lemma {:induction false} WithoutElements(book: seq<Order>, id: string)
    ensures forall o :: multiset(Without(book, id))[o] == if o.id == id then 0 else multiset(book)[o]
  {
    if book != [] {
      WithoutElements(book[1..], id);
      assert book == [book[0]] + book[1..];
    }
  }

  lemma FilteredElements(mode: CancelMode, book: seq<Order>, id: string)
    ensures forall o :: multiset(Filtered(mode, book, id))[o] == if o.id == id then 0 else multiset(book)[o]
  {
    WithoutElements(book, id);
  }

  /** Filtering both lists removes the one resting order of that id. */
  lemma FilteredExactly(mode: CancelMode, s: State, live: LiveMap, id: string)
    requires Exactly(Both(s), live)
    ensures Exactly(multiset(Filtered(mode, s.buys, id)) + multiset(Filtered(mode, s.sells, id)), live - {id})
  {
    var buys, sells := multiset(Filtered(mode, s.buys, id)), multiset(Filtered(mode, s.sells, id));
    FilteredElements(mode, s.buys, id);
    FilteredElements(mode, s.sells, id);
    forall p
      ensures (buys + sells)[p] == if IsLive(live - {id}, p) then 1 else 0
    {
      assert buys[p] + sells[p] == if p.id == id then 0 else Both(s)[p];
    }
  }

  lemma FilteredIsSound(mode: CancelMode, book: seq<Order>, id: string, side: Side)
    requires Sound(multiset(book), side)
    ensures Sound(multiset(Filtered(mode, book, id)), side)
  {
    FilteredElements(mode, book, id);
    assert forall p :: p in multiset(Filtered(mode, book, id)) ==> p in multiset(book);
  }

  lemma CancelKeepsValid(mode: CancelMode, s: State, id: string)
    requires Valid(s)
    ensures Valid(CancelOrder(mode, s, id))
  {
    if id in s.index {
      var r := CancelOrder(mode, s, id);
      var live :| ValidWith(s, live);
      FilteredExactly(mode, s, live, id);
      AgreesWithout(live, s.index, s.clock, id);
      FilteredIsSound(mode, s.buys, id, Buy);
      FilteredIsSound(mode, s.sells, id, Sell);
      assert ValidWith(r, live - {id});
    }
  }

  lemma InitialIsValid()
    ensures Valid(INITIAL)
  {
    assert ValidWith(INITIAL, map[]);
  }

  /** Index agreement in every reachable state, whatever cancels do to heap order. */
  lemma {:induction false} ReplayKeepsValid(mode: CancelMode, s: State, rs: seq<Request>)
    requires Valid(s) && FreshIds(mode, s, rs)
    ensures Valid(Replay(mode, s, rs))
  {
    if rs != [] {
      var before, r := Replay(mode, s, rs[..|rs| - 1]), rs[|rs| - 1];
      ReplayKeepsValid(mode, s, rs[..|rs| - 1]);
      if r.Cancel? {
        CancelKeepsValid(mode, before, r.id);
      } else {
        AddLimitKeepsValid(before, r.id, r.side, LimitPrice(r), r.qty);
      }
    }
  }

  /** Each indexed id rests, and each resting order is alone under its id, rests once and on its own
      side, has quantity left, and is what the index maps its id to. */
  ghost predicate IndexExact(s: State) {
    && (forall id :: id in s.index ==> exists o :: o in Both(s) && o.id == id)
    && (forall o, p :: o in Both(s) && p in Both(s) && o.id == p.id ==> o == p)
    && forall o :: o in Both(s) ==>
         Both(s)[o] == 1 && o in multiset(Book(s, o.side)) && o.qty > 0 && o.id in s.index && s.index[o.id] == o.ts
  }

  lemma ValidIsExact(s: State)
    requires Valid(s)
    ensures IndexExact(s)
  {
    var live :| ValidWith(s, live);
    forall id | id in s.index
      ensures exists o :: o in Both(s) && o.id == id
    {
      assert Both(s)[live[id]] == 1;
      assert live[id] in Both(s);
    }
    forall o | o in Both(s)
      ensures IsLive(live, o) && Both(s)[o] == 1 && o in multiset(Book(s, o.side)) && o.qty > 0
    {
      assert o in multiset(s.buys) || o in multiset(s.sells);
    }
  }

  /** The index of every reachable state, cancels as written included. */
  lemma IndexIsExact(mode: CancelMode, rs: seq<Request>)
    requires FreshIds(mode, INITIAL, rs)
    ensures IndexExact(Replay(mode, INITIAL, rs))
  {
    InitialIsValid();
    ReplayKeepsValid(mode, INITIAL, rs);
    ValidIsExact(Replay(mode, INITIAL, rs));
  }
}
