/** What every request keeps in the list engine, and how its books read in order of arrival. */
module ListInvariants {
  import opened Trading
  import opened Bags
  import opened ReferenceEngine
  import opened EngineInvariants
  import opened ListEngine

  /** The index names exactly the live orders, each with its own side and sequence number. */
  ghost predicate Ticketed(live: LiveMap, index: map<string, Ticket>, clock: nat) {
    && index.Keys == live.Keys
    && (forall id :: id in live ==>
          live[id].id == id && index[id] == Ticket(live[id].side, live[id].ts) && live[id].ts <= clock)
    && (forall i, j :: i in live && j in live && live[i].ts == live[j].ts ==> i == j)
  }

  ghost function AllPaired(p: Pairing, own: multiset<Order>): multiset<Order> {
    multiset(p.book) + own + multiset{p.incoming}
  }

  ghost predicate ValidPairing(p: Pairing, own: multiset<Order>, live: LiveMap, clock: nat) {
    && Exactly(AllPaired(p, own), live)
    && Ticketed(live, p.index, clock)
    && Sound(multiset(p.book), p.incoming.side.Opposite())
    && Sound(own, p.incoming.side)
  }

  ghost predicate ValidListsWith(l: Lists, live: LiveMap) {
    && Exactly(multiset(l.buys) + multiset(l.sells), live)
    && Ticketed(live, l.index, l.clock)
    && Sound(multiset(l.buys), Buy)
    && Sound(multiset(l.sells), Sell)
  }

  ghost predicate ValidLists(l: Lists) {
    exists live :: ValidListsWith(l, live)
  }

  lemma TicketedReplace(live: LiveMap, index: map<string, Ticket>, clock: nat, o: Order, p: Order)
    requires Ticketed(live, index, clock) && IsLive(live, o) && p.id == o.id && p.ts == o.ts && p.side == o.side
    ensures Ticketed(live[o.id := p], index, clock)
  {
  }

  lemma TicketedWithout(live: LiveMap, index: map<string, Ticket>, clock: nat, id: string)
    requires Ticketed(live, index, clock)
    ensures Ticketed(live - {id}, index - {id}, clock)
  {
  }

  lemma TicketedWith(live: LiveMap, index: map<string, Ticket>, clock: nat, o: Order)
    requires Ticketed(live, index, clock) && o.id !in live && o.ts > clock
    ensures Ticketed(live[o.id := o], index[o.id := Ticket(o.side, o.ts)], o.ts)
  {
  }

  lemma KeyOrder(a: Key, b: Key, c: Key)
    ensures !Less(a, b) && !Less(b, c) ==> !Less(a, c)
    ensures Less(a, b) ==> !Less(b, a)
  {
  }

  lemma InsertHead(taker: Side, a: seq<Order>, o: Order)
    ensures var head := InsertBy(taker, a, o)[0];
            && !Less(TakerKey(taker, o), TakerKey(taker, head))
            && (a != [] ==> !Less(TakerKey(taker, a[0]), TakerKey(taker, head)))
  {
    if a != [] {
      KeyOrder(TakerKey(taker, a[0]), TakerKey(taker, o), TakerKey(taker, o));
    }
  }

  /** Sorting puts an order first that none ranks before. */
  lemma {:induction false} SortedHead(taker: Side, book: seq<Order>, o: Order)
    requires book != [] && o in book
    ensures !Less(TakerKey(taker, o), TakerKey(taker, SortFor(taker, book)[0]))
  {
    var tail := SortFor(taker, book[1..]);
    InsertHead(taker, tail, book[0]);
    if o != book[0] {
      assert o in book[1..];
      SortedHead(taker, book[1..], o);
      KeyOrder(TakerKey(taker, o), TakerKey(taker, tail[0]), TakerKey(taker, InsertBy(taker, tail, book[0])[0]));
    }
  }

  /** No order of the list ranks before an earlier one. */
  ghost predicate SortedBy(taker: Side, book: seq<Order>) {
    forall i, j :: 0 <= i < j < |book| ==> !Less(TakerKey(taker, book[j]), TakerKey(taker, book[i]))
  }

  lemma {:induction false} InsertKeepsSorted(taker: Side, a: seq<Order>, o: Order)
    requires SortedBy(taker, a)
    ensures SortedBy(taker, InsertBy(taker, a, o))
  {
    var r := InsertBy(taker, a, o);
    if a == [] || !Less(TakerKey(taker, a[0]), TakerKey(taker, o)) {
      forall j | 0 < j < |r|
        ensures !Less(TakerKey(taker, r[j]), TakerKey(taker, o))
      {
        KeyOrder(TakerKey(taker, r[j]), TakerKey(taker, a[0]), TakerKey(taker, o));
      }
    } else {
      InsertKeepsSorted(taker, a[1..], o);
      forall j | 0 < j < |r|
        ensures !Less(TakerKey(taker, r[j]), TakerKey(taker, a[0]))
      {
        assert r[j] in multiset(InsertBy(taker, a[1..], o));
        assert r[j] == o || r[j] in a[1..];
        KeyOrder(TakerKey(taker, a[0]), TakerKey(taker, o), TakerKey(taker, o));
      }
    }
  }

  /** The sort puts the whole list in order. */
  lemma {:induction false} SortSorts(taker: Side, book: seq<Order>)
    ensures SortedBy(taker, SortFor(taker, book)) && multiset(SortFor(taker, book)) == multiset(book)
  {
    if book != [] {
      SortSorts(taker, book[1..]);
      InsertKeepsSorted(taker, SortFor(taker, book[1..]), book[0]);
    }
  }

  lemma HeadIsMember(taker: Side, book: seq<Order>)
    requires book != []
    ensures SortFor(taker, book)[0] in multiset(book)
  {
    var sorted := SortFor(taker, book);
    assert sorted[0] in multiset(sorted);
  }

  /** The elements of a book whose head has traded. */
  lemma TakeHeadElements(sorted: seq<Order>, qty: int, others: multiset<Order>)
    requires sorted != [] && multiset(sorted) == others + multiset{sorted[0]}
    ensures multiset(TakeHead(sorted, qty))
         == if sorted[0].qty == qty then others else others + multiset{Reduced(sorted[0], qty)}
  {
    assert sorted == [sorted[0]] + sorted[1..];
    MultisetCancel(sorted[0], multiset(sorted[1..]), others);
    if sorted[0].qty != qty {
      assert TakeHead(sorted, qty) == [Reduced(sorted[0], qty)] + sorted[1..];
    }
  }

  lemma HeadIsLive(p: Pairing, own: multiset<Order>, live: LiveMap, clock: nat)
    requires ValidPairing(p, own, live, clock) && p.book != []
    ensures var best := SortFor(p.incoming.side, p.book)[0];
            && IsLive(live, best) && best.id != p.incoming.id && IsLive(live, p.incoming)
            && best.side == p.incoming.side.Opposite() && best.qty > 0
  {
    var best := SortFor(p.incoming.side, p.book)[0];
    HeadIsMember(p.incoming.side, p.book);
    assert AllPaired(p, own)[best] >= multiset(p.book)[best] + multiset{p.incoming}[best];
    assert AllPaired(p, own)[p.incoming] > 0;
  }

  lemma PairMultisets(p: Pairing, own: multiset<Order>)
    requires !Exhausted(p) && !Blocked(p)
    ensures var best, r := SortFor(p.incoming.side, p.book)[0], Pair(p);
            var qty := Min(p.incoming.qty, best.qty);
            var others := multiset(p.book) - multiset{best};
            && AllPaired(p, own) == (others + own) + multiset{best} + multiset{p.incoming}
            && AllPaired(r, own)
               == (if best.qty == qty then others + own else others + own + multiset{Reduced(best, qty)})
                  + multiset{r.incoming}
            && multiset(r.book) == if best.qty == qty then others else others + multiset{Reduced(best, qty)}
  {
    var sorted := SortFor(p.incoming.side, p.book);
    HeadIsMember(p.incoming.side, p.book);
    var others := multiset(p.book) - multiset{sorted[0]};
    MultisetPart(multiset(p.book), sorted[0]);
    TakeHeadElements(sorted, Min(p.incoming.qty, sorted[0].qty), others);
  }

  /** Replacing the two parties of a trade by what is left of them. */
  lemma TradeKeepsExactly(others: multiset<Order>, live: LiveMap, best: Order, inc: Order, inc': Order)
    requires Exactly(others + multiset{best} + multiset{inc}, live) && IsLive(live, inc) && IsLive(live, best)
    requires inc'.id == inc.id && best.id != inc.id
    ensures Exactly(others + multiset{best} + multiset{inc'}, live[inc.id := inc'])
    ensures Exactly(others + multiset{inc'}, live[inc.id := inc'] - {best.id})
  {
    var all := others + multiset{best} + multiset{inc};
    ExactlyReplace(all, live, inc, inc');
    assert all - multiset{inc} + multiset{inc'} == others + multiset{best} + multiset{inc'};
    assert others + multiset{inc'} + multiset{best} == others + multiset{best} + multiset{inc'};
    ExactlyWithout(others + multiset{inc'}, live[inc.id := inc'], best);
  }

  lemma TradeKeepsExactlyPart(others: multiset<Order>, live: LiveMap, best: Order, left: Order, inc': Order)
    requires Exactly(others + multiset{best} + multiset{inc'}, live) && IsLive(live, best) && left.id == best.id
    ensures Exactly(others + multiset{left} + multiset{inc'}, live[best.id := left])
  {
    var all := others + multiset{best} + multiset{inc'};
    ExactlyReplace(all, live, best, left);
    assert all - multiset{best} + multiset{left} == others + multiset{left} + multiset{inc'};
  }

  lemma PairKeepsSound(p: Pairing)
    requires !Exhausted(p) && !Blocked(p) && Sound(multiset(p.book), p.incoming.side.Opposite())
    ensures Sound(multiset(Pair(p).book), p.incoming.side.Opposite())
  {
    var best := SortFor(p.incoming.side, p.book)[0];
    PairMultisets(p, multiset{});
    HeadIsMember(p.incoming.side, p.book);
    var others := multiset(p.book) - multiset{best};
    SoundWithin(multiset(p.book), others, best.side);
    if best.qty != Min(p.incoming.qty, best.qty) {
      SoundWith(others, Reduced(best, Min(p.incoming.qty, best.qty)), best.side);
    }
  }

  lemma PairKeepsValid(p: Pairing, own: multiset<Order>, live: LiveMap, clock: nat) returns (after: LiveMap)
    requires ValidPairing(p, own, live, clock) && !Exhausted(p) && !Blocked(p)
    ensures ValidPairing(Pair(p), own, after, clock)
  {
    HeadIsLive(p, own, live, clock);
    PairMultisets(p, own);
    PairKeepsSound(p);
    var best, inc' := SortFor(p.incoming.side, p.book)[0], Pair(p).incoming;
    var qty, others := Min(p.incoming.qty, best.qty), multiset(p.book) - multiset{best} + own;
    TradeKeepsExactly(others, live, best, p.incoming, inc');
    TicketedReplace(live, p.index, clock, p.incoming, inc');
    var mid := live[p.incoming.id := inc'];
    if best.qty == qty {
      TicketedWithout(mid, p.index, clock, best.id);
      after := mid - {best.id};
    } else {
      TradeKeepsExactlyPart(others, mid, best, Reduced(best, qty), inc');
      TicketedReplace(mid, p.index, clock, best, Reduced(best, qty));
      after := mid[best.id := Reduced(best, qty)];
    }
  }

  lemma BothListSides(l: Lists, side: Side)
    ensures multiset(ListBook(l, side.Opposite())) + multiset(ListBook(l, side)) == multiset(l.buys) + multiset(l.sells)
  {
    Commute(multiset(l.buys), multiset(l.sells));
  }

  lemma EnterIsValid(l: Lists, id: string, side: Side, price: Price, qty: int) returns (live: LiveMap)
    requires ValidLists(l) && id !in l.index
    ensures ValidPairing(Enter(l, id, side, price, qty), multiset(ListBook(l, side)), live, l.clock + 1)
  {
    var before :| ValidListsWith(l, before);
    var o := Enter(l, id, side, price, qty).incoming;
    live := before[id := o];
    ExactlyWith(multiset(l.buys) + multiset(l.sells), before, o);
    TicketedWith(before, l.index, l.clock, o);
    BothListSides(l, side);
  }

  lemma LeaveBooks(l: Lists, p: Pairing)
    ensures var r, own := Leave(l, p), ListBook(l, p.incoming.side);
            && ListBook(r, p.incoming.side.Opposite()) == p.book
            && ListBook(r, p.incoming.side) == (if p.incoming.qty > 0 then own + [p.incoming] else own)
            && r.index == (if p.incoming.qty > 0 then p.index else p.index - {p.incoming.id})
            && r.clock == l.clock + 1
  {
  }

  lemma ValidListsBySide(l: Lists, side: Side, live: LiveMap)
    requires Exactly(multiset(ListBook(l, side.Opposite())) + multiset(ListBook(l, side)), live)
    requires Ticketed(live, l.index, l.clock)
    requires Sound(multiset(ListBook(l, side)), side) && Sound(multiset(ListBook(l, side.Opposite())), side.Opposite())
    ensures ValidLists(l)
  {
    BothListSides(l, side);
    assert ValidListsWith(l, live);
  }

  lemma LeaveKeepsValid(l: Lists, p: Pairing, live: LiveMap)
    requires ValidPairing(p, multiset(ListBook(l, p.incoming.side)), live, l.clock + 1)
    ensures ValidLists(Leave(l, p))
  {
    var own := multiset(ListBook(l, p.incoming.side));
    LeaveBooks(l, p);
    if p.incoming.qty > 0 {
      SoundWith(own, p.incoming, p.incoming.side);
      assert multiset(p.book) + (own + multiset{p.incoming}) == AllPaired(p, own);
      ValidListsBySide(Leave(l, p), p.incoming.side, live);
    } else {
      ExactlyWithout(multiset(p.book) + own, live, p.incoming);
      TicketedWithout(live, p.index, l.clock + 1, p.incoming.id);
      ValidListsBySide(Leave(l, p), p.incoming.side, live - {p.incoming.id});
    }
  }

  lemma {:induction false} RunPairsKeepsValid(p: Pairing, own: multiset<Order>, live: LiveMap, clock: nat)
    returns (after: LiveMap)
    requires ValidPairing(p, own, live, clock)
    ensures ValidPairing(RunPairs(p), own, after, clock)
    decreases |p.book|, p.incoming.qty > 0
  {
    if Exhausted(p) || Blocked(p) {
      after := live;
    } else {
      after := PairKeepsValid(p, own, live, clock);
      after := RunPairsKeepsValid(Pair(p), own, after, clock);
    }
  }

  lemma {:induction false} RunPairsKeepsTaker(p: Pairing)
    ensures RunPairs(p).incoming == p.incoming.(qty := RunPairs(p).incoming.qty)
    decreases |p.book|, p.incoming.qty > 0
  {
    if !Exhausted(p) && !Blocked(p) {
      RunPairsKeepsTaker(Pair(p));
    }
  }

  /** Cancelling looks at the side the index names, and that is where the order rests. */
  lemma WithoutOtherSide(l: Lists, live: LiveMap, id: string)
    requires ValidListsWith(l, live) && id in l.index
    ensures var other := ListBook(l, l.index[id].side.Opposite());
            forall o: Order :: o in multiset(other) ==> o.id != id
  {
    var other := ListBook(l, l.index[id].side.Opposite());
    forall o: Order | o in multiset(other)
      ensures o.id != id
    {
      assert (multiset(l.buys) + multiset(l.sells))[o] > 0;
    }
  }

  lemma ListCancelKeepsValid(l: Lists, id: string)
    requires ValidLists(l)
    ensures ValidLists(ListCancel(l, id))
  {
    if id in l.index {
      var live :| ValidListsWith(l, live);
      var side := l.index[id].side;
      var mine, other := ListBook(l, side), ListBook(l, side.Opposite());
      WithoutOtherSide(l, live, id);
      WithoutElements(mine, id);
      BothListSides(l, side);
      ListWithoutExactly(multiset(mine), multiset(other), multiset(Without(mine, id)), live, id);
      TicketedWithout(live, l.index, l.clock, id);
      assert forall o :: o in multiset(Without(mine, id)) ==> o in multiset(mine);
      ValidListsBySide(ListCancel(l, id), side, live - {id});
    }
  }

  lemma ListWithoutExactly(mine: multiset<Order>, other: multiset<Order>, left: multiset<Order>, live: LiveMap,
                           id: string)
    requires Exactly(other + mine, live) && (forall o :: o in other ==> o.id != id)
    requires forall o :: left[o] == if o.id == id then 0 else mine[o]
    ensures Exactly(other + left, live - {id})
  {
    forall o
      ensures (other + left)[o] == if IsLive(live - {id}, o) then 1 else 0
    {
      assert (other + mine)[o] == other[o] + mine[o];
      assert o.id == id ==> other[o] == 0;
    }
  }
}
