/** The reference engine in its own form: heap lists of order objects, an id index, a fill log and
    a sequence counter, all updated in place. Every method is proved to do to the engine's value
    what the functions of ReferenceEngine do, and those carry the theorems. */
module EngineObject {
  import opened Trading
  import opened Heapq
  import opened ReferenceEngine
  import opened EngineInvariants
  import opened HeapList

  /** Sequence numbers of the objects the index maps to. */
  ghost function IndexOf(orders: map<string, LiveOrder>): map<string, nat> {
    map id | id in orders :: orders[id].ts
  }

  lemma IndexOfUpdate(orders: map<string, LiveOrder>, id: string, o: LiveOrder)
    ensures IndexOf(orders[id := o]) == IndexOf(orders)[id := o.ts]
    ensures IndexOf(orders - {id}) == IndexOf(orders) - {id}
  {
  }

  class MatchingEngine {
    const buys: BookList
    const sells: BookList
    var orders: map<string, LiveOrder>
    var fills: seq<Fill>
    var seqNo: nat
    /** The order objects made so far, and the same by sequence number. */
    ghost var Repr: set<LiveOrder>
    ghost var byTs: map<nat, LiveOrder>

    /** A sequence number names one order object. */
    ghost predicate Registered()
      reads this`Repr, this`byTs, this`seqNo, this`orders
    {
      && (forall o :: o in Repr ==> o.ts <= seqNo && o.ts in byTs && byTs[o.ts] == o)
      && (forall id :: id in orders ==> orders[id] in Repr)
    }

    /** Every order of the list is registered and is there once. */
    ghost predicate Listed(list: seq<LiveOrder>)
      reads this`Repr
    {
      forall o :: o in list ==> o in Repr && multiset(list)[o] == 1
    }

    ghost predicate Wellformed()
      reads this, buys, sells, buys.list, sells.list
    {
      && Registered() && buys != sells
      && buys.Current() && sells.Current() && Listed(buys.list) && Listed(sells.list)
      && forall o :: o in buys.list ==> o !in sells.list
    }

    /** The engine as a value. */
    ghost function View(): State
      reads this, buys, sells
    {
      State(buys.values, sells.values, IndexOf(orders), fills, seqNo)
    }

    constructor ()
      ensures Wellformed() && View() == INITIAL && Repr == {} && fresh(buys) && fresh(sells)
    {
      buys := new BookList();
      sells := new BookList();
      orders, fills, seqNo, Repr, byTs := map[], [], 0, {}, map[];
    }

    method NextTs() returns (ts: nat)
      modifies this`seqNo
      ensures seqNo == old(seqNo) + 1 && ts == seqNo
    {
      seqNo := seqNo + 1;
      ts := seqNo;
    }

    /** `incoming` is registered and not in the list `book` it is matched against. */
    ghost predicate Matchable(incoming: LiveOrder, book: BookList)
      reads this, book, book.list
    {
      Registered() && book.Current() && Listed(book.list) && incoming in Repr && incoming !in book.list
    }

    /** The match loop's state, seen as a value. */
    ghost function Underway(incoming: LiveOrder, book: BookList, log: seq<Fill>): Matching
      reads this, incoming, book
    {
      Matching(incoming.View(), book.values, IndexOf(orders), log, seqNo)
    }

    lemma ListedWithin(was: seq<LiveOrder>, list: seq<LiveOrder>)
      requires Listed(was) && multiset(list) <= multiset(was)
      ensures Listed(list)
    {
      MembersShrank(was, list);
      forall o | o in list
        ensures multiset(list)[o] == 1
      {
        assert o in multiset(list);
      }
    }

    /** Drop the head of the list: its id is no longer indexed. */
    method DropHead(incoming: LiveOrder, book: BookList, ghost log: seq<Fill>)
      requires Matchable(incoming, book) && !Stopped(Underway(incoming, book, log)) && book.list != []
      requires book.list[0].orderId !in orders
      modifies book
      ensures Matchable(incoming, book) && multiset(book.list) <= multiset(old(book.list))
      ensures Underway(incoming, book, log) == Step(old(Underway(incoming, book, log)))
    {
      ghost var was := book.list;
      assert book.list[0] in book.list;
      var _ := book.PopHead();
      ListedWithin(was, book.list);
    }

    /** The bookkeeping of a trade: a sequence number, the log and the index. */
    method Record(incoming: LiveOrder, best: LiveOrder, qty: int, ghost book: BookList) returns (f: Fill)
      requires Matchable(incoming, book)
      modifies this`fills, this`seqNo, this`orders
      ensures Matchable(incoming, book) && seqNo == old(seqNo) + 1
      ensures f == FillOf(incoming.View(), best.View(), qty, seqNo) && fills == old(fills) + [f]
      ensures orders == if best.qty > 0 then old(orders) else old(orders) - {best.orderId}
    {
      var ts := NextTs();
      f := if incoming.side == Buy then Fill(incoming.orderId, best.orderId, best.price, qty, ts)
           else Fill(best.orderId, incoming.orderId, best.price, qty, ts);
      fills := fills + [f];
      if best.qty <= 0 {
        orders := orders - {best.orderId};
      }
    }

    /** What a trade has done to the engine is one pass of the match loop. */
    lemma TradeIsStep(m: Matching, incoming: LiveOrder, book: BookList, best: LiveOrder, qty: int, f: Fill,
                      before: map<string, LiveOrder>)
      requires !Stopped(m) && m.book[0].id in m.index && qty == Min(m.incoming.qty, m.book[0].qty)
      requires incoming.View() == Reduced(m.incoming, qty) && best.View() == Reduced(m.book[0], qty)
      requires book.values == TakeBest(m.book, qty)
      requires m.index == IndexOf(before) && orders == (if best.qty > 0 then before else before - {best.orderId})
      requires seqNo == m.clock + 1 && f == FillOf(incoming.View(), best.View(), qty, seqNo)
      ensures Underway(incoming, book, m.log + [f]) == Step(m)
    {
      IndexOfUpdate(before, best.orderId, best);
    }

    /** The quantities and the list of a trade with the head. */
    method TradeLists(incoming: LiveOrder, book: BookList) returns (best: LiveOrder, qty: int)
      requires Matchable(incoming, book) && book.list != []
      modifies incoming, book, book.list[0]
      ensures Matchable(incoming, book) && multiset(book.list) <= multiset(old(book.list))
      ensures best == old(book.list)[0]
      ensures qty == Min(old(incoming.qty), old(best.qty))
      ensures incoming.qty == old(incoming.qty) - qty && best.qty == old(best.qty) - qty
      ensures book.values == TakeBest(old(book.values), qty)
    {
      ghost var was := book.list;
      assert book.list[0] in book.list;
      best, qty := TradeBest(incoming, book);
      ListedWithin(was, book.list);
      MembersShrank(was, book.list);
    }

    /** Trade with the head of the list. */
    method TradeHead(incoming: LiveOrder, book: BookList, ghost log: seq<Fill>) returns (f: Fill)
      requires Matchable(incoming, book) && !Stopped(Underway(incoming, book, log)) && book.list != []
      requires book.list[0].orderId in orders
      modifies this`fills, this`seqNo, this`orders, incoming, book, book.list[0]
      ensures Matchable(incoming, book) && multiset(book.list) <= multiset(old(book.list))
      ensures Underway(incoming, book, log + [f]) == Step(old(Underway(incoming, book, log)))
      ensures fills == old(fills) + [f]
    {
      ghost var m, before := Underway(incoming, book, log), orders;
      var best, qty := TradeLists(incoming, book);
      f := Record(incoming, best, qty, book);
      TradeIsStep(m, incoming, book, best, qty, f, before);
    }

    /** The loop stands at `m`, bound for `goal`. */
    ghost predicate Standing(incoming: LiveOrder, book: BookList, log: seq<Fill>, m: Matching, goal: Matching)
      reads this, book, book.list, incoming
    {
      Matchable(incoming, book) && m == Underway(incoming, book, log) && Run(m) == goal
    }

    lemma NextStep(m: Matching)
      requires !Stopped(m)
      ensures Run(m) == Run(Step(m))
    {
    }

    /** The guard of the match loop. */
    predicate GoesOn(incoming: LiveOrder, book: BookList)
      reads incoming, book
    {
      incoming.qty > 0 && book.list != [] && Crosses(incoming.side, incoming.price, book.list[0].price)
    }

    /** When the loop stops it stands at its goal. */
    lemma StandingStops(incoming: LiveOrder, book: BookList, log: seq<Fill>, m: Matching, goal: Matching)
      requires Standing(incoming, book, log, m, goal)
      ensures GoesOn(incoming, book) <==> !Stopped(m)
      ensures !GoesOn(incoming, book) ==> m == goal
    {
    }

    /** The fills of this match have gone into the log. */
    predicate Logged(fillsWas: seq<Fill>, log: seq<Fill>)
      reads this`fills
    {
      fills == fillsWas + log
    }

    /** The orders a match may change. */
    ghost predicate Touches(incoming: LiveOrder, list: seq<LiveOrder>, parties: set<LiveOrder>) {
      incoming in parties && forall o :: o in list ==> o in parties
    }

    /** One pass of the match loop. */
    method MatchHead(incoming: LiveOrder, book: BookList, log: seq<Fill>, ghost m: Matching, ghost goal: Matching,
                     ghost parties: set<LiveOrder>, ghost fillsWas: seq<Fill>)
      returns (log': seq<Fill>, ghost m': Matching)
      requires Standing(incoming, book, log, m, goal) && GoesOn(incoming, book) && Touches(incoming, book.list, parties)
      requires Logged(fillsWas, log)
      modifies this`fills, this`seqNo, this`orders, book, parties
      ensures Standing(incoming, book, log', m', goal) && Touches(incoming, book.list, parties)
      ensures multiset(book.list) <= multiset(old(book.list))
      ensures |m'.book| < |m.book| || (|m'.book| == |m.book| && m.incoming.qty > 0 && m'.incoming.qty == 0)
      ensures Logged(fillsWas, log')
    {
      StandingStops(incoming, book, log, m, goal);
      NextStep(m);
      ghost var was := book.list;
      assert book.list[0] in book.list;
      m' := Step(m);
      if book.list[0].orderId !in orders {
        DropHead(incoming, book, log);
        log' := log;
      } else {
        var f := TradeHead(incoming, book, log);
        log' := log + [f];
      }
      MembersShrank(was, book.list);
    }

    /** The match loop: it runs until the incoming order is used up, the opposite list is empty, or
        its head does not cross. */
    method MatchLoop(incoming: LiveOrder, book: BookList, ghost start: Matching, ghost goal: Matching,
                     ghost parties: set<LiveOrder>) returns (newFills: seq<Fill>)
      requires Standing(incoming, book, [], start, goal) && Touches(incoming, book.list, parties)
      modifies this`fills, this`seqNo, this`orders, book, parties
      ensures Standing(incoming, book, newFills, goal, goal) && multiset(book.list) <= old(multiset(book.list))
      ensures fills == old(fills) + newFills
    {
      newFills := [];
      ghost var m, entry, fillsWas := start, multiset(book.list), fills;
      while GoesOn(incoming, book)
        invariant Standing(incoming, book, newFills, m, goal) && Touches(incoming, book.list, parties)
        invariant multiset(book.list) <= entry
        invariant Logged(fillsWas, newFills)
        decreases |m.book|, m.incoming.qty > 0
      {
        newFills, m := MatchHead(incoming, book, newFills, m, goal, parties, fillsWas);
      }
      StandingStops(incoming, book, newFills, m, goal);
    }

    /** The remainder of an incoming order comes to rest in its own list. */
    method Rest(incoming: LiveOrder, own: BookList)
      requires Matchable(incoming, own)
      modifies own
      ensures own.Current() && Listed(own.list) && own.values == Push(old(own.values), incoming.View())
      ensures forall o :: o in own.list ==> o == incoming || o in old(own.list)
    {
      ghost var was := own.list;
      own.PushItem(incoming);
      forall o | o in own.list
        ensures o in Repr && multiset(own.list)[o] == 1 && (o == incoming || o in was)
      {
        assert o in multiset(own.list);
        assert o == incoming || o in multiset(was);
        assert incoming !in multiset(was);
      }
    }

    /** The two lists share no order, and `incoming` is in neither. */
    ghost predicate Apart(incoming: LiveOrder, book: BookList, own: BookList)
      reads book, own
    {
      book != own && incoming !in own.list && incoming !in book.list && forall o :: o in book.list ==> o !in own.list
    }

    /** The loop leaves the other list and its orders alone. */
    method MatchBeside(incoming: LiveOrder, book: BookList, own: BookList, ghost start: Matching, ghost goal: Matching,
                       ghost parties: set<LiveOrder>) returns (newFills: seq<Fill>)
      requires Standing(incoming, book, [], start, goal) && Touches(incoming, book.list, parties)
      requires book != own && Matchable(incoming, own) && forall o :: o in own.list ==> o !in parties && o !in book.list
      modifies this`fills, this`seqNo, this`orders, book, parties
      ensures Standing(incoming, book, newFills, goal, goal) && Matchable(incoming, own)
      ensures fills == old(fills) + newFills && forall o :: o in book.list ==> o !in own.list
    {
      ghost var was := book.list;
      newFills := MatchLoop(incoming, book, start, goal, parties);
      MembersShrank(was, book.list);
    }

    /** What a match has left: the remainder rests, or its id has left the index. */
    ghost predicate Left(goal: Matching, before: seq<Order>, own: BookList)
      reads this`orders, own
    {
      && own.values == (if goal.incoming.qty > 0 then Push(before, goal.incoming) else before)
      && IndexOf(orders) == (if goal.incoming.qty > 0 then goal.index else goal.index - {goal.incoming.id})
    }

    method Finish(incoming: LiveOrder, book: BookList, own: BookList, newFills: seq<Fill>, ghost goal: Matching)
      requires Standing(incoming, book, newFills, goal, goal) && Matchable(incoming, own) && book != own
      requires forall o :: o in book.list ==> o !in own.list
      modifies this`orders, own
      ensures Registered() && own.Current() && Listed(own.list) && book.Current() && Listed(book.list)
      ensures forall o :: o in book.list ==> o !in own.list
      ensures newFills == goal.log && book.values == goal.book && seqNo == goal.clock
              && Left(goal, old(own.values), own)
    {
      if incoming.qty > 0 {
        Rest(incoming, own);
      } else {
        IndexOfUpdate(orders, incoming.orderId, incoming);
        orders := orders - {incoming.orderId};
      }
    }

    /** Match an incoming order, then let its remainder rest or drop its id. */
    method MatchAgainst(incoming: LiveOrder, book: BookList, own: BookList, ghost start: Matching, ghost goal: Matching,
                        ghost parties: set<LiveOrder>) returns (newFills: seq<Fill>)
      requires Standing(incoming, book, [], start, goal) && Touches(incoming, book.list, parties)
      requires book != own && Matchable(incoming, own) && forall o :: o in own.list ==> o !in parties && o !in book.list
      modifies this`fills, this`seqNo, this`orders, book, own, parties
      ensures Registered() && own.Current() && Listed(own.list) && book.Current() && Listed(book.list)
      ensures forall o :: o in book.list ==> o !in own.list
      ensures fills == old(fills) + newFills
      ensures newFills == goal.log && book.values == goal.book && seqNo == goal.clock
              && Left(goal, old(own.values), own)
    {
      newFills := MatchBeside(incoming, book, own, start, goal, parties);
      Finish(incoming, book, own, newFills, goal);
    }

    lemma PartiesOf(order: LiveOrder, book: BookList, own: BookList) returns (parties: set<LiveOrder>)
      requires Matchable(order, book) && Apart(order, book, own)
      ensures Touches(order, book.list, parties) && parties <= Repr
      ensures forall o :: o in own.list ==> o !in parties && o !in book.list
    {
      parties := {order} + (set o | o in book.list);
    }

    /** `order` is registered and rests nowhere. */
    ghost predicate Arriving(order: LiveOrder)
      reads this, buys, sells, buys.list, sells.list
    {
      Wellformed() && Matchable(order, buys) && Matchable(order, sells) && Apart(order, buys, sells)
    }

    /** The match of `order` is about to start as `start`. */
    ghost predicate Facing(order: LiveOrder, start: Matching)
      reads this, buys, sells, order
    {
      start == Matching(order.View(), if order.side == Buy then sells.values else buys.values, IndexOf(orders), [],
                        seqNo)
    }

    /** A new order takes the next sequence number and its id's place in the index. */
    method MakeOrder(orderId: string, side: Side, price: Price, qty: int) returns (order: LiveOrder)
      requires Registered()
      modifies this`seqNo, this`orders, this`Repr, this`byTs
      ensures Registered() && fresh(order) && Repr == old(Repr) + {order} && seqNo == old(seqNo) + 1
      ensures order.View() == Order(orderId, side, price, qty, seqNo)
      ensures IndexOf(orders) == IndexOf(old(orders))[orderId := seqNo]
    {
      var ts := NextTs();
      order := new LiveOrder(orderId, side, price, qty, ts);
      IndexOfUpdate(orders, orderId, order);
      orders := orders[orderId := order];
      Repr, byTs := Repr + {order}, byTs[ts := order];
    }

    lemma NewcomerIsApart(order: LiveOrder, before: set<LiveOrder>)
      requires Registered() && buys != sells && buys.Current() && sells.Current()
      requires Repr == before + {order} && order !in before
      requires forall o :: o in buys.list ==> o in before && multiset(buys.list)[o] == 1 && o !in sells.list
      requires forall o :: o in sells.list ==> o in before && multiset(sells.list)[o] == 1
      ensures Arriving(order)
    {
    }

    method Enter(orderId: string, side: Side, price: Price, qty: int) returns (order: LiveOrder)
      requires Wellformed()
      modifies this`seqNo, this`orders, this`Repr, this`byTs
      ensures fresh(order) && Repr == old(Repr) + {order}
      ensures Arriving(order)
      ensures Facing(order, Arrive(old(View()), orderId, side, price, qty))
    {
      ghost var before := Repr;
      order := MakeOrder(orderId, side, price, qty);
      NewcomerIsApart(order, before);
    }

    ghost predicate Sides(side: Side, book: BookList, own: BookList) {
      if side == Buy then book == sells && own == buys else book == buys && own == sells
    }

    /** The fields after matching are those of the settled value. */
    lemma ViewSettles(s: State, m: Matching, book: BookList, own: BookList)
      requires Sides(m.incoming.side, book, own)
      requires book.values == m.book && seqNo == m.clock && fills == s.fills + m.log
      requires Left(m, Book(s, m.incoming.side), own)
      ensures View() == Settle(s, m)
    {
    }

    /** Match a registered order against the list facing it. */
    method Match(order: LiveOrder, ghost s: State, ghost start: Matching, ghost goal: Matching)
      returns (newFills: seq<Fill>)
      requires Arriving(order) && Facing(order, start) && goal == Run(start)
      requires s.buys == buys.values && s.sells == sells.values && s.fills == fills
      modifies this`fills, this`seqNo, this`orders, buys, sells, Repr
      ensures Wellformed() && View() == Settle(s, goal) && newFills == goal.log
    {
      var book, own := if order.side == Buy then sells else buys, if order.side == Buy then buys else sells;
      ghost var parties := PartiesOf(order, book, own);
      newFills := MatchAgainst(order, book, own, start, goal, parties);
      RunKeepsTaker(start);
      ViewSettles(s, goal, book, own);
    }

    /** A limit order arrives. */
    method AddLimit(orderId: string, side: Side, price: Price, qty: int) returns (newFills: seq<Fill>)
      requires Wellformed()
      modifies this, buys, sells, Repr
      ensures Wellformed() && fresh(Repr - old(Repr))
      ensures View() == ReferenceEngine.AddLimit(old(View()), orderId, side, price, qty)
      ensures newFills == Run(Arrive(old(View()), orderId, side, price, qty)).log
    {
      ghost var s := View();
      ghost var start := Arrive(s, orderId, side, price, qty);
      var order := Enter(orderId, side, price, qty);
      newFills := Match(order, s, start, Run(start));
    }

    /** A market order is a limit order at the most generous price. */
    method AddMarket(orderId: string, side: Side, qty: int) returns (newFills: seq<Fill>)
      requires Wellformed()
      modifies this, buys, sells, Repr
      ensures Wellformed() && fresh(Repr - old(Repr))
      ensures View() == ReferenceEngine.AddLimit(old(View()), orderId, side, MarketPrice(side), qty)
      ensures newFills == Run(Arrive(old(View()), orderId, side, MarketPrice(side), qty)).log
    {
      newFills := AddLimit(orderId, side, MarketPrice(side), qty);
    }

    /** The index maps the ids of the orders of a list to those very objects. */
    ghost predicate Indexes(list: seq<LiveOrder>)
      reads this`orders
    {
      forall o :: o in list ==> o.orderId in orders && orders[o.orderId] == o
    }

    /** The index is exact: the objects it maps to are those resting in the two lists. */
    ghost predicate IndexesItsOrders()
      reads this`orders, buys`list, sells`list
    {
      && Indexes(buys.list) && Indexes(sells.list)
      && forall id :: id in orders ==> orders[id] in buys.list || orders[id] in sells.list
    }

    lemma ListedIsShown(book: BookList, o: LiveOrder)
      requires book.Current() && o in book.list
      ensures o.View() in multiset(book.values)
    {
      var i :| 0 <= i < |book.list| && book.list[i] == o;
      assert book.values[i] == o.View();
    }

    lemma ShownIsListed(book: BookList, v: Order) returns (o: LiveOrder)
      requires book.Current() && v in multiset(book.values)
      ensures o in book.list && o.View() == v
    {
      var i :| 0 <= i < |book.values| && book.values[i] == v;
      o := book.list[i];
    }

    /** A sequence number names one object. */
    lemma SameNumberSameObject(o: LiveOrder, p: LiveOrder)
      requires Registered() && o in Repr && p in Repr && o.ts == p.ts
      ensures o == p
    {
      assert byTs[o.ts] == o && byTs[p.ts] == p;
    }

    lemma ListIsIndexed(book: BookList)
      requires Registered() && book.Current() && Listed(book.list) && (book == buys || book == sells)
      requires IndexExact(View())
      ensures Indexes(book.list)
    {
      forall o | o in book.list
        ensures o.orderId in orders && orders[o.orderId] == o
      {
        ListedIsShown(book, o);
        assert o.View() in Both(View());
        assert IndexOf(orders)[o.orderId] == o.ts;
        SameNumberSameObject(orders[o.orderId], o);
      }
    }

    lemma IndexedIsListed(id: string)
      requires Wellformed() && IndexExact(View()) && id in orders
      ensures orders[id] in buys.list || orders[id] in sells.list
    {
      assert id in View().index;
      var v :| v in Both(View()) && v.id == id;
      var o := ShownIsListed(if v in multiset(buys.values) then buys else sells, v);
      assert IndexOf(orders)[id] == v.ts;
      SameNumberSameObject(orders[id], o);
    }

    /** Where the value of the engine has an exact index, so has the engine: the indexed objects are
        those that rest, each under its own id. */
    lemma IndexedObjectsRest()
      requires Wellformed() && Valid(View())
      ensures IndexesItsOrders()
    {
      ValidIsExact(View());
      ListIsIndexed(buys);
      ListIsIndexed(sells);
      forall id | id in orders
        ensures orders[id] in buys.list || orders[id] in sells.list
      {
        IndexedIsListed(id);
      }
    }

    /** Cancelling filters both lists and restores nothing. */
    method CancelById(orderId: string) returns (found: bool)
      requires Wellformed()
      modifies this`orders, buys, sells
      ensures Wellformed() && Repr == old(Repr) && found == (orderId in old(View()).index)
      ensures View() == CancelOrder(AsWritten, old(View()), orderId)
    {
      found := orderId in orders;
      if found {
        ghost var buysWas, sellsWas := buys.list, sells.list;
        IndexOfUpdate(orders, orderId, orders[orderId]);
        orders := orders - {orderId};
        buys.RemoveId(orderId);
        sells.RemoveId(orderId);
        ListedWithin(buysWas, buys.list);
        ListedWithin(sellsWas, sells.list);
        MembersShrank(buysWas, buys.list);
        MembersShrank(sellsWas, sells.list);
      }
    }
  }
}
