/** The example contestant engine in its own form: plain lists of order objects, sorted in place on
    every pass. Every method is proved to follow the functions of ListEngine. */
module ContestantEngine {
  import opened Trading
  import opened ReferenceEngine
  import opened NaiveEngine
  import opened Arrival
  import opened ListEngine
  import opened ListInvariants
  import opened HeapList

  /** The stable sort by the key of `taker`, on order objects. */
  function InsertObject(taker: Side, a: seq<LiveOrder>, o: LiveOrder): (r: seq<LiveOrder>)
    ensures multiset(r) == multiset(a) + multiset{o}
  {
    if a == [] || !Less(SortKey(taker, a[0].price, a[0].ts), SortKey(taker, o.price, o.ts)) then [o] + a
    else
      assert a == [a[0]] + a[1..];
      [a[0]] + InsertObject(taker, a[1..], o)
  }

  function SortObjects(taker: Side, list: seq<LiveOrder>): (r: seq<LiveOrder>)
    ensures multiset(r) == multiset(list)
  {
    if list == [] then []
    else
      assert list == [list[0]] + list[1..];
      InsertObject(taker, SortObjects(taker, list[1..]), list[0])
  }

  lemma ShowsCons(o: LiveOrder, list: seq<LiveOrder>, v: Order, values: seq<Order>)
    requires o.View() == v && Shows(list, values)
    ensures Shows([o] + list, [v] + values)
  {
  }

  lemma {:induction false} InsertShows(taker: Side, a: seq<LiveOrder>, values: seq<Order>, o: LiveOrder)
    requires Shows(a, values)
    ensures Shows(InsertObject(taker, a, o), InsertBy(taker, values, o.View()))
  {
    if a == [] || !Less(SortKey(taker, a[0].price, a[0].ts), SortKey(taker, o.price, o.ts)) {
      ShowsCons(o, a, o.View(), values);
    } else {
      InsertShows(taker, a[1..], values[1..], o);
      ShowsCons(a[0], InsertObject(taker, a[1..], o), values[0], InsertBy(taker, values[1..], o.View()));
    }
  }

  lemma {:induction false} SortShows(taker: Side, list: seq<LiveOrder>, values: seq<Order>)
    requires Shows(list, values)
    ensures Shows(SortObjects(taker, list), SortFor(taker, values))
  {
    if list != [] {
      SortShows(taker, list[1..], values[1..]);
      InsertShows(taker, SortObjects(taker, list[1..]), SortFor(taker, values[1..]), list[0]);
    }
  }

  /** A plain list of orders; `values` are its orders as they are now. */
  class PlainList {
    var list: seq<LiveOrder>
    ghost var values: seq<Order>

    ghost predicate Current()
      reads this, list
    {
      Shows(list, values)
    }

    constructor ()
      ensures list == [] && values == [] && Current()
    {
      list, values := [], [];
    }

    method SortBy(taker: Side)
      requires Current()
      modifies this
      ensures Current() && values == SortFor(taker, old(values)) && multiset(list) == multiset(old(list))
      ensures SortedBy(taker, values) && multiset(values) == multiset(old(values))
    {
      SortSorts(taker, values);
      SortShows(taker, list, values);
      list, values := SortObjects(taker, list), SortFor(taker, values);
    }

    method Append(o: LiveOrder)
      requires Current()
      modifies this
      ensures Current() && list == old(list) + [o] && values == old(values) + [o.View()]
    {
      list, values := list + [o], values + [o.View()];
    }

    method RemoveId(id: string)
      requires Current()
      modifies this
      ensures Current() && values == Without(old(values), id) && multiset(list) <= multiset(old(list))
    {
      WithoutIdShows(list, values, id);
      list, values := WithoutId(list, id), Without(values, id);
    }

    /** The head loses `qty` in place and leaves the list if nothing is left of it. */
    method TakeFirst(qty: int)
      requires Current() && list != [] && multiset(list)[list[0]] == 1
      modifies this, list[0]
      ensures Current() && values == TakeHead(old(values), qty)
      ensures old(list)[0].qty == old(list[0].qty) - qty
      ensures list == if old(list[0].qty) == qty then old(list)[1..] else old(list)
    {
      HeadOnly(list);
      var head := list[0];
      head.qty := head.qty - qty;
      if head.qty == 0 {
        list, values := list[1..], values[1..];
      } else {
        values := values[0 := head.View()];
      }
    }

    lemma HeadOnly(l: seq<LiveOrder>)
      requires l != [] && multiset(l)[l[0]] == 1
      ensures forall i :: 0 < i < |l| ==> l[i] != l[0]
    {
      assert l == [l[0]] + l[1..];
      forall i | 0 < i < |l|
        ensures l[i] != l[0]
      {
        assert l[i] in l[1..];
        assert l[i] in multiset(l[1..]);
      }
    }
  }

  /** What the index maps to, as tickets. */
  ghost function TicketsOf(orders: map<string, LiveOrder>): map<string, Ticket> {
    map id | id in orders :: Ticket(orders[id].side, orders[id].ts)
  }

  lemma TicketsUpdate(orders: map<string, LiveOrder>, id: string, o: LiveOrder)
    ensures TicketsOf(orders[id := o]) == TicketsOf(orders)[id := Ticket(o.side, o.ts)]
    ensures TicketsOf(orders - {id}) == TicketsOf(orders) - {id}
  {
  }

  class ListMatchingEngine {
    const buys: PlainList
    const sells: PlainList
    var orders: map<string, LiveOrder>
    var seqNo: nat
    /** The order objects made so far. */
    ghost var Repr: set<LiveOrder>

    /** Every order of the list has been made here and is there once. */
    ghost predicate Listed(list: seq<LiveOrder>)
      reads this`Repr
    {
      forall o :: o in list ==> o in Repr && multiset(list)[o] == 1
    }

    ghost predicate Wellformed()
      reads this, buys, sells, buys.list, sells.list
    {
      && buys != sells
      && buys.Current() && sells.Current() && Listed(buys.list) && Listed(sells.list)
      && forall o :: o in buys.list ==> o !in sells.list
    }

    /** The engine as a value. */
    ghost function View(): Lists
      reads this, buys, sells
    {
      Lists(buys.values, sells.values, TicketsOf(orders), seqNo)
    }

    constructor ()
      ensures Wellformed() && View() == LISTS_INITIAL && Repr == {} && fresh(buys) && fresh(sells)
    {
      buys := new PlainList();
      sells := new PlainList();
      orders, seqNo, Repr := map[], 0, {};
    }

    /** `order` can be paired against the list `book`. */
    ghost predicate Pairable(order: LiveOrder, book: PlainList)
      reads this`Repr, book, book.list
    {
      book.Current() && Listed(book.list) && order in Repr && order !in book.list
    }

    ghost function Underway(order: LiveOrder, book: PlainList, log: seq<Trade>): Pairing
      reads this, order, book
    {
      Pairing(order.View(), book.values, TicketsOf(orders), log)
    }

    lemma ListedWithin(was: seq<LiveOrder>, list: seq<LiveOrder>)
      requires Listed(was) && multiset(list) <= multiset(was)
      ensures Listed(list)
    {
      MembersShrank(was, list);
      forall o | o in list
        ensures multiset(list)[o] == 1
      {
        assert o in multiset(list);
      }
    }

    lemma TailWithin(list: seq<LiveOrder>)
      requires list != []
      ensures multiset(list[1..]) <= multiset(list)
    {
      assert list == [list[0]] + list[1..];
    }

    /** Trade with the first order of a sorted, crossing list. */
    method PairFirst(order: LiveOrder, book: PlainList) returns (f: Trade, qty: int)
      requires Pairable(order, book) && book.list != []
      modifies this`orders, order, book, book.list[0]
      ensures Pairable(order, book) && multiset(book.list) <= multiset(old(book.list))
      ensures qty == Min(old(order.qty), old(book.values)[0].qty)
      ensures order.qty == old(order.qty) - qty && book.values == TakeHead(old(book.values), qty)
      ensures f == TradeWith(order.side, QuoteOf(old(order.View())), QuoteOf(old(book.values)[0]), qty)
      ensures TicketsOf(orders)
           == if old(book.values)[0].qty == qty then TicketsOf(old(orders)) - {old(book.values)[0].id}
                                   else TicketsOf(old(orders))
    {
      ghost var was := book.list;
      var best := book.list[0];
      TailWithin(book.list);
      qty := Min(order.qty, best.qty);
      f := if order.side == Buy then Trade(order.orderId, best.orderId, best.price, qty)
           else Trade(best.orderId, order.orderId, best.price, qty);
      order.qty := order.qty - qty;
      book.TakeFirst(qty);
      ListedWithin(was, book.list);
      MembersShrank(was, book.list);
      TicketsUpdate(orders, best.orderId, best);
      orders := if best.qty == 0 then orders - {best.orderId} else orders;
    }

    /** The loop stands at `p`: it is bound for `goal`, or has left there after sorting. */
    ghost predicate Standing(order: LiveOrder, book: PlainList, log: seq<Trade>, blocked: bool, p: Pairing,
                             goal: Pairing)
      reads this, order, book, book.list
    {
      && Pairable(order, book) && p == Underway(order, book, log)
      && if blocked then p == goal else RunPairs(p) == goal
    }

    lemma StandingStops(order: LiveOrder, book: PlainList, log: seq<Trade>, p: Pairing, goal: Pairing)
      requires Standing(order, book, log, false, p, goal)
      ensures Exhausted(p) <==> order.qty <= 0 || book.list == []
      ensures Exhausted(p) ==> p == goal
    {
    }

    lemma SortedHeadCrosses(book: PlainList, p: Pairing, order: LiveOrder)
      requires book.Current() && book.list != [] && p.book != [] && book.values == SortFor(p.incoming.side, p.book)
      requires order.side == p.incoming.side && order.price == p.incoming.price
      ensures Blocked(p) <==> !Crosses(order.side, order.price, book.list[0].price)
    {
      assert book.list[0].View() == book.values[0];
    }

    lemma PairIs(p: Pairing, after: Pairing, f: Trade, qty: int)
      requires !Exhausted(p) && !Blocked(p)
      requires var sorted := SortFor(p.incoming.side, p.book);
               && qty == Min(p.incoming.qty, sorted[0].qty)
               && after.incoming == Reduced(p.incoming, qty) && after.book == TakeHead(sorted, qty)
               && after.index == (if sorted[0].qty == qty then p.index - {sorted[0].id} else p.index)
               && f == TradeWith(p.incoming.side, QuoteOf(p.incoming), QuoteOf(sorted[0]), qty)
               && after.log == p.log + [f]
      ensures after == Pair(p) && RunPairs(after) == RunPairs(p)
    {
    }

    /** The orders a match may change. */
    ghost predicate Touches(order: LiveOrder, list: seq<LiveOrder>, parties: set<LiveOrder>) {
      order in parties && forall o :: o in list ==> o in parties
    }

    /** One pass of the loop: sort, then leave or trade with the first. */
    method PairPass(order: LiveOrder, book: PlainList, log: seq<Trade>, ghost p: Pairing, ghost goal: Pairing,
                    ghost parties: set<LiveOrder>)
      returns (log': seq<Trade>, blocked: bool, ghost p': Pairing)
      requires Standing(order, book, log, false, p, goal) && order.qty > 0 && book.list != []
      requires Touches(order, book.list, parties)
      modifies this`orders, book, parties
      ensures Touches(order, book.list, parties)
      ensures Standing(order, book, log', blocked, p', goal) && multiset(book.list) <= multiset(old(book.list))
      ensures !blocked ==> |p'.book| < |p.book| || (|p'.book| == |p.book| && p.incoming.qty > 0 && p'.incoming.qty == 0)
    {
      ghost var was := book.list;
      StandingStops(order, book, log, p, goal);
      book.SortBy(order.side);
      ListedWithin(was, book.list);
      MembersShrank(was, book.list);
      SortedHeadCrosses(book, p, order);
      assert book.list[0] in book.list;
      blocked := !Crosses(order.side, order.price, book.list[0].price);
      if blocked {
        log', p' := log, p.(book := book.values);
      } else {
        ghost var sorted := book.list;
        var f, qty := PairFirst(order, book);
        MembersShrank(sorted, book.list);
        log' := log + [f];
        p' := Underway(order, book, log');
        PairIs(p, p', f, qty);
      }
    }

    method PairLoop(order: LiveOrder, book: PlainList, ghost start: Pairing, ghost goal: Pairing,
                    ghost parties: set<LiveOrder>) returns (newFills: seq<Trade>)
      requires Standing(order, book, [], false, start, goal) && Touches(order, book.list, parties)
      modifies this`orders, book, parties
      ensures Standing(order, book, newFills, true, goal, goal) && multiset(book.list) <= old(multiset(book.list))
    {
      newFills := [];
      var blocked := false;
      ghost var p, entry := start, multiset(book.list);
      while order.qty > 0 && book.list != [] && !blocked
        invariant Standing(order, book, newFills, blocked, p, goal) && Touches(order, book.list, parties)
        invariant multiset(book.list) <= entry
        decreases !blocked, |p.book|, p.incoming.qty > 0
      {
        newFills, blocked, p := PairPass(order, book, newFills, p, goal, parties);
      }
      if !blocked {
        StandingStops(order, book, newFills, p, goal);
      }
    }

    /** The remainder of an incoming order is appended to its own list. */
    method Rest(order: LiveOrder, own: PlainList)
      requires Pairable(order, own)
      modifies own
      ensures own.Current() && Listed(own.list) && own.values == old(own.values) + [order.View()]
      ensures own.list == old(own.list) + [order]
    {
      ghost var was := own.list;
      own.Append(order);
      forall o | o in own.list
        ensures o in Repr && multiset(own.list)[o] == 1
      {
        assert multiset(own.list) == multiset(was) + multiset{order};
        assert order !in multiset(was);
        assert o == order || o in was;
      }
    }

    /** The remainder rests, or the id leaves the index. */
    method Finish(order: LiveOrder, own: PlainList)
      requires Pairable(order, own)
      modifies this`orders, own
      ensures own.Current() && Listed(own.list)
      ensures forall o :: o in own.list ==> o == order || o in old(own.list)
      ensures own.values == if order.qty > 0 then old(own.values) + [order.View()] else old(own.values)
      ensures TicketsOf(orders)
              == if order.qty > 0 then TicketsOf(old(orders)) else TicketsOf(old(orders)) - {order.orderId}
    {
      if order.qty > 0 {
        Rest(order, own);
      } else {
        TicketsUpdate(orders, order.orderId, order);
        orders := orders - {order.orderId};
      }
    }

    ghost predicate Apart(order: LiveOrder, book: PlainList, own: PlainList)
      reads book, own
    {
      book != own && order !in own.list && order !in book.list && forall o :: o in book.list ==> o !in own.list
    }

    /** The loop leaves the other list and its orders alone. */
    method PairBeside(order: LiveOrder, book: PlainList, own: PlainList, ghost start: Pairing, ghost goal: Pairing,
                      ghost parties: set<LiveOrder>) returns (newFills: seq<Trade>)
      requires Standing(order, book, [], false, start, goal) && Touches(order, book.list, parties)
      requires book != own && Pairable(order, own) && forall o :: o in own.list ==> o !in parties && o !in book.list
      modifies this`orders, book, parties
      ensures Standing(order, book, newFills, true, goal, goal) && Pairable(order, own)
      ensures forall o :: o in book.list ==> o !in own.list
    {
      ghost var was := book.list;
      newFills := PairLoop(order, book, start, goal, parties);
      MembersShrank(was, book.list);
    }

    ghost predicate Left(order: LiveOrder, goal: Pairing, before: seq<Order>, own: PlainList)
      reads this`orders, own
    {
      && own.values == (if goal.incoming.qty > 0 then before + [goal.incoming] else before)
      && TicketsOf(orders) == (if goal.incoming.qty > 0 then goal.index else goal.index - {goal.incoming.id})
    }

    /** The remainder rests, beside a list that has been paired. */
    method FinishBeside(order: LiveOrder, book: PlainList, own: PlainList, newFills: seq<Trade>, ghost goal: Pairing)
      requires Standing(order, book, newFills, true, goal, goal) && Pairable(order, own) && book != own
      requires forall o :: o in book.list ==> o !in own.list
      modifies this`orders, own
      ensures own.Current() && Listed(own.list) && book.Current() && Listed(book.list)
      ensures forall o :: o in book.list ==> o !in own.list
      ensures newFills == goal.log && book.values == goal.book && Left(order, goal, old(own.values), own)
    {
      Finish(order, own);
    }

    /** Pair an incoming order, then append its remainder to its own list or drop its id. */
    method PairAgainst(order: LiveOrder, book: PlainList, own: PlainList, ghost start: Pairing, ghost goal: Pairing,
                       ghost parties: set<LiveOrder>) returns (newFills: seq<Trade>)
      requires Standing(order, book, [], false, start, goal) && Touches(order, book.list, parties)
      requires book != own && Pairable(order, own) && forall o :: o in own.list ==> o !in parties && o !in book.list
      modifies this`orders, book, own, parties
      ensures book.Current() && own.Current() && Listed(book.list) && Listed(own.list)
      ensures forall o :: o in book.list ==> o !in own.list
      ensures newFills == goal.log && book.values == goal.book && Left(order, goal, old(own.values), own)
    {
      newFills := PairBeside(order, book, own, start, goal, parties);
      FinishBeside(order, book, own, newFills, goal);
    }

    lemma PartiesOf(order: LiveOrder, book: PlainList, own: PlainList) returns (parties: set<LiveOrder>)
      requires Pairable(order, book) && Apart(order, book, own)
      ensures Touches(order, book.list, parties) && parties <= Repr
      ensures forall o :: o in own.list ==> o !in parties && o !in book.list
    {
      parties := {order} + (set o | o in book.list);
    }

    ghost predicate Sides(side: Side, book: PlainList, own: PlainList) {
      if side == Buy then book == sells && own == buys else book == buys && own == sells
    }

    lemma ViewLeaves(order: LiveOrder, l: Lists, r: Pairing, book: PlainList, own: PlainList)
      requires Sides(r.incoming.side, book, own)
      requires book.values == r.book && seqNo == l.clock + 1
      requires Left(order, r, ListBook(l, r.incoming.side), own)
      ensures View() == Leave(l, r)
    {
    }

    /** `order` has been made and rests nowhere. */
    ghost predicate Arriving(order: LiveOrder)
      reads this, buys, sells, buys.list, sells.list
    {
      Wellformed() && Pairable(order, buys) && Pairable(order, sells) && Apart(order, buys, sells)
    }

    method Admit(orderId: string, side: Side, price: Price, qty: int) returns (order: LiveOrder)
      requires Wellformed()
      modifies this`seqNo, this`orders, this`Repr
      ensures fresh(order) && Repr == old(Repr) + {order} && Arriving(order) && seqNo == old(seqNo) + 1
      ensures ListEngine.Enter(old(View()), orderId, side, price, qty)
           == Pairing(order.View(), if side == Buy then sells.values else buys.values, TicketsOf(orders), [])
    {
      seqNo := seqNo + 1;
      order := new LiveOrder(orderId, side, price, qty, seqNo);
      TicketsUpdate(orders, orderId, order);
      orders := orders[orderId := order];
      Repr := Repr + {order};
    }

    method Match(order: LiveOrder, ghost l: Lists, ghost start: Pairing) returns (newFills: seq<Trade>)
      requires Arriving(order) && l.buys == buys.values && l.sells == sells.values && seqNo == l.clock + 1
      requires start == Pairing(order.View(), if order.side == Buy then sells.values else buys.values,
                                TicketsOf(orders), [])
      modifies this`orders, buys, sells, Repr
      ensures Wellformed() && View() == Leave(l, RunPairs(start)) && newFills == RunPairs(start).log
    {
      var book, own := if order.side == Buy then sells else buys, if order.side == Buy then buys else sells;
      ghost var parties := PartiesOf(order, book, own);
      newFills := PairAgainst(order, book, own, start, RunPairs(start), parties);
      RunPairsKeepsTaker(start);
      ViewLeaves(order, l, RunPairs(start), book, own);
    }

    /** A limit order arrives. */
    method AddLimit(orderId: string, side: Side, price: Price, qty: int) returns (newFills: seq<Trade>)
      requires Wellformed()
      modifies this, buys, sells, Repr
      ensures Wellformed() && fresh(Repr - old(Repr))
      ensures View() == Leave(old(View()), RunPairs(ListEngine.Enter(old(View()), orderId, side, price, qty)))
      ensures newFills == RunPairs(ListEngine.Enter(old(View()), orderId, side, price, qty)).log
    {
      ghost var l := View();
      ghost var start := ListEngine.Enter(l, orderId, side, price, qty);
      var order := Admit(orderId, side, price, qty);
      newFills := Match(order, l, start);
    }

    /** A market order is a limit order at the most generous price. */
    method AddMarket(orderId: string, side: Side, qty: int) returns (newFills: seq<Trade>)
      requires Wellformed()
      modifies this, buys, sells, Repr
      ensures Wellformed() && fresh(Repr - old(Repr))
      ensures View()
              == Leave(old(View()), RunPairs(ListEngine.Enter(old(View()), orderId, side, MarketPrice(side), qty)))
      ensures newFills == RunPairs(ListEngine.Enter(old(View()), orderId, side, MarketPrice(side), qty)).log
    {
      newFills := AddLimit(orderId, side, MarketPrice(side), qty);
    }

    /** Cancelling filters the list of the side the index names. */
    method CancelById(orderId: string) returns (found: bool)
      requires Wellformed()
      modifies this`orders, buys, sells
      ensures Wellformed() && Repr == old(Repr) && found == (orderId in old(View()).index)
      ensures View() == ListCancel(old(View()), orderId)
    {
      found := orderId in orders;
      if found {
        var order := orders[orderId];
        TicketsUpdate(orders, orderId, order);
        orders := orders - {orderId};
        var mine := if order.side == Buy then buys else sells;
        ghost var was := mine.list;
        mine.RemoveId(orderId);
        ListedWithin(was, mine.list);
        MembersShrank(was, mine.list);
      }
    }
  }
}
