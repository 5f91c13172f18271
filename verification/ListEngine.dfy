/** The example contestant engine as functions on values: plain lists, sorted again on every pass
    by a key that follows the side of the incoming order. */
module ListEngine {
  import opened Trading
  import opened ReferenceEngine
  import opened NaiveEngine
  import opened Arrival

  /** What the index keeps of an order: its side, which decides where a cancel looks, and which
      order object it is. */
  datatype Ticket = Ticket(side: Side, ts: nat)

  datatype Lists = Lists(buys: seq<Order>, sells: seq<Order>, index: map<string, Ticket>, clock: nat)

  const LISTS_INITIAL := Lists([], [], map[], 0)

  function ListBook(l: Lists, side: Side): seq<Order> {
    if side == Buy then l.buys else l.sells
  }

  function WithListBook(l: Lists, side: Side, book: seq<Order>): Lists {
    if side == Buy then l.(buys := book) else l.(sells := book)
  }

  /** The key a book is sorted by when an order of side `taker` comes in: descending price for a
      buy, ascending for a sell, whichever book it is. */
  function TakerKey(taker: Side, o: Order): Key {
    SortKey(taker, o.price, o.ts)
  }

  function InsertBy(taker: Side, a: seq<Order>, o: Order): (r: seq<Order>)
    ensures |r| == |a| + 1
    ensures multiset(r) == multiset(a) + multiset{o}
  {
    if a == [] || !Less(TakerKey(taker, a[0]), TakerKey(taker, o)) then [o] + a
    else
      assert a == [a[0]] + a[1..];
      [a[0]] + InsertBy(taker, a[1..], o)
  }

  /** The stable sort of a book. */
  function SortFor(taker: Side, book: seq<Order>): (r: seq<Order>)
    ensures |r| == |book|
    ensures multiset(r) == multiset(book)
  {
    if book == [] then []
    else
      assert book == [book[0]] + book[1..];
      InsertBy(taker, SortFor(taker, book[1..]), book[0])
  }

  datatype Pairing = Pairing(incoming: Order, book: seq<Order>, index: map<string, Ticket>, log: seq<Trade>)

  /** Whether the loop leaves before or after sorting. */
  predicate Exhausted(p: Pairing) {
    p.incoming.qty <= 0 || p.book == []
  }

  predicate Blocked(p: Pairing)
    requires p.book != []
  {
    !Crosses(p.incoming.side, p.incoming.price, SortFor(p.incoming.side, p.book)[0].price)
  }

  /** The book after `qty` of its first order has traded, in place. */
  function TakeHead(book: seq<Order>, qty: int): seq<Order>
    requires book != []
  {
    if book[0].qty == qty then book[1..] else book[0 := Reduced(book[0], qty)]
  }

  function Pair(p: Pairing): (r: Pairing)
    requires !Exhausted(p) && !Blocked(p)
    ensures |r.book| < |p.book| || (|r.book| == |p.book| && r.incoming.qty == 0)
  {
    var sorted := SortFor(p.incoming.side, p.book);
    var qty := Min(p.incoming.qty, sorted[0].qty);
    Pairing(
      Reduced(p.incoming, qty),
      TakeHead(sorted, qty),
      if sorted[0].qty == qty then p.index - {sorted[0].id} else p.index,
      p.log + [TradeWith(p.incoming.side, QuoteOf(p.incoming), QuoteOf(sorted[0]), qty)])
  }

  /** The match loop; a book that is blocked is left sorted. */
  function RunPairs(p: Pairing): Pairing
    decreases |p.book|, p.incoming.qty > 0
  {
    if Exhausted(p) then p
    else if Blocked(p) then p.(book := SortFor(p.incoming.side, p.book))
    else RunPairs(Pair(p))
  }

  function Enter(l: Lists, id: string, side: Side, price: Price, qty: int): Pairing {
    Pairing(Order(id, side, price, qty, l.clock + 1), ListBook(l, side.Opposite()),
            l.index[id := Ticket(side, l.clock + 1)], [])
  }

  function Leave(l: Lists, p: Pairing): Lists {
    var rests := p.incoming.qty > 0;
    var index := if rests then p.index else p.index - {p.incoming.id};
    var matched := WithListBook(Lists(l.buys, l.sells, index, l.clock + 1),
                                p.incoming.side.Opposite(), p.book);
    if rests then WithListBook(matched, p.incoming.side, ListBook(l, p.incoming.side) + [p.incoming]) else matched
  }

  function ListCancel(l: Lists, id: string): Lists {
    if id !in l.index then l
    else
      var side := l.index[id].side;
      WithListBook(l.(index := l.index - {id}), side, Without(ListBook(l, side), id))
  }

  function ListApply(l: Lists, r: Request): Lists {
    if r.Cancel? then ListCancel(l, r.id) else Leave(l, RunPairs(Enter(l, r.id, r.side, LimitPrice(r), r.qty)))
  }

  /** The fills in the acknowledgement of a request. */
  function ListReturned(l: Lists, r: Request): seq<Trade> {
    if r.Cancel? then [] else RunPairs(Enter(l, r.id, r.side, LimitPrice(r), r.qty)).log
  }

  function ListReplay(l: Lists, rs: seq<Request>): Lists {
    if rs == [] then l else ListApply(ListReplay(l, rs[..|rs| - 1]), rs[|rs| - 1])
  }

  /** One acknowledgement per message, in order. */
  function ListAcks(l: Lists, rs: seq<Request>): (r: seq<seq<Trade>>)
    ensures |r| == |rs|
  {
    if rs == [] then []
    else ListAcks(l, rs[..|rs| - 1]) + [ListReturned(ListReplay(l, rs[..|rs| - 1]), rs[|rs| - 1])]
  }

  function NaiveAcks(n: Naive, rs: seq<Request>): (r: seq<seq<Trade>>)
    ensures |r| == |rs|
  {
    if rs == [] then []
    else NaiveAcks(n, rs[..|rs| - 1]) + [NaiveReturned(NaiveReplay(n, rs[..|rs| - 1]), rs[|rs| - 1])]
  }

  function ReferenceAcks(mode: CancelMode, s: State, rs: seq<Request>): (r: seq<seq<Trade>>)
    ensures |r| == |rs|
  {
    if rs == [] then []
    else
      ReferenceAcks(mode, s, rs[..|rs| - 1])
      + [Trades(Returned(Replay(mode, s, rs[..|rs| - 1]), rs[|rs| - 1]))]
  }

  /** The fills a client collects from acknowledgements, in order. */
  function Collected(acks: seq<seq<Trade>>): seq<Trade> {
    if acks == [] then [] else Collected(acks[..|acks| - 1]) + acks[|acks| - 1]
  }

  lemma CollectedAppend(acks: seq<seq<Trade>>, last: seq<Trade>)
    ensures Collected(acks + [last]) == Collected(acks) + last
  {
    assert (acks + [last])[..|acks|] == acks;
  }
}
