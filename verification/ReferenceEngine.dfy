/** The reference price-time-priority matching engine as functions on values. The class that
    updates its fields in place is proved to follow these functions. */
module ReferenceEngine {
  import opened Trading
  import opened Heapq

  /** `index` holds, for each id, the sequence number of the order object it maps to. */
  datatype State = State(
    buys: seq<Order>,
    sells: seq<Order>,
    index: map<string, nat>,
    fills: seq<Fill>,
    clock: nat)

  const INITIAL := State([], [], map[], [], 0)

  function Book(s: State, side: Side): seq<Order> {
    if side == Buy then s.buys else s.sells
  }

  function WithBook(s: State, side: Side, book: seq<Order>): State {
    if side == Buy then s.(buys := book) else s.(sells := book)
  }

  /** One incoming order working through the opposite book; `log` holds the fills it has made. */
  datatype Matching = Matching(
    incoming: Order,
    book: seq<Order>,
    index: map<string, nat>,
    log: seq<Fill>,
    clock: nat)

  predicate Stopped(m: Matching) {
    m.incoming.qty <= 0 || m.book == [] || !Crosses(m.incoming.side, m.incoming.price, m.book[0].price)
  }

  function FillOf(taker: Order, maker: Order, qty: int, ts: nat): Fill {
    if taker.side == Buy then
      Fill(taker.id, maker.id, maker.price, qty, ts)
    else
      Fill(maker.id, taker.id, maker.price, qty, ts)
  }

  function Reduced(o: Order, qty: int): Order {
    o.(qty := o.qty - qty)
  }

  /** The opposite book after `qty` of its best order has traded: what is left of it goes back. */
  function TakeBest(book: seq<Order>, qty: int): (r: seq<Order>)
    requires book != []
    ensures |r| == if book[0].qty > qty then |book| else |book| - 1
  {
    if book[0].qty > qty then Push(Pop(book), Reduced(book[0], qty)) else Pop(book)
  }

  /** One pass of the match loop. */
  function Step(m: Matching): (r: Matching)
    requires !Stopped(m)
    ensures |r.book| < |m.book| || (|r.book| == |m.book| && r.incoming.qty == 0)
  {
    var best := m.book[0];
    if best.id !in m.index then
      m.(book := Pop(m.book))
    else
      var qty := Min(m.incoming.qty, best.qty);
      Matching(
        Reduced(m.incoming, qty),
        TakeBest(m.book, qty),
        if best.qty > qty then m.index else m.index - {best.id},
        m.log + [FillOf(m.incoming, best, qty, m.clock + 1)],
        m.clock + 1)
  }

  /** The whole match loop. It ends on every book: a pass either shortens the book or uses the
      incoming order up. */
  function Run(m: Matching): (r: Matching)
    ensures Stopped(r)
    decreases |m.book|, m.incoming.qty > 0
  {
    if Stopped(m) then m else Run(Step(m))
  }

  function Arrive(s: State, id: string, side: Side, price: Price, qty: int): Matching {
    var ts := s.clock + 1;
    Matching(Order(id, side, price, qty, ts), Book(s, side.Opposite()), s.index[id := ts], [], ts)
  }

  /** Store what the match loop left: the remainder rests, or its id leaves the index. */
  function Settle(s: State, m: Matching): State {
    var own := Book(s, m.incoming.side);
    var rests := m.incoming.qty > 0;
    var matched := WithBook(
      State(s.buys, s.sells, if rests then m.index else m.index - {m.incoming.id}, s.fills + m.log, m.clock),
      m.incoming.side.Opposite(), m.book);
    WithBook(matched, m.incoming.side, if rests then Push(own, m.incoming) else own)
  }

  function AddLimit(s: State, id: string, side: Side, price: Price, qty: int): State {
    Settle(s, Run(Arrive(s, id, side, price, qty)))
  }

  function Without(book: seq<Order>, id: string): seq<Order> {
    if book == [] then []
    else if book[0].id == id then Without(book[1..], id)
    else [book[0]] + Without(book[1..], id)
  }

  /** How a cancelled id leaves the books: as written (the list is only filtered), or with heap
      order restored afterwards. */
  datatype CancelMode = AsWritten | Reheaped

  function Rebuild(book: seq<Order>): (r: seq<Order>)
    ensures |r| == |book| && multiset(r) == multiset(book)
  {
    if book == [] then []
    else
      assert book == book[..|book| - 1] + [book[|book| - 1]];
      Push(Rebuild(book[..|book| - 1]), book[|book| - 1])
  }

  function Filtered(mode: CancelMode, book: seq<Order>, id: string): seq<Order> {
    if mode == AsWritten then Without(book, id) else Rebuild(Without(book, id))
  }

  function CancelOrder(mode: CancelMode, s: State, id: string): State {
    if id !in s.index then s
    else s.(index := s.index - {id}, buys := Filtered(mode, s.buys, id), sells := Filtered(mode, s.sells, id))
  }

  function Apply(mode: CancelMode, s: State, r: Request): State {
    if r.Cancel? then CancelOrder(mode, s, r.id) else AddLimit(s, r.id, r.side, LimitPrice(r), r.qty)
  }

  /** The fills a request returns to its caller. */
  function Returned(s: State, r: Request): seq<Fill> {
    if r.Cancel? then [] else Run(Arrive(s, r.id, r.side, LimitPrice(r), r.qty)).log
  }

  function Replay(mode: CancelMode, s: State, rs: seq<Request>): State {
    if rs == [] then s
    else Apply(mode, Replay(mode, s, rs[..|rs| - 1]), rs[|rs| - 1])
  }

  /** No order arrives under an id that is still live. */
  predicate FreshIds(mode: CancelMode, s: State, rs: seq<Request>) {
    rs == [] || (
      var before := Replay(mode, s, rs[..|rs| - 1]);
      var r := rs[|rs| - 1];
      FreshIds(mode, s, rs[..|rs| - 1]) && (!r.Cancel? ==> r.id !in before.index))
  }
}
