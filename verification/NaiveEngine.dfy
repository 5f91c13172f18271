/** The rule the reference engine exists to implement, said directly: books are plain lists in
    order of arrival, and an incoming order trades with the best-priced, oldest opposite order
    found by looking at all of them. There are no heaps, no index and no sequence numbers. */
module NaiveEngine {
  import opened Trading

  datatype Quote = Quote(id: string, price: Price, qty: int)

  datatype Naive = Naive(buys: seq<Quote>, sells: seq<Quote>, trades: seq<Trade>)

  const NAIVE_INITIAL := Naive([], [], [])

  function QuoteBook(n: Naive, side: Side): seq<Quote> {
    if side == Buy then n.buys else n.sells
  }

  function WithQuoteBook(n: Naive, side: Side, book: seq<Quote>): Naive {
    if side == Buy then n.(buys := book) else n.(sells := book)
  }

  /** Whether price `a` is strictly better than `b` for an incoming order of side `taker`. */
  predicate Better(taker: Side, a: Price, b: Price) {
    if taker == Buy then Below(a, b) else Below(b, a)
  }

  /** The oldest of the best-priced orders. */
  function BestIndex(taker: Side, book: seq<Quote>): (i: nat)
    requires book != []
    ensures i < |book|
    ensures forall j :: 0 <= j < |book| ==> !Better(taker, book[j].price, book[i].price)
    ensures forall j :: 0 <= j < i ==> Better(taker, book[i].price, book[j].price)
  {
    var last := |book| - 1;
    if last == 0 then 0
    else
      var i := BestIndex(taker, book[..last]);
      if Better(taker, book[last].price, book[i].price) then last else i
  }

  datatype Sweep = Sweep(taker: Side, quote: Quote, book: seq<Quote>, log: seq<Trade>)

  predicate Finished(n: Sweep) {
    n.quote.qty <= 0 || n.book == []
    || !Crosses(n.taker, n.quote.price, n.book[BestIndex(n.taker, n.book)].price)
  }

  function TradeWith(taker: Side, quote: Quote, maker: Quote, qty: int): Trade {
    if taker == Buy then Trade(quote.id, maker.id, maker.price, qty)
    else Trade(maker.id, quote.id, maker.price, qty)
  }

  function Lessened(q: Quote, qty: int): Quote {
    q.(qty := q.qty - qty)
  }

  /** The book after `qty` of its order at `i` has traded. */
  function TakeAt(book: seq<Quote>, i: nat, qty: int): seq<Quote>
    requires i < |book|
  {
    if book[i].qty > qty then book[i := Lessened(book[i], qty)] else book[..i] + book[i + 1..]
  }

  function Pass(n: Sweep): Sweep
    requires !Finished(n)
  {
    var i := BestIndex(n.taker, n.book);
    var qty := Min(n.quote.qty, n.book[i].qty);
    Sweep(n.taker, Lessened(n.quote, qty), TakeAt(n.book, i, qty),
          n.log + [TradeWith(n.taker, n.quote, n.book[i], qty)])
  }

  function RunSweep(n: Sweep): (r: Sweep)
    ensures Finished(r)
    decreases |n.book|, n.quote.qty > 0
  {
    if Finished(n) then n else RunSweep(Pass(n))
  }

  function Open(n: Naive, r: Request): Sweep
    requires !r.Cancel?
  {
    Sweep(r.side, Quote(r.id, LimitPrice(r), r.qty), QuoteBook(n, r.side.Opposite()), [])
  }

  function Close(n: Naive, m: Sweep): Naive {
    var matched := WithQuoteBook(n.(trades := n.trades + m.log), m.taker.Opposite(), m.book);
    if m.quote.qty > 0 then WithQuoteBook(matched, m.taker, QuoteBook(n, m.taker) + [m.quote]) else matched
  }

  function Except(book: seq<Quote>, id: string): seq<Quote> {
    if book == [] then []
    else if book[0].id == id then Except(book[1..], id)
    else [book[0]] + Except(book[1..], id)
  }

  function NaiveApply(n: Naive, r: Request): Naive {
    if r.Cancel? then n.(buys := Except(n.buys, r.id), sells := Except(n.sells, r.id))
    else Close(n, RunSweep(Open(n, r)))
  }

  function NaiveReturned(n: Naive, r: Request): seq<Trade> {
    if r.Cancel? then [] else RunSweep(Open(n, r)).log
  }

  function NaiveReplay(n: Naive, rs: seq<Request>): Naive {
    if rs == [] then n else NaiveApply(NaiveReplay(n, rs[..|rs| - 1]), rs[|rs| - 1])
  }

  lemma {:induction false} SweepLogGrows(w: Sweep)
    ensures w.log <= RunSweep(w).log
    decreases |w.book|, w.quote.qty > 0
  {
    if !Finished(w) {
      SweepLogGrows(Pass(w));
      assert w.log <= Pass(w).log;
    }
  }

  lemma FirstTrade(w: Sweep)
    requires !Finished(w) && w.log == []
    ensures var i := BestIndex(w.taker, w.book);
            RunSweep(w).log != []
            && RunSweep(w).log[0] == TradeWith(w.taker, w.quote, w.book[i], Min(w.quote.qty, w.book[i].qty))
  {
    SweepLogGrows(Pass(w));
    assert RunSweep(w).log[0] == Pass(w).log[0];
  }
}
