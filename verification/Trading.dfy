/** Sides, prices, orders and fills, and the sort keys the reference engine ranks orders by. */
module Trading {

  datatype Side = Buy | Sell {
    function Opposite(): Side {
      if this == Buy then Sell else Buy
    }
  }

  /** A float price without NaN: market buys are limits at plus infinity, and the sort key of a
      buy negates its price, so both infinities occur. */
  datatype Price = NegInf | Fin(value: real) | PosInf

  predicate Below(a: Price, b: Price) {
    match (a, b)
    case (Fin(x), Fin(y)) => x < y
    case (NegInf, _) => b != NegInf
    case (_, PosInf) => a != PosInf
    case (_, _) => false
  }

  function Negated(p: Price): Price {
    match p
    case NegInf => PosInf
    case Fin(x) => Fin(-x)
    case PosInf => NegInf
  }

  /** An order as a value; `qty` is what is left of it. */
  datatype Order = Order(id: string, side: Side, price: Price, qty: int, ts: nat)

  datatype Fill = Fill(buyId: string, sellId: string, price: Price, qty: int, ts: nat)

  /** A fill without its sequence number: the tuple that replays are compared on. */
  datatype Trade = Trade(buyId: string, sellId: string, price: Price, qty: int)

  function TradeOf(f: Fill): Trade {
    Trade(f.buyId, f.sellId, f.price, f.qty)
  }

  function Trades(fills: seq<Fill>): (r: seq<Trade>) {
    seq(|fills|, i requires 0 <= i < |fills| => TradeOf(fills[i]))
  }

  /** What a resting or incoming order of `side` at `price` ranks by; lower is better. */
  function Cost(side: Side, price: Price): Price {
    if side == Buy then Negated(price) else price
  }

  datatype Key = Key(cost: Price, ts: nat)

  function SortKey(side: Side, price: Price, ts: nat): Key {
    Key(Cost(side, price), ts)
  }

  function KeyOf(o: Order): Key {
    SortKey(o.side, o.price, o.ts)
  }

  predicate Less(a: Key, b: Key) {
    Below(a.cost, b.cost) || (a.cost == b.cost && a.ts < b.ts)
  }

  /** Whether an incoming order of side `taker` limited at `limit` may trade at `price`. */
  predicate Crosses(taker: Side, limit: Price, price: Price) {
    if taker == Buy then !Below(limit, price) else !Below(price, limit)
  }

  function Min(a: int, b: int): int {
    if a < b then a else b
  }

  /** Requests as the order stream carries them. */
  datatype Request =
    | Limit(id: string, side: Side, price: Price, qty: int)
    | Market(id: string, side: Side, qty: int)
    | Cancel(id: string)

  /** A market order is a limit order at the most generous price of its side. */
  function MarketPrice(side: Side): Price {
    if side == Buy then PosInf else Fin(0.0)
  }

  function LimitPrice(r: Request): Price
    requires !r.Cancel?
  {
    if r.Limit? then r.price else MarketPrice(r.side)
  }
}
