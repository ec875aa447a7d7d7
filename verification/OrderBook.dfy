/** The example application: an order book of price levels, and the generator
    of the deltas that drive it. Arithmetic is on 32-bit unsigned integers. */
module OrderBooks {
  import opened Messages

  const U32_MAX: int := 0xFFFF_FFFF

  type U32 = x: int | 0 <= x <= U32_MAX witness 0

  const MIN_ORDERS := 10
  const MAX_ORDERS := 15
  const MAX_QUANTITY := 100

  datatype Side = Buy | Sell
  datatype QuoteAction = Insert | Remove
  datatype QuoteDelta = QuoteDelta(action: QuoteAction, price: U32, quantity: U32, timestamp: I64, side: Side)

  /** What 32-bit arithmetic leaves of a sum or a difference. */
  function Wrapped(x: int): (r: U32)
    requires -U32_MAX <= x <= 2 * U32_MAX
    ensures r == x % 0x1_0000_0000
  {
    if x < 0 then x + (U32_MAX + 1) else if x > U32_MAX then x - (U32_MAX + 1) else x
  }

  datatype Level = Level(price: U32, quantity: U32, lastUpdated: I64)

  datatype Book = Book(buys: map<U32, Level>, sells: map<U32, Level>) {
    function On(side: Side): map<U32, Level> {
      if side.Buy? then buys else sells
    }
  }

  const EMPTY_BOOK := Book(map[], map[])

  // ---- Applying a delta

  /** The level after a delta, and whether to keep it. */
  function Adjust(l: Level, d: QuoteDelta): (Level, bool) {
    match d.action
    case Insert => (Level(l.price, Wrapped(l.quantity + d.quantity), d.timestamp), true)
    case Remove =>
      var quantity := Wrapped(l.quantity - d.quantity);
      (Level(l.price, quantity, d.timestamp), quantity > 0)
  }

  function AdjustSide(levels: map<U32, Level>, d: QuoteDelta): map<U32, Level> {
    var l := if d.price in levels then levels[d.price] else Level(d.price, 0, 0);
    var (after, retain) := Adjust(l, d);
    if retain then levels[d.price := after] else levels - {d.price}
  }

  function Apply(book: Book, d: QuoteDelta): Book {
    match d.side
    case Buy => book.(buys := AdjustSide(book.buys, d))
    case Sell => book.(sells := AdjustSide(book.sells, d))
  }

  class QuoteAggregate {
    var price: U32
    var quantity: U32
    var lastUpdated: I64

    function Value(): Level
      reads this
    {
      Level(price, quantity, lastUpdated)
    }

    constructor (price: U32)
      ensures Value() == Level(price, 0, 0)
    {
      this.price, quantity, lastUpdated := price, 0, 0;
    }

    method ApplyDelta(delta: QuoteDelta) returns (retain: bool)
      modifies this
      ensures (Value(), retain) == Adjust(old(Value()), delta)
    {
      match delta.action {
        case Insert =>
          quantity := Wrapped(quantity + delta.quantity);
          lastUpdated := delta.timestamp;
          retain := true;
        case Remove =>
          quantity := Wrapped(quantity - delta.quantity);
          lastUpdated := delta.timestamp;
          retain := quantity > 0;
      }
    }
  }

  type Levels = map<U32, QuoteAggregate>

  /** No aggregate serves two prices. */
  ghost predicate Distinct(levels: Levels) {
    forall p, q | p in levels && q in levels && p != q :: levels[p] != levels[q]
  }

  ghost function Values(levels: Levels): map<U32, Level>
    reads levels.Values
  {
    map p | p in levels :: levels[p].Value()
  }

  /** A side none of whose aggregates has changed holds what it held. */
  twostate lemma KeepsValues(levels: Levels)
    requires forall agg | agg in levels.Values :: agg.Value() == old(agg.Value())
    ensures Values(levels) == old(Values(levels))
  {
  }

  class Level1OrderBook {
    var buys: Levels
    var sells: Levels

    ghost predicate Valid()
      reads this
    {
      Distinct(buys) && Distinct(sells) && buys.Values !! sells.Values
    }

    ghost function Contents(): Book
      reads this, buys.Values, sells.Values
    {
      Book(Values(buys), Values(sells))
    }

    constructor ()
      ensures Valid() && Contents() == EMPTY_BOOK
    {
      buys, sells := map[], map[];
    }

    method ApplyDelta(delta: QuoteDelta)
      requires Valid()
      modifies this, buys.Values, sells.Values
      ensures Valid()
      ensures Contents() == Apply(old(Contents()), delta)
      ensures fresh(buys.Values - old(buys.Values)) && fresh(sells.Values - old(sells.Values))
    {
      var (levels, others) := if delta.side.Buy? then (buys, sells) else (sells, buys);
      levels := Update(levels, delta, others.Values);
      KeepsValues(others);
      match delta.side {
        case Buy => buys := levels;
        case Sell => sells := levels;
      }
    }
  }

  /** Finds or makes the level, adjusts it in place, and drops it if nothing is left. */
  method Update(levels: Levels, delta: QuoteDelta, ghost others: set<QuoteAggregate>) returns (r: Levels)
    requires Distinct(levels) && levels.Values !! others
    modifies levels.Values
    ensures Distinct(r) && r.Values !! others && fresh(r.Values - levels.Values)
    ensures Values(r) == AdjustSide(old(Values(levels)), delta)
  {
    r := levels;
    if delta.price !in r {
      var agg := new QuoteAggregate(delta.price);
      r := r[delta.price := agg];
    }
    var retain := r[delta.price].ApplyDelta(delta);
    if !retain {
      r := r - {delta.price};
    }
  }
}
