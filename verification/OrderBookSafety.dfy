/** The generated runs: the book is never crossed, stays small, agrees with the
    ledger of its deltas, and no 32-bit operation wraps. */
module OrderBookSafety {
  import opened Wrappers
  import opened Messages
  import opened IdSets
  import opened OrderBooks

  // ---- The generator

  /** The price a new order must not pass: one below the best sell for a buy, one
      above the best buy for a sell. */
  function CrossLimit(book: Book, side: Side): Option<U32> {
    match side
    case Buy => if book.sells == map[] then None else Some(Wrapped(Least(book.sells.Keys) - 1))
    case Sell => if book.buys == map[] then None else Some(Wrapped(Greatest(book.buys.Keys) + 1))
  }

  /** A sampled price held back to the limit. */
  function HeldBack(book: Book, side: Side, sample: U32): U32 {
    match CrossLimit(book, side)
    case None => sample
    case Some(limit) =>
      match side
      case Buy => if limit < sample then limit else sample
      case Sell => if limit > sample then limit else sample
  }

  /** The deltas the generator may produce from a book and a sampled price. */
  predicate Generates(book: Book, sample: U32, d: QuoteDelta) {
    var levels := book.On(d.side);
    match d.action
    case Insert =>
      && |levels| < MAX_ORDERS
      && d.price == HeldBack(book, d.side, sample)
      && 1 <= d.quantity < MAX_QUANTITY
    case Remove =>
      && |levels| >= MIN_ORDERS
      && exists p :: p in levels && d.price == levels[p].price && 1 <= d.quantity <= levels[p].quantity
  }

  datatype Tick = Tick(sample: U32, delta: QuoteDelta)

  function Play(book: Book, ticks: seq<Tick>): Book
    decreases ticks
  {
    if ticks == [] then book else Play(Apply(book, ticks[0].delta), ticks[1..])
  }

  ghost predicate GeneratedRun(book: Book, ticks: seq<Tick>)
    decreases ticks
  {
    ticks != [] ==>
      Generates(book, ticks[0].sample, ticks[0].delta) && GeneratedRun(Apply(book, ticks[0].delta), ticks[1..])
  }

  function Inserts(ticks: seq<Tick>): nat {
    if ticks == [] then 0 else (if ticks[0].delta.action.Insert? then 1 else 0) + Inserts(ticks[1..])
  }

  // ---- What is kept

  predicate Uncrossed(book: Book) {
    forall b, s | b in book.buys && s in book.sells :: b < s
  }

  predicate WellKept(levels: map<U32, Level>) {
    && |levels| <= MAX_ORDERS
    && forall p | p in levels :: levels[p].price == p && levels[p].quantity > 0
  }

  /** Buys stay below the largest price and sells above zero, so that a limit can
      always be computed. */
  predicate Safe(book: Book) {
    && Uncrossed(book)
    && WellKept(book.buys) && WellKept(book.sells)
    && U32_MAX !in book.buys && 0 !in book.sells
  }

  /** The quantity on offer at a price. */
  function Quantity(book: Book, side: Side, price: U32): int {
    if price in book.On(side) then book.On(side)[price].quantity else 0
  }

  /** The ledger: what the deltas insert less what they remove at a price. */
  function Net(ticks: seq<Tick>, side: Side, price: U32): int {
    if ticks == [] then 0 else Entry(ticks[0].delta, side, price) + Net(ticks[1..], side, price)
  }

  function Entry(d: QuoteDelta, side: Side, price: U32): int {
    if d.side != side || d.price != price then 0
    else if d.action.Insert? then d.quantity
    else 0 - d.quantity
  }

  /** Neither the limits nor the level's new quantity leave the 32-bit range. */
  predicate NothingWraps(book: Book, d: QuoteDelta) {
    && (book.sells != map[] ==> Least(book.sells.Keys) - 1 >= 0)
    && (book.buys != map[] ==> Greatest(book.buys.Keys) + 1 <= U32_MAX)
    && 0 <= Quantity(book, d.side, d.price) + Entry(d, d.side, d.price) <= U32_MAX
  }

  /** With at most this many inserts no level can exceed the 32-bit range. */
  const MAX_INSERTS := U32_MAX / (MAX_QUANTITY - 1)

  /** Every level holds at most what `n` inserts can have put there. */
  ghost predicate Bounded(book: Book, n: nat) {
    forall side, p :: Quantity(book, side, p) <= n * (MAX_QUANTITY - 1)
  }

  ghost predicate RunWrapsNothing(book: Book, ticks: seq<Tick>)
    decreases ticks
  {
    ticks != [] ==>
      NothingWraps(book, ticks[0].delta) && RunWrapsNothing(Apply(book, ticks[0].delta), ticks[1..])
  }

  // ---- Proofs

  /** An insert keeps the book uncrossed exactly when the best opposite price has
      room beside it: a sell at zero or a buy at the largest price makes the
      limit wrap, and then every order generated against it crosses. */
  lemma InsertCrossesIff(book: Book, sample: U32, d: QuoteDelta)
    requires Uncrossed(book) && Generates(book, sample, d) && d.action.Insert?
    ensures Uncrossed(Apply(book, d)) <==> if d.side.Buy? then 0 !in book.sells else U32_MAX !in book.buys
  {
    match d.side
    case Buy =>
      InsertedKeys(book.buys, d);
      if book.sells != map[] {
        BuyStaysBelow(book, sample, d.price);
      }
    case Sell =>
      InsertedKeys(book.sells, d);
      if book.buys != map[] {
        SellStaysAbove(book, sample, d.price);
      }
  }

  /** A sample below one is cast to zero. Once such a sample has put a sell at
      price zero, the limit for a buy wraps to the largest price, and whatever is
      sampled next may be bought at: the book is crossed. */
  lemma ZeroSampleCrosses(sample: U32, quantity: U32, timestamp: I64)
    requires 1 <= quantity < MAX_QUANTITY
    ensures var ticks := [Tick(0, QuoteDelta(Insert, 0, quantity, timestamp, Sell)),
                          Tick(sample, QuoteDelta(Insert, sample, quantity, timestamp, Buy))];
            GeneratedRun(EMPTY_BOOK, ticks) && !Uncrossed(Play(EMPTY_BOOK, ticks))
  {
    var sell, buy := QuoteDelta(Insert, 0, quantity, timestamp, Sell), QuoteDelta(Insert, sample, quantity, timestamp, Buy);
    var ticks := [Tick(0, sell), Tick(sample, buy)];
    assert ticks[1..] == [ticks[1]] && [ticks[1]][1..] == [];
    var sold := Apply(EMPTY_BOOK, sell);
    assert sold.sells.Keys == {0} && sold.buys == map[];
    assert HeldBack(sold, Buy, sample) == sample;
    assert Generates(EMPTY_BOOK, 0, sell) && Generates(sold, sample, buy);
    var bought := Apply(sold, buy);
    assert Play(sold, ticks[1..]) == bought && GeneratedRun(sold, ticks[1..]);
    assert sample in bought.buys && 0 in bought.sells;
  }

  lemma InsertedKeys(levels: map<U32, Level>, d: QuoteDelta)
    requires d.action.Insert?
    ensures forall p :: p in AdjustSide(levels, d) <==> p in levels || p == d.price
  {
  }

  lemma BuyStaysBelow(book: Book, sample: U32, price: U32)
    requires book.sells != map[] && price == HeldBack(book, Buy, sample)
    ensures (forall s | s in book.sells :: price < s) <==> 0 !in book.sells
  {
    var best := Least(book.sells.Keys);
    assert best in book.sells && forall s | s in book.sells :: best <= s;
    if best == 0 {
      assert !(price < best);
    } else {
      assert price < best;
    }
  }

  lemma SellStaysAbove(book: Book, sample: U32, price: U32)
    requires book.buys != map[] && price == HeldBack(book, Sell, sample)
    ensures (forall b | b in book.buys :: b < price) <==> U32_MAX !in book.buys
  {
    var best := Greatest(book.buys.Keys);
    assert best in book.buys && forall b | b in book.buys :: b <= best;
    if best == U32_MAX {
      assert !(best < price);
    } else {
      assert best < price;
    }
  }

  lemma StepWrapsNothing(book: Book, sample: U32, d: QuoteDelta, n: nat)
    requires Safe(book) && Generates(book, sample, d)
    requires Bounded(book, n) && (d.action.Insert? ==> n < MAX_INSERTS)
    ensures NothingWraps(book, d)
  {
    assert Quantity(book, d.side, d.price) <= n * (MAX_QUANTITY - 1);
    if book.sells != map[] {
      assert Least(book.sells.Keys) in book.sells;
    }
    if book.buys != map[] {
      assert Greatest(book.buys.Keys) in book.buys;
    }
  }

  /** When nothing wraps, a delta changes exactly its own level, by its entry. */
  lemma ApplyPosts(book: Book, d: QuoteDelta, side: Side, price: U32)
    requires NothingWraps(book, d)
    ensures Quantity(Apply(book, d), side, price) == Quantity(book, side, price) + Entry(d, side, price)
  {
  }

  /** Every delta changes exactly its own level, by its entry modulo 2^32. */
  lemma ApplyPostsModulo(book: Book, d: QuoteDelta, side: Side, price: U32)
    ensures Quantity(Apply(book, d), side, price) == (Quantity(book, side, price) + Entry(d, side, price)) % 0x1_0000_0000
  {
  }

  /** The level of a delta is there afterwards exactly if the delta is an insert or
      something is left; it is then marked with the delta's time. Every other
      level, of either side, is as it was. */
  lemma ApplyTouches(book: Book, d: QuoteDelta, side: Side, price: U32)
    ensures var before, after := book.On(side), Apply(book, d).On(side);
            if side == d.side && price == d.price then
              && (price in after <==> d.action.Insert? || (Quantity(book, side, price) - d.quantity) % 0x1_0000_0000 != 0)
              && (price in after ==>
                    && after[price].lastUpdated == d.timestamp
                    && after[price].price == if price in before then before[price].price else price)
            else
              (price in after <==> price in before) && (price in before ==> after[price] == before[price])
  {
  }

  // ---- The generator

  /** While the best opposite price has room beside it, a sample that does not
      cross is kept as it is, and one that would is moved right beside that price. */
  lemma HeldBackOnlyIfCrossing(book: Book, side: Side, sample: U32)
    ensures side.Buy? && 0 !in book.sells ==>
              var crosses := exists s :: s in book.sells && s <= sample;
              && (!crosses ==> HeldBack(book, side, sample) == sample)
              && (crosses ==> HeldBack(book, side, sample) + 1 == Least(book.sells.Keys))
    ensures side.Sell? && U32_MAX !in book.buys ==>
              var crosses := exists b :: b in book.buys && b >= sample;
              && (!crosses ==> HeldBack(book, side, sample) == sample)
              && (crosses ==> HeldBack(book, side, sample) == Greatest(book.buys.Keys) + 1)
  {
    if side.Buy? && book.sells != map[] {
      assert Least(book.sells.Keys) in book.sells;
    }
    if side.Sell? && book.buys != map[] {
      assert Greatest(book.buys.Keys) in book.buys;
    }
  }

  /** A side is inserted into exactly while it has fewer than 15 levels, and then
      any quantity from 1 to 99. */
  lemma InsertsIff(book: Book, side: Side, sample: U32, quantity: U32, timestamp: I64)
    ensures Generates(book, sample, QuoteDelta(Insert, HeldBack(book, side, sample), quantity, timestamp, side))
            <==> |book.On(side)| < 15 && 1 <= quantity <= 99
  {
  }

  /** A side is removed from exactly once it has 10 levels, at a price it has, and
      then any quantity up to the whole level. */
  lemma RemovesIff(book: Book, side: Side, sample: U32, price: U32, quantity: U32, timestamp: I64)
    requires WellKept(book.On(side))
    ensures Generates(book, sample, QuoteDelta(Remove, price, quantity, timestamp, side))
            <==> |book.On(side)| >= 10 && price in book.On(side) && 1 <= quantity <= Quantity(book, side, price)
  {
  }

  lemma LevelsKept(levels: map<U32, Level>, d: QuoteDelta)
    requires WellKept(levels)
    requires d.action.Insert? ==> |levels| < MAX_ORDERS && d.quantity > 0
    requires d.action.Remove? ==> d.price in levels && d.quantity <= levels[d.price].quantity
    requires var q := if d.price in levels then levels[d.price].quantity else 0;
             d.action.Insert? ==> q + d.quantity <= U32_MAX
    ensures WellKept(AdjustSide(levels, d))
    ensures AdjustSide(levels, d).Keys <= levels.Keys + {d.price}
    ensures d.action.Remove? ==> AdjustSide(levels, d).Keys <= levels.Keys
  {
    var after := AdjustSide(levels, d);
    if d.price in after {
      assert after.Keys == levels.Keys + {d.price};
      assert |after.Keys| <= |levels.Keys| + 1;
      if d.price in levels {
        assert after.Keys == levels.Keys;
      }
    } else {
      assert after.Keys == levels.Keys - {d.price};
      assert |after.Keys| <= |levels.Keys|;
    }
  }

  /** The new price of a generated insert leaves room for the next limit. */
  lemma HeldBackLeavesRoom(book: Book, side: Side, sample: U32)
    requires Safe(book) && 1 <= sample < U32_MAX
    ensures side.Buy? ==> HeldBack(book, side, sample) < U32_MAX
    ensures side.Sell? ==> HeldBack(book, side, sample) > 0
  {
    if side.Buy? && book.sells != map[] {
      assert Least(book.sells.Keys) in book.sells;
    }
    if side.Sell? && book.buys != map[] {
      assert Greatest(book.buys.Keys) in book.buys;
    }
  }

  lemma InsertKeepsSafe(book: Book, sample: U32, d: QuoteDelta)
    requires Safe(book) && Generates(book, sample, d) && d.action.Insert?
    requires 1 <= sample < U32_MAX && NothingWraps(book, d)
    ensures Safe(Apply(book, d))
  {
    InsertCrossesIff(book, sample, d);
    HeldBackLeavesRoom(book, d.side, sample);
    LevelsKept(book.On(d.side), d);
  }

  lemma RemoveKeepsSafe(book: Book, sample: U32, d: QuoteDelta)
    requires Safe(book) && Generates(book, sample, d) && d.action.Remove?
    ensures Safe(Apply(book, d))
  {
    LevelsKept(book.On(d.side), d);
  }

  lemma StepKeepsBound(book: Book, d: QuoteDelta, n: nat)
    requires Bounded(book, n) && NothingWraps(book, d) && d.quantity >= 0
    requires d.action.Insert? ==> d.quantity < MAX_QUANTITY
    ensures Bounded(Apply(book, d), if d.action.Insert? then n + 1 else n)
  {
    forall side, p
      ensures Quantity(Apply(book, d), side, p) <= (if d.action.Insert? then n + 1 else n) * (MAX_QUANTITY - 1)
    {
      ApplyPosts(book, d, side, p);
      assert Quantity(book, side, p) <= n * (MAX_QUANTITY - 1);
    }
  }

  lemma {:induction false} GeneratedRunIsSafe(book: Book, ticks: seq<Tick>, n: nat)
    requires Safe(book) && Bounded(book, n) && GeneratedRun(book, ticks)
    requires forall t | t in ticks :: 1 <= t.sample < U32_MAX
    requires n + Inserts(ticks) <= MAX_INSERTS
    ensures Safe(Play(book, ticks)) && RunWrapsNothing(book, ticks)
    ensures forall side, price :: Quantity(Play(book, ticks), side, price) == Quantity(book, side, price) + Net(ticks, side, price)
    decreases ticks
  {
    if ticks != [] {
      var t := ticks[0];
      var next := Apply(book, t.delta);
      assert t in ticks;
      StepWrapsNothing(book, t.sample, t.delta, n);
      StepKeepsBound(book, t.delta, n);
      if t.delta.action.Insert? {
        InsertKeepsSafe(book, t.sample, t.delta);
      } else {
        RemoveKeepsSafe(book, t.sample, t.delta);
      }
      GeneratedRunIsSafe(next, ticks[1..], if t.delta.action.Insert? then n + 1 else n);
      forall side, price
        ensures Quantity(Play(book, ticks), side, price) == Quantity(book, side, price) + Net(ticks, side, price)
      {
        ApplyPosts(book, t.delta, side, price);
        assert Quantity(Play(next, ticks[1..]), side, price) == Quantity(next, side, price) + Net(ticks[1..], side, price);
      }
    }
  }

  lemma EmptyBookIsSafe()
    ensures Safe(EMPTY_BOOK) && Bounded(EMPTY_BOOK, 0)
    ensures forall side, price :: Quantity(EMPTY_BOOK, side, price) == 0
  {
  }

  /** For every generated run with sampled prices from 1 to 2^32 - 2 and at most
      43383508 inserts: the book is never crossed, has at most 15 levels a side,
      each with its own price and a positive quantity equal to the inserts less
      the removes at that price, and no 32-bit operation wraps. */
  lemma BookMatchesLedger(ticks: seq<Tick>)
    requires GeneratedRun(EMPTY_BOOK, ticks)
    requires forall t | t in ticks :: 1 <= t.sample < U32_MAX
    requires Inserts(ticks) <= 43_383_508
    ensures Safe(Play(EMPTY_BOOK, ticks))
    ensures |Play(EMPTY_BOOK, ticks).buys| <= 15 && |Play(EMPTY_BOOK, ticks).sells| <= 15
    ensures forall side, price :: Quantity(Play(EMPTY_BOOK, ticks), side, price) == Net(ticks, side, price)
    ensures RunWrapsNothing(EMPTY_BOOK, ticks)
  {
    EmptyBookIsSafe();
    assert MAX_INSERTS == 43_383_508;
    GeneratedRunIsSafe(EMPTY_BOOK, ticks, 0);
  }
}
