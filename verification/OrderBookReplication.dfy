/** The order book carried over the protocol: the replicated book is safe and
    agrees with the ledger in every reachable state. */
module OrderBookReplication {
  import opened Wrappers
  import opened Messages
  import opened OrderBooks
  import opened OrderBookSafety
  import opened PublisherSafety
  import opened Replication

  /** The order book as a synchronised application; applying a quote delta never fails. */
  function BookApp(encode: QuoteDelta -> Bytes, decode: Bytes -> Option<QuoteDelta>): StateSync<Book, QuoteDelta> {
    StateSync(EMPTY_BOOK, (book: Book, d: QuoteDelta) => Applied(Apply(book, d), true), encode, decode)
  }

  // ---- Trading runs

  /** The delta may be generated from the book with a sample inside the price range. */
  ghost predicate Sampled(book: Book, d: QuoteDelta) {
    exists sample: U32 :: 1 <= sample < U32_MAX && Generates(book, sample, d)
  }

  /** A delta that gets stamped was generated from the publisher's current book. */
  ghost predicate TradingStep(p: P.Publisher<Book, QuoteDelta>, act: P.Action<QuoteDelta>) {
    act.StampDelta? && p.status.Up? && p.main.Idle? && P.CanStamp(p) ==> Sampled(p.history[|p.history| - 1], act.delta)
  }

  ghost predicate TradingRun(u: Setup<Book, QuoteDelta>, sys: System<Book, QuoteDelta>, actions: seq<Action<QuoteDelta>>)
    decreases actions
  {
    actions != [] ==>
      && (actions[0].Publish? ==> TradingStep(sys.pub, actions[0].act))
      && TradingRun(u, Do(u, sys, actions[0]), actions[1..])
  }

  /** Every delta the incarnation stamped was generated from the book it found. */
  ghost predicate Traded(p: P.Publisher<Book, QuoteDelta>) {
    && |p.history| == |p.stamps| + 1
    && forall i | 0 <= i < |p.stamps| && p.stamps[i].Change? :: Sampled(p.history[i], p.stamps[i].delta)
  }

  lemma DoKeepsTraded(app: StateSync<Book, QuoteDelta>, wire: Protobuf, p: P.Publisher<Book, QuoteDelta>, act: P.Action<QuoteDelta>)
    requires Traded(p) && TradingStep(p, act)
    ensures Traded(P.Do(app, wire, p, act))
  {
  }

  lemma {:induction false} RunKeepsTraded(u: Setup<Book, QuoteDelta>, sys: System<Book, QuoteDelta>, actions: seq<Action<QuoteDelta>>)
    requires Traded(sys.pub) && TradingRun(u, sys, actions)
    ensures Traded(Run(u, sys, actions).pub)
    decreases actions
  {
    if actions != [] {
      if actions[0].Publish? {
        DoKeepsTraded(u.app, u.wire, sys.pub, actions[0].act);
      }
      RunKeepsTraded(u, Do(u, sys, actions[0]), actions[1..]);
    }
  }

  // ---- The publisher's trades

  /** The deltas among the stamps. */
  function Trades<D>(stamps: seq<P.Stamp<D>>): seq<D> {
    if stamps == [] then []
    else Trades(stamps[..|stamps| - 1]) + Trade(stamps[|stamps| - 1])
  }

  /** What a stamp leaves in the log. */
  function Trade<D>(stamp: P.Stamp<D>): seq<D> {
    if stamp.Change? then [stamp.delta] else []
  }

  /** Every row of the incarnation holds what its id was stamped for. */
  ghost predicate HoldsTrades<S, D>(app: StateSync<S, D>, truth: map<int, RawMessage>, stamps: seq<P.Stamp<D>>, base: int) {
    forall id | id in truth && base <= id :: id < base + |stamps| && DeltaOf(app, truth[id]) == Trade(stamps[id - base])
  }

  /** An unbroken stretch of the incarnation's rows holds exactly its trades. */
  lemma {:induction false} StretchHoldsTrades<S, D>(app: StateSync<S, D>, truth: map<int, RawMessage>, stamps: seq<P.Stamp<D>>, base: int, k: int)
    requires HoldsTrades(app, truth, stamps, base)
    requires base <= k && forall id | base <= id < k :: id in truth
    ensures k <= base + |stamps| && LogDeltas(app, truth, base, k) == Trades(stamps[..k - base])
    decreases k - base
  {
    if k > base {
      StretchHoldsTrades(app, truth, stamps, base, k - 1);
      assert k - 1 in truth;
      assert stamps[..k - base][..k - 1 - base] == stamps[..k - 1 - base];
    }
  }

  lemma RowsHoldTrades<S, D(!new)>(app: StateSync<S, D>, wire: Protobuf, p: P.Publisher<S, D>)
    requires HistoryFolds(app, p) && LogHolds(app, wire, p) && Codes(app, wire)
    ensures HoldsTrades(app, Recovery.Entries(wire, p.rows), p.stamps, p.base)
  {
    forall id | id in Recovery.Entries(wire, p.rows) && p.base <= id
      ensures id < p.base + |p.stamps| && DeltaOf(app, Recovery.Entries(wire, p.rows)[id]) == Trade(p.stamps[id - p.base])
    {
      RowHoldsTrade(app, wire, p, id);
    }
  }

  lemma RowHoldsTrade<S, D(!new)>(app: StateSync<S, D>, wire: Protobuf, p: P.Publisher<S, D>, id: int)
    requires HistoryFolds(app, p) && LogHolds(app, wire, p) && Codes(app, wire) && p.base <= id && id in p.rows
    ensures id < p.Counter() && id in Recovery.Entries(wire, p.rows)
    ensures DeltaOf(app, Recovery.Entries(wire, p.rows)[id]) == Trade(p.stamps[id - p.base])
  {
    assert Readable(app, wire, id, p.rows[id]);
    assert Carries(app, p, wire.decode(p.rows[id]).value);
    var stamp := p.stamps[id - p.base];
    if stamp.Change? {
      assert app.decode(app.encode(stamp.delta)) == Some(stamp.delta);
    }
  }

  // ---- The ledger

  /** What deltas insert less what they remove at a price. */
  function Ledger(deltas: seq<QuoteDelta>, side: Side, price: U32): int {
    if deltas == [] then 0 else Entry(deltas[0], side, price) + Ledger(deltas[1..], side, price)
  }

  /** The book holds at every price what the deltas insert less what they remove. */
  ghost predicate FollowsLedger(book: Book, deltas: seq<QuoteDelta>) {
    forall side, price :: Quantity(book, side, price) == Ledger(deltas, side, price)
  }

  function InsertCount(deltas: seq<QuoteDelta>): nat {
    if deltas == [] then 0 else (if deltas[0].action.Insert? then 1 else 0) + InsertCount(deltas[1..])
  }

  function Quoted(ticks: seq<Tick>): seq<QuoteDelta> {
    seq(|ticks|, i requires 0 <= i < |ticks| => ticks[i].delta)
  }

  lemma {:induction false} QuotedAgrees(ticks: seq<Tick>)
    ensures Inserts(ticks) == InsertCount(Quoted(ticks))
    ensures forall side, price :: Net(ticks, side, price) == Ledger(Quoted(ticks), side, price)
    decreases ticks
  {
    if ticks != [] {
      assert Quoted(ticks)[1..] == Quoted(ticks[1..]);
      QuotedAgrees(ticks[1..]);
    }
  }

  lemma {:induction false} InsertCountPrefix(a: seq<QuoteDelta>, b: seq<QuoteDelta>)
    ensures InsertCount(a) <= InsertCount(a + b)
    decreases a
  {
    if a != [] {
      assert (a + b)[0] == a[0] && (a + b)[1..] == a[1..] + b;
      InsertCountPrefix(a[1..], b);
    }
  }

  lemma {:induction false} TradesPrefix<D>(stamps: seq<P.Stamp<D>>, k: nat) returns (rest: seq<D>)
    requires k <= |stamps|
    ensures Trades(stamps) == Trades(stamps[..k]) + rest
    decreases |stamps|
  {
    if k == |stamps| {
      assert stamps[..k] == stamps;
      rest := [];
    } else {
      var m := |stamps| - 1;
      var shorter := TradesPrefix(stamps[..m], k);
      assert stamps[..m][..k] == stamps[..k];
      ConcatAssociates(Trades(stamps[..k]), shorter, Trade(stamps[m]));
      rest := shorter + Trade(stamps[m]);
    }
  }

  // ---- The publisher's books are generated runs

  lemma {:induction false} PlaySnoc(book: Book, ticks: seq<Tick>, t: Tick)
    requires GeneratedRun(book, ticks) && Generates(Play(book, ticks), t.sample, t.delta)
    ensures GeneratedRun(book, ticks + [t])
    ensures Play(book, ticks + [t]) == Apply(Play(book, ticks), t.delta)
    decreases ticks
  {
    if ticks == [] {
      assert ticks + [t] == [t] && [t][1..] == [];
    } else {
      assert (ticks + [t])[0] == ticks[0] && (ticks + [t])[1..] == ticks[1..] + [t];
      PlaySnoc(Apply(book, ticks[0].delta), ticks[1..], t);
    }
  }

  /** One more stamp extends the run by its delta, if it is for one. */
  lemma Played(app: StateSync<Book, QuoteDelta>, before: seq<Tick>, book: Book, stamp: P.Stamp<QuoteDelta>) returns (ticks: seq<Tick>)
    requires app == BookApp(app.encode, app.decode)
    requires GeneratedRun(EMPTY_BOOK, before) && Play(EMPTY_BOOK, before) == book
    requires stamp.Change? ==> Sampled(book, stamp.delta)
    ensures Quoted(ticks) == Quoted(before) + Trade(stamp)
    ensures GeneratedRun(EMPTY_BOOK, ticks) && Play(EMPTY_BOOK, ticks) == Effect(app, book, stamp).state
    ensures forall t | t in ticks :: t in before || 1 <= t.sample < U32_MAX
  {
    ticks := before;
    if stamp.Change? {
      var sample: U32 :| 1 <= sample < U32_MAX && Generates(book, sample, stamp.delta);
      var t := Tick(sample, stamp.delta);
      PlaySnoc(EMPTY_BOOK, before, t);
      assert Quoted(before + [t]) == Quoted(before) + [stamp.delta];
      ticks := before + [t];
    }
  }

  /** Every state of the publisher is the book that its trades so far, a
      generated run, make of the empty one. */
  lemma {:induction false} HistoryIsPlayed(app: StateSync<Book, QuoteDelta>, p: P.Publisher<Book, QuoteDelta>, k: nat) returns (ticks: seq<Tick>)
    requires app == BookApp(app.encode, app.decode)
    requires HistoryFolds(app, p) && Traded(p) && k <= |p.stamps|
    ensures Quoted(ticks) == Trades(p.stamps[..k])
    ensures GeneratedRun(EMPTY_BOOK, ticks) && Play(EMPTY_BOOK, ticks) == p.history[k]
    ensures forall t | t in ticks :: 1 <= t.sample < U32_MAX
    decreases k
  {
    if k == 0 {
      ticks := [];
    } else {
      var before := HistoryIsPlayed(app, p, k - 1);
      assert p.stamps[..k][..k - 1] == p.stamps[..k - 1];
      assert p.history[k] == Effect(app, p.history[k - 1], p.stamps[k - 1]).state;
      ticks := Played(app, before, p.history[k - 1], p.stamps[k - 1]);
    }
  }

  lemma HistoryIsSafe(app: StateSync<Book, QuoteDelta>, p: P.Publisher<Book, QuoteDelta>, k: nat)
    requires app == BookApp(app.encode, app.decode)
    requires HistoryFolds(app, p) && Traded(p) && k <= |p.stamps|
    requires InsertCount(Trades(p.stamps)) <= 43_383_508
    ensures Safe(p.history[k]) && FollowsLedger(p.history[k], Trades(p.stamps[..k]))
  {
    var ticks := HistoryIsPlayed(app, p, k);
    var rest := TradesPrefix(p.stamps, k);
    InsertCountPrefix(Trades(p.stamps[..k]), rest);
    QuotedAgrees(ticks);
    BookMatchesLedger(ticks);
  }

  // ---- The replicated book

  /** The replica has applied the publisher's trades before `k`, and its book is
      never crossed, stays small and follows their ledger. */
  ghost predicate TradesReplicated(sys: System<Book, QuoteDelta>, start: int, k: int) {
    && start <= k <= sys.seqr.view.want && k - start <= |sys.pub.stamps|
    && sys.agg.applied == Trades(sys.pub.stamps[..k - start]) && !sys.agg.failed
    && Safe(sys.agg.state)
    && FollowsLedger(sys.agg.state, sys.agg.applied)
  }

  /** Over every honest run in which the publisher's deltas are generated from its
      current book, with samples from 1 to 2^32 - 2 and at most 43383508 inserts
      in the incarnation the subscriber started with: in every reachable state
      the replica has applied the publisher's first trades, and its book is never
      crossed, stays small and holds at every price what those insert less what
      they remove. */
  lemma ReplicatedBookIsSafe(u: Setup<Book, QuoteDelta>, start: int, clock: int, actions: seq<Action<QuoteDelta>>) returns (k: int)
    requires u.app == BookApp(u.app.encode, u.app.decode) && Codes(u.app, u.wire)
    requires HonestRun(u, Initial(u, start, clock), actions) && TradingRun(u, Initial(u, start, clock), actions)
    requires var sys := Run(u, Initial(u, start, clock), actions);
             sys.pub.base == start && InsertCount(Trades(sys.pub.stamps)) <= 43_383_508
    ensures TradesReplicated(Run(u, Initial(u, start, clock), actions), start, k)
  {
    k := HistoricalReplica(u, start, clock, actions);
    ReachableBookFollows(u, start, clock, actions, k);
    BookTransfers(u, start, Run(u, Initial(u, start, clock), actions), k);
  }

  /** The replica is the publisher's state as of `k`, every id before which is logged. */
  ghost predicate Historical(u: Setup<Book, QuoteDelta>, start: int, sys: System<Book, QuoteDelta>, k: int) {
    && start == sys.pub.base && start <= k <= sys.seqr.view.want && k - start < |sys.pub.history|
    && (forall id | start <= id < k :: id in sys.pub.rows)
    && sys.agg.state == sys.pub.history[k - start] && !sys.agg.failed
    && sys.agg.applied == LogDeltas(u.app, Truth(u, sys), start, k)
  }

  lemma HistoricalReplica(u: Setup<Book, QuoteDelta>, start: int, clock: int, actions: seq<Action<QuoteDelta>>) returns (k: int)
    requires Codes(u.app, u.wire) && HonestRun(u, Initial(u, start, clock), actions)
    requires Run(u, Initial(u, start, clock), actions).pub.base == start
    ensures Historical(u, start, Run(u, Initial(u, start, clock), actions), k)
  {
    k := ReplicaIsHistorical(u, start, clock, actions);
  }

  lemma BookTransfers(u: Setup<Book, QuoteDelta>, start: int, sys: System<Book, QuoteDelta>, k: int)
    requires Historical(u, start, sys, k) && BookAt(u, sys.pub, k)
    ensures TradesReplicated(sys, start, k)
  {
  }

  lemma ReachableBookFollows(u: Setup<Book, QuoteDelta>, start: int, clock: int, actions: seq<Action<QuoteDelta>>, k: int)
    requires u.app == BookApp(u.app.encode, u.app.decode) && Codes(u.app, u.wire)
    requires HonestRun(u, Initial(u, start, clock), actions) && TradingRun(u, Initial(u, start, clock), actions)
    requires var p := Run(u, Initial(u, start, clock), actions).pub;
             && p.base <= k && (forall id | p.base <= id < k :: id in p.rows)
             && InsertCount(Trades(p.stamps)) <= 43_383_508
    ensures BookAt(u, Run(u, Initial(u, start, clock), actions).pub, k)
  {
    ReachablePublisher(u, start, clock, actions);
    ReachableTraded(u, start, clock, actions);
    BookFollows(u, Run(u, Initial(u, start, clock), actions).pub, k);
  }

  lemma ReachableTraded(u: Setup<Book, QuoteDelta>, start: int, clock: int, actions: seq<Action<QuoteDelta>>)
    requires TradingRun(u, Initial(u, start, clock), actions)
    ensures Traded(Run(u, Initial(u, start, clock), actions).pub)
  {
    RunKeepsTraded(u, Initial(u, start, clock), actions);
  }

  /** The log up to `k` holds the first trades, and the publisher's book as of `k` follows their ledger. */
  ghost predicate BookAt(u: Setup<Book, QuoteDelta>, p: P.Publisher<Book, QuoteDelta>, k: int) {
    && 0 <= k - p.base <= |p.stamps| && |p.history| == |p.stamps| + 1
    && var trades := Trades(p.stamps[..k - p.base]);
    && LogDeltas(u.app, Recovery.Entries(u.wire, p.rows), p.base, k) == trades
    && Safe(p.history[k - p.base]) && FollowsLedger(p.history[k - p.base], trades)
  }

  lemma BookFollows(u: Setup<Book, QuoteDelta>, p: P.Publisher<Book, QuoteDelta>, k: int)
    requires u.app == BookApp(u.app.encode, u.app.decode) && Codes(u.app, u.wire)
    requires PublisherSafety.Inv(u.app, u.wire, p) && Traded(p) && InsertCount(Trades(p.stamps)) <= 43_383_508
    requires p.base <= k && forall id | p.base <= id < k :: id in p.rows
    ensures BookAt(u, p, k)
  {
    RowsHoldTrades(u.app, u.wire, p);
    RowsAreEntries(u.app, u.wire, p);
    StretchHoldsTrades(u.app, Recovery.Entries(u.wire, p.rows), p.stamps, p.base, k);
    HistoryIsSafe(u.app, p, k - p.base);
  }
}
