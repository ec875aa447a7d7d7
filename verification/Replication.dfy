/** Publisher, lossy network, recovery service, sequencer and aggregator as one
    system, and what the replica is at any moment of any run. */
module Replication {
  import opened Wrappers
  import opened Messages
  import opened MasterLogs
  import P = PublisherSystem
  import opened PublisherSafety
  import opened Sequencing
  import opened SequencerSafety
  import A = Aggregation
  import AS = AggregationSafety
  import opened Recovery

  /** The protocol's parameters. */
  datatype Setup<!S, !D> = Setup(app: StateSync<S, D>, wire: Protobuf, timeout: nat, capacity: nat) {
    function Cfg(): Config<D> {
      Config(timeout, app.decode)
    }
  }

  datatype System<+S, +D> = System(pub: P.Publisher<S, D>, seqr: Machine, agg: A.Memory<S, D>)

  datatype Action<+D> =
    | Publish(act: P.Action<D>)
    | Sequence(step: Step)
    | Aggregate(turn: A.Action<D>)

  function Initial<S, D>(u: Setup<S, D>, start: int, clock: int): System<S, D> {
    System(P.Initial(u.app), Machine(Fresh(start, clock), false), A.Blank(u.app))
  }

  /** The network may lose, repeat and reorder datagrams but makes none up, and
      both recovery services answer from the log, in part or not at all. */
  ghost predicate Honest<S, D>(u: Setup<S, D>, sys: System<S, D>, a: Action<D>) {
    a.Sequence? && a.step.Wait? ==>
      var r := a.step.round;
      && (r.udp.Packet? ==> exists frame :: frame in sys.pub.sent && ReadDatagram(u.wire, frame) == Ok(Some(r.udp.msg)))
      && (r.single.Got? ==> InLog(Entries(u.wire, sys.pub.rows), r.single.msg))
      && (r.batch.Opened? ==> ItemsInLog(Entries(u.wire, sys.pub.rows), r.batch.items))
  }

  /** The sequencer is called only while the forwarding task waits for it. */
  function DoSequence<S, D>(u: Setup<S, D>, sys: System<S, D>, step: Step): System<S, D> {
    if step.Call? && !sys.agg.forwarder.Pulling? then sys
    else
      var t := Fire(u.Cfg(), sys.seqr, step);
      sys.(seqr := After(sys.seqr, step, t),
           agg := if t.outcome.Some? then A.DoReceive(sys.agg, t.outcome.value) else sys.agg)
  }

  function Do<S, D>(u: Setup<S, D>, sys: System<S, D>, a: Action<D>): System<S, D> {
    match a
    case Publish(act) => sys.(pub := P.Do(u.app, u.wire, sys.pub, act))
    case Sequence(step) => DoSequence(u, sys, step)
    case Aggregate(turn) =>
      if turn.Receive? then sys else sys.(agg := A.Do(u.app, u.capacity, sys.agg, turn))
  }

  function Run<S, D>(u: Setup<S, D>, sys: System<S, D>, actions: seq<Action<D>>): System<S, D>
    decreases actions
  {
    if actions == [] then sys else Run(u, Do(u, sys, actions[0]), actions[1..])
  }

  ghost predicate HonestRun<S, D>(u: Setup<S, D>, sys: System<S, D>, actions: seq<Action<D>>)
    decreases actions
  {
    actions != [] ==> Honest(u, sys, actions[0]) && HonestRun(u, Do(u, sys, actions[0]), actions[1..])
  }

  lemma {:induction false} RunConcat<S, D>(u: Setup<S, D>, sys: System<S, D>, a: seq<Action<D>>, b: seq<Action<D>>)
    ensures Run(u, sys, a + b) == Run(u, Run(u, sys, a), b)
    ensures HonestRun(u, sys, a + b) <==> HonestRun(u, sys, a) && HonestRun(u, Run(u, sys, a), b)
    decreases a
  {
    if a == [] {
      assert a + b == b;
    } else {
      assert (a + b)[0] == a[0] && (a + b)[1..] == a[1..] + b;
      RunConcat(u, Do(u, sys, a[0]), a[1..], b);
    }
  }

  // ---- The deltas of the log

  function DeltaOf<S, D>(app: StateSync<S, D>, msg: RawMessage): seq<D> {
    if msg.payload.Some? && msg.payload.value.Delta? then Listed(app.decode(msg.payload.value.body)) else []
  }

  /** The deltas logged under the ids from `lo` up to, not including, `hi`. */
  function LogDeltas<S, D>(app: StateSync<S, D>, truth: map<int, RawMessage>, lo: int, hi: int): seq<D>
    decreases hi - lo
  {
    if lo >= hi then []
    else LogDeltas(app, truth, lo, hi - 1) + if hi - 1 in truth then DeltaOf(app, truth[hi - 1]) else []
  }

  lemma {:induction false} LogDeltasStable<S, D>(app: StateSync<S, D>, t1: map<int, RawMessage>, t2: map<int, RawMessage>, lo: int, hi: int)
    requires forall id | lo <= id < hi :: id in t1 && id in t2 && t1[id] == t2[id]
    ensures LogDeltas(app, t1, lo, hi) == LogDeltas(app, t2, lo, hi)
    decreases hi - lo
  {
    if lo < hi {
      LogDeltasStable(app, t1, t2, lo, hi - 1);
    }
  }

  lemma {:induction false} LogDeltasSplit<S, D>(app: StateSync<S, D>, truth: map<int, RawMessage>, lo: int, mid: int, hi: int)
    requires lo <= mid <= hi
    ensures LogDeltas(app, truth, lo, hi) == LogDeltas(app, truth, lo, mid) + LogDeltas(app, truth, mid, hi)
    decreases hi - mid
  {
    if mid < hi {
      LogDeltasSplit(app, truth, lo, mid, hi - 1);
      ConcatAssociates(LogDeltas(app, truth, lo, mid), LogDeltas(app, truth, mid, hi - 1),
                   if hi - 1 in truth then DeltaOf(app, truth[hi - 1]) else []);
    }
  }

  /** A prefix of a stretch's deltas is all the deltas of some shorter stretch. */
  lemma {:induction false} PrefixIsStretch<S, D>(app: StateSync<S, D>, truth: map<int, RawMessage>, lo: int, hi: int, n: nat) returns (k: int)
    requires lo <= hi && n <= |LogDeltas(app, truth, lo, hi)|
    ensures lo <= k <= hi
    ensures LogDeltas(app, truth, lo, k) == LogDeltas(app, truth, lo, hi)[..n]
    decreases hi - lo
  {
    if n == |LogDeltas(app, truth, lo, hi)| {
      k := hi;
    } else {
      var shorter := LogDeltas(app, truth, lo, hi - 1);
      assert n <= |shorter|;
      k := PrefixIsStretch(app, truth, lo, hi - 1, n);
    }
  }

  // ---- The invariant

  function Truth<S, D>(u: Setup<S, D>, sys: System<S, D>): map<int, RawMessage> {
    Entries(u.wire, sys.pub.rows)
  }

  ghost predicate Inv<S, D>(u: Setup<S, D>, start: int, sys: System<S, D>) {
    && PublisherSafety.Inv(u.app, u.wire, sys.pub)
    && Sound(sys.seqr)
    && HoldsLog(Truth(u, sys), sys.seqr.view)
    && start <= sys.seqr.view.want
    && (forall id | start <= id < sys.seqr.view.want :: id in sys.pub.rows)
    && AS.Consistent(u.app, u.capacity, sys.agg)
    && AS.TakenIn(sys.agg) == LogDeltas(u.app, Truth(u, sys), start, sys.seqr.view.want)
    && (sys.seqr.listening ==> sys.agg.forwarder.Pulling?)
  }

  ghost predicate ReadableRows<S, D>(app: StateSync<S, D>, wire: Protobuf, rows: Rows) {
    forall id | id in rows :: Readable(app, wire, id, rows[id])
  }

  lemma RowsAreEntries<S, D(!new)>(app: StateSync<S, D>, wire: Protobuf, p: P.Publisher<S, D>)
    requires PublisherSafety.Inv(app, wire, p)
    ensures WellFormed(wire, p.rows)
    ensures forall id :: id in p.rows <==> id in Entries(wire, p.rows)
    ensures ReadableRows(app, wire, p.rows)
  {
    forall id | id in p.rows
      ensures Readable(app, wire, id, p.rows[id])
    {
    }
  }

  lemma PublishKeepsInv<S, D(!new)>(u: Setup<S, D>, start: int, sys: System<S, D>, act: P.Action<D>)
    requires Inv(u, start, sys) && Codes(u.app, u.wire)
    ensures Inv(u, start, Do(u, sys, Publish(act)))
  {
    var next := Do(u, sys, Publish(act));
    PublisherSafety.DoKeepsInv(u.app, u.wire, sys.pub, act);
    DoGrowsLog(u.app, u.wire, sys.pub, act);
    RowsAreEntries(u.app, u.wire, sys.pub);
    RowsAreEntries(u.app, u.wire, next.pub);
    LogDeltasStable(u.app, Truth(u, sys), Truth(u, next), start, sys.seqr.view.want);
    assert forall m | InLog(Truth(u, sys), m) :: InLog(Truth(u, next), m);
  }

  /** Everything an honest environment supplies is a log entry. */
  lemma HonestGivesLog<S, D(!new)>(u: Setup<S, D>, sys: System<S, D>, step: Step)
    requires PublisherSafety.Inv(u.app, u.wire, sys.pub) && Honest(u, sys, Sequence(step))
    ensures GivesLog(Truth(u, sys), step)
  {
    if step.Wait? && step.round.udp.Packet? {
      var frame :| frame in sys.pub.sent && ReadDatagram(u.wire, frame) == Ok(Some(step.round.udp.msg));
      var id := SentReadsAsLogged(u.app, u.wire, sys.pub, frame);
    }
  }

  /** A consumed log entry reaches the forwarding task as the entry's delta, if it has one. */
  lemma ParsedEntry<S, D>(u: Setup<S, D>, rows: Rows, m: ReceivedMessage)
    requires ReadableRows(u.app, u.wire, rows) && InLog(Entries(u.wire, rows), m.raw)
    ensures !Parse(u.Cfg(), m).Failed?
    ensures Listed(A.GetDelta(Parse(u.Cfg(), m))) == DeltaOf(u.app, m.raw)
  {
    assert Readable(u.app, u.wire, m.Id(), rows[m.Id()]);
  }

  /** What taking one result adds to the deltas taken in. */
  lemma ReceiveAdds<S, D>(a: A.Memory<S, D>, result: Outcome<D>)
    requires a.forwarder.Pulling?
    ensures AS.TakenIn(A.DoReceive(a, result)) == AS.TakenIn(a) + Listed(A.GetDelta(result))
  {
  }

  lemma FireLogStep<S, D(!new)>(u: Setup<S, D>, sys: System<S, D>, step: Step)
    requires PublisherSafety.Inv(u.app, u.wire, sys.pub) && HoldsLog(Truth(u, sys), sys.seqr.view)
    requires Honest(u, sys, Sequence(step))
    ensures var t := Fire(u.Cfg(), sys.seqr, step);
            && HoldsLog(Truth(u, sys), t.view)
            && (t.consumed.Some? ==> InLog(Truth(u, sys), t.consumed.value.raw))
  {
    HonestGivesLog(u, sys, step);
    match step
    case Call(e) => EnterKeepsLog(u.Cfg(), sys.seqr.view, e, Truth(u, sys));
    case Wait(r) => ListenKeepsLog(u.Cfg(), sys.seqr.view, r, Truth(u, sys));
  }

  /** One step of the sequencer takes in exactly the delta of the entry it consumes. */
  lemma SequenceTakesIn<S, D>(u: Setup<S, D>, rows: Rows, start: int, seqr: Machine, agg: A.Memory<S, D>, step: Step)
    requires ReadableRows(u.app, u.wire, rows)
    requires start <= seqr.view.want && forall id | start <= id < seqr.view.want :: id in rows
    requires AS.TakenIn(agg) == LogDeltas(u.app, Entries(u.wire, rows), start, seqr.view.want)
    requires agg.forwarder.Pulling?
    requires var t := Fire(u.Cfg(), seqr, step); t.consumed.Some? ==> InLog(Entries(u.wire, rows), t.consumed.value.raw)
    ensures var t := Fire(u.Cfg(), seqr, step);
            && start <= t.view.want && (forall id | start <= id < t.view.want :: id in rows)
            && AS.TakenIn(if t.outcome.Some? then A.DoReceive(agg, t.outcome.value) else agg)
               == LogDeltas(u.app, Entries(u.wire, rows), start, t.view.want)
  {
    var t := Fire(u.Cfg(), seqr, step);
    FireConsumes(u.Cfg(), seqr, step);
    if t.outcome.Some? {
      ReceiveAdds(agg, t.outcome.value);
    }
    if t.consumed.Some? {
      ParsedEntry(u, rows, t.consumed.value);
    }
  }

  lemma SequenceKeepsInv<S, D(!new)>(u: Setup<S, D>, start: int, sys: System<S, D>, step: Step)
    requires Inv(u, start, sys) && Honest(u, sys, Sequence(step))
    ensures Inv(u, start, DoSequence(u, sys, step))
  {
    if sys.agg.forwarder.Pulling? {
      var t := Fire(u.Cfg(), sys.seqr, step);
      FireKeepsSound(u.Cfg(), sys.seqr, step);
      FireConsumes(u.Cfg(), sys.seqr, step);
      FireLogStep(u, sys, step);
      RowsAreEntries(u.app, u.wire, sys.pub);
      SequenceTakesIn(u, sys.pub.rows, start, sys.seqr, sys.agg, step);
      if t.outcome.Some? {
        AS.DoKeepsConsistent(u.app, u.capacity, sys.agg, A.Receive(t.outcome.value));
      }
    }
  }

  lemma AggregateKeepsInv<S, D(!new)>(u: Setup<S, D>, start: int, sys: System<S, D>, turn: A.Action<D>)
    requires Inv(u, start, sys) && !turn.Receive?
    ensures Inv(u, start, Do(u, sys, Aggregate(turn)))
  {
    AS.DoKeepsConsistent(u.app, u.capacity, sys.agg, turn);
    AS.DoConserves(u.app, u.capacity, sys.agg, turn);
    assert AS.TakenIn(sys.agg) + [] == AS.TakenIn(sys.agg);
  }

  lemma DoKeepsInv<S, D(!new)>(u: Setup<S, D>, start: int, sys: System<S, D>, a: Action<D>)
    requires Inv(u, start, sys) && Codes(u.app, u.wire) && Honest(u, sys, a)
    ensures Inv(u, start, Do(u, sys, a))
  {
    match a
    case Publish(act) => PublishKeepsInv(u, start, sys, act);
    case Sequence(step) => SequenceKeepsInv(u, start, sys, step);
    case Aggregate(turn) =>
      if !turn.Receive? {
        AggregateKeepsInv(u, start, sys, turn);
      }
  }

  lemma {:induction false} RunKeepsInv<S, D(!new)>(u: Setup<S, D>, start: int, sys: System<S, D>, actions: seq<Action<D>>)
    requires Inv(u, start, sys) && Codes(u.app, u.wire) && HonestRun(u, sys, actions)
    ensures Inv(u, start, Run(u, sys, actions))
    decreases actions
  {
    if actions != [] {
      DoKeepsInv(u, start, sys, actions[0]);
      RunKeepsInv(u, start, Do(u, sys, actions[0]), actions[1..]);
    }
  }

  lemma ReachableInv<S, D(!new)>(u: Setup<S, D>, start: int, clock: int, actions: seq<Action<D>>)
    requires Codes(u.app, u.wire) && HonestRun(u, Initial(u, start, clock), actions)
    ensures Inv(u, start, Run(u, Initial(u, start, clock), actions))
  {
    InitialInv(u.app, u.wire);
    RunKeepsInv(u, start, Initial(u, start, clock), actions);
  }

  lemma ReachablePublisher<S, D(!new)>(u: Setup<S, D>, start: int, clock: int, actions: seq<Action<D>>)
    requires Codes(u.app, u.wire) && HonestRun(u, Initial(u, start, clock), actions)
    ensures PublisherSafety.Inv(u.app, u.wire, Run(u, Initial(u, start, clock), actions).pub)
  {
    ReachableInv(u, start, clock, actions);
  }

  // ---- The replica

  /** Replaying the entry with this id leads from one state of a history to the next. */
  ghost predicate ReplaysAt<S, D>(app: StateSync<S, D>, truth: map<int, RawMessage>, history: seq<S>, base: int, id: int) {
    && base <= id && id - base + 1 < |history|
    && id in truth
    && Replay(app, history[id - base], truth[id]) == Applied(history[id - base + 1], true)
  }

  ghost predicate Replays<S, D>(app: StateSync<S, D>, truth: map<int, RawMessage>, history: seq<S>, base: int, from: int, k: int) {
    base <= from <= k && forall id | from <= id < k :: ReplaysAt(app, truth, history, base, id)
  }

  /** If replaying each entry leads from one state of a history to the next,
      folding their deltas leads from any of them to any later one. */
  lemma {:induction false} FoldBetween<S, D(!new)>(app: StateSync<S, D>, truth: map<int, RawMessage>, history: seq<S>, base: int, from: int, k: int)
    requires Replays(app, truth, history, base, from, k) && k - base < |history|
    ensures AS.Fold(app, history[from - base], LogDeltas(app, truth, from, k)) == Applied(history[k - base], true)
    decreases k - from
  {
    if k > from {
      var id := k - 1;
      assert ReplaysAt(app, truth, history, base, id);
      FoldBetween(app, truth, history, base, from, id);
      FoldEntry(app, history[from - base], LogDeltas(app, truth, from, id), truth[id]);
    }
  }

  lemma FoldFollowsHistory<S, D(!new)>(app: StateSync<S, D>, truth: map<int, RawMessage>, history: seq<S>, base: int, k: int)
    requires Replays(app, truth, history, base, base, k) && k - base < |history| && history[0] == app.init
    ensures AS.Fold(app, app.init, LogDeltas(app, truth, base, k)) == Applied(history[k - base], true)
  {
    FoldBetween(app, truth, history, base, base, k);
  }

  lemma EntryReplays<S, D(!new)>(app: StateSync<S, D>, wire: Protobuf, p: P.Publisher<S, D>, id: int)
    requires PublisherSafety.Inv(app, wire, p) && Codes(app, wire) && id in p.rows && p.base <= id
    ensures id < p.Counter() && ReplaysAt(app, Entries(wire, p.rows), p.history, p.base, id)
  {
    RowReplaysStamp(app, wire, p, id);
  }

  /** Every unbroken stretch of the incarnation's rows replays through the
      publisher's states. */
  lemma StretchReplays<S, D(!new)>(app: StateSync<S, D>, wire: Protobuf, p: P.Publisher<S, D>, from: int, k: int)
    requires PublisherSafety.Inv(app, wire, p) && Codes(app, wire)
    requires p.base <= from <= k && from <= p.Counter() && forall id | from <= id < k :: id in p.rows
    ensures k <= p.Counter() && |p.history| == p.Counter() - p.base + 1 && p.history[0] == app.init
    ensures Replays(app, Entries(wire, p.rows), p.history, p.base, from, k)
  {
    if k > from {
      EntryReplays(app, wire, p, k - 1);
    }
    forall id | from <= id < k
      ensures ReplaysAt(app, Entries(wire, p.rows), p.history, p.base, id)
    {
      EntryReplays(app, wire, p, id);
    }
  }

  /** Folding in an entry's delta, if it has one, is replaying the entry. */
  lemma FoldEntry<S, D(!new)>(app: StateSync<S, D>, s: S, before: seq<D>, msg: RawMessage)
    requires AS.Fold(app, s, before).ok
    ensures AS.Fold(app, s, before + DeltaOf(app, msg)) == Replay(app, AS.Fold(app, s, before).state, msg)
  {
    var d := DeltaOf(app, msg);
    if d == [] {
      assert before + d == before;
    } else {
      AS.FoldOne(app, s, before, d[0]);
      assert d == [d[0]];
    }
  }

  /** In every reachable state, across crashes and restarts: the replica has
      applied exactly the deltas logged from its starting id up to some id it
      has passed, in order. */
  lemma ReplicaFoldsLog<S, D(!new)>(u: Setup<S, D>, start: int, clock: int, actions: seq<Action<D>>) returns (k: int)
    requires Codes(u.app, u.wire) && HonestRun(u, Initial(u, start, clock), actions)
    ensures var sys := Run(u, Initial(u, start, clock), actions);
            && start <= k <= sys.seqr.view.want
            && (forall id | start <= id < k :: id in sys.pub.rows)
            && sys.agg.applied == LogDeltas(u.app, Truth(u, sys), start, k)
            && AS.Fold(u.app, u.app.init, sys.agg.applied) == Applied(sys.agg.state, !sys.agg.failed)
  {
    ReachableInv(u, start, clock, actions);
    var sys := Run(u, Initial(u, start, clock), actions);
    var taken := AS.TakenIn(sys.agg);
    k := PrefixIsStretch(u.app, Truth(u, sys), start, sys.seqr.view.want, |sys.agg.applied|);
    assert taken[..|sys.agg.applied|] == sys.agg.applied;
  }

  /** The replica of a subscriber that starts with the current incarnation is, in
      every reachable state, the publisher's state exactly as it stood after its
      first stamps up to some id the sequencer has passed; and no delta has
      failed to apply. Loss, duplication, reordering, failed publications and
      interleaved heartbeats make no difference. */
  lemma ReplicaIsHistorical<S, D(!new)>(u: Setup<S, D>, start: int, clock: int, actions: seq<Action<D>>) returns (k: int)
    requires Codes(u.app, u.wire) && HonestRun(u, Initial(u, start, clock), actions)
    requires Run(u, Initial(u, start, clock), actions).pub.base == start
    ensures var sys := Run(u, Initial(u, start, clock), actions);
            && start <= k <= sys.seqr.view.want && k <= sys.pub.Counter()
            && |sys.pub.history| == sys.pub.Counter() - start + 1
            && sys.agg.state == sys.pub.history[k - start]
            && !sys.agg.failed
            && (forall id | start <= id < k :: id in sys.pub.rows)
            && sys.agg.applied == LogDeltas(u.app, Truth(u, sys), start, k)
  {
    k := ReplicaFoldsLog(u, start, clock, actions);
    ReachableInv(u, start, clock, actions);
    var sys := Run(u, Initial(u, start, clock), actions);
    StretchReplays(u.app, u.wire, sys.pub, sys.pub.base, k);
    FoldFollowsHistory(u.app, Truth(u, sys), sys.pub.history, start, k);
  }

  /** With nothing queued or in hand, the replica is the publisher's state as of
      the id the sequencer wants. */
  lemma RestingReplica<S, D(!new)>(u: Setup<S, D>, start: int, sys: System<S, D>)
    requires Inv(u, start, sys) && Codes(u.app, u.wire) && sys.pub.base == start
    requires sys.agg.queue == [] && AS.Held(sys.agg.forwarder) == []
    ensures |sys.pub.history| == sys.pub.Counter() - start + 1
    ensures 0 <= sys.seqr.view.want - start < |sys.pub.history|
    ensures Applied(sys.agg.state, !sys.agg.failed) == Applied(sys.pub.history[sys.seqr.view.want - start], true)
  {
    StretchReplays(u.app, u.wire, sys.pub, sys.pub.base, sys.seqr.view.want);
    FoldFollowsHistory(u.app, Truth(u, sys), sys.pub.history, start, sys.seqr.view.want);
    assert AS.TakenIn(sys.agg) == sys.agg.applied + [] + [] == sys.agg.applied;
  }

  lemma ReplicaCatchesUp<S, D(!new)>(u: Setup<S, D>, start: int, clock: int, actions: seq<Action<D>>)
    requires Codes(u.app, u.wire) && HonestRun(u, Initial(u, start, clock), actions)
    requires var sys := Run(u, Initial(u, start, clock), actions);
             sys.pub.base == start && sys.agg.queue == [] && AS.Held(sys.agg.forwarder) == []
    ensures var sys := Run(u, Initial(u, start, clock), actions);
            && 0 <= sys.seqr.view.want - start < |sys.pub.history|
            && sys.agg.state == sys.pub.history[sys.seqr.view.want - start]
            && !sys.agg.failed
  {
    ReachableInv(u, start, clock, actions);
    RestingReplica(u, start, Run(u, Initial(u, start, clock), actions));
  }

  /** The sequencer never passes an id that is not logged, so an id given up for
      good is the end of the replica's progress. */
  lemma NeverPassesUnlogged<S, D(!new)>(u: Setup<S, D>, start: int, clock: int, actions: seq<Action<D>>, hole: int)
    requires Codes(u.app, u.wire) && HonestRun(u, Initial(u, start, clock), actions)
    requires start <= hole && hole !in Run(u, Initial(u, start, clock), actions).pub.rows
    ensures Run(u, Initial(u, start, clock), actions).seqr.view.want <= hole
  {
    ReachableInv(u, start, clock, actions);
  }
}
