/** Where replication stops short: what a restart of the publisher does to a
    replica, and what log writes that overtake each other do to an open recovery
    stream. Each failure is shown by a run of the joined system. */
module ReplicationLimits {
  import opened Wrappers
  import opened Messages
  import opened Codec
  import opened MasterLogs
  import opened MinMaxHeaps
  import opened PublisherSafety
  import opened Sequencing
  import opened Recovery
  import opened Replication
  import opened ReplicationProgress

  // ---- Restarts

  /** What an earlier incarnation logged since the subscriber's start. */
  function Inherited<S, D>(u: Setup<S, D>, start: int, sys: System<S, D>): seq<D> {
    LogDeltas(u.app, Truth(u, sys), start, sys.pub.base)
  }

  /** The replica has applied the deltas logged up to `k`, an id of the current incarnation. */
  ghost predicate Reached<S, D>(u: Setup<S, D>, start: int, sys: System<S, D>, k: int) {
    && start <= sys.pub.base <= k <= sys.seqr.view.want
    && sys.agg.applied == LogDeltas(u.app, Truth(u, sys), start, k)
  }

  /** A restarted publisher begins again from its initial state while the replica
      goes on folding. For every application: a replica that has reached the new
      incarnation is the publisher's state as of the same id whenever the deltas
      logged before the incarnation fold back to the initial state, above all
      when there are none; and at the very start of the incarnation only then. */
  lemma AgreesAfterRestart<S, D(!new)>(u: Setup<S, D>, start: int, clock: int, actions: seq<Action<D>>, k: int)
    requires Codes(u.app, u.wire) && HonestRun(u, Initial(u, start, clock), actions)
    requires Reached(u, start, Run(u, Initial(u, start, clock), actions), k)
    ensures var sys := Run(u, Initial(u, start, clock), actions);
            && 0 <= k - sys.pub.base < |sys.pub.history|
            && var harmless := AS.Fold(u.app, u.app.init, Inherited(u, start, sys)) == Applied(u.app.init, true);
            var agrees := Applied(sys.agg.state, !sys.agg.failed) == Applied(HistoryAt(sys.pub, k), true);
            && (Inherited(u, start, sys) == [] ==> harmless)
            && (harmless ==> agrees)
            && (k == sys.pub.base ==> (agrees <==> harmless))
  {
    ReachedReplays(u, start, clock, actions, k);
    var sys := Run(u, Initial(u, start, clock), actions);
    AppliedInTwo(u, start, sys, k);
    if AS.Fold(u.app, u.app.init, Inherited(u, start, sys)).ok {
      AS.FoldConcat(u.app, u.app.init, Inherited(u, start, sys), LogDeltas(u.app, Truth(u, sys), sys.pub.base, k));
    }
  }

  /** The rows from an id of the incarnation up to `k` replay through the
      publisher's states, and the replica is the fold of what it has applied. */
  ghost predicate ReplaysUpTo<S, D>(u: Setup<S, D>, sys: System<S, D>, from: int, k: int) {
    && Replays(u.app, Truth(u, sys), sys.pub.history, sys.pub.base, from, k)
    && 0 <= k - sys.pub.base < |sys.pub.history| && sys.pub.history[0] == u.app.init
    && AS.Fold(u.app, u.app.init, sys.agg.applied) == Applied(sys.agg.state, !sys.agg.failed)
  }

  lemma StretchReplaysUpTo<S, D(!new)>(u: Setup<S, D>, start: int, clock: int, actions: seq<Action<D>>, from: int, k: int)
    requires Codes(u.app, u.wire) && HonestRun(u, Initial(u, start, clock), actions)
    requires var sys := Run(u, Initial(u, start, clock), actions);
             && start <= from <= k <= sys.seqr.view.want && sys.pub.base <= from <= sys.pub.Counter()
    ensures ReplaysUpTo(u, Run(u, Initial(u, start, clock), actions), from, k)
  {
    ReachableInv(u, start, clock, actions);
    StretchReplays(u.app, u.wire, Run(u, Initial(u, start, clock), actions).pub, from, k);
  }

  lemma ReachedReplays<S, D(!new)>(u: Setup<S, D>, start: int, clock: int, actions: seq<Action<D>>, k: int)
    requires Codes(u.app, u.wire) && HonestRun(u, Initial(u, start, clock), actions)
    requires Reached(u, start, Run(u, Initial(u, start, clock), actions), k)
    ensures var sys := Run(u, Initial(u, start, clock), actions); ReplaysUpTo(u, sys, sys.pub.base, k)
  {
    StretchReplaysUpTo(u, start, clock, actions, Run(u, Initial(u, start, clock), actions).pub.base, k);
  }

  /** What the replica has applied is what it inherited and then what leads the
      publisher to its state as of `k`. */
  lemma AppliedInTwo<S, D(!new)>(u: Setup<S, D>, start: int, sys: System<S, D>, k: int)
    requires Reached(u, start, sys, k) && ReplaysUpTo(u, sys, sys.pub.base, k)
    ensures var own := LogDeltas(u.app, Truth(u, sys), sys.pub.base, k);
            && sys.agg.applied == Inherited(u, start, sys) + own
            && AS.Fold(u.app, u.app.init, own) == Applied(HistoryAt(sys.pub, k), true)
            && (k == sys.pub.base ==> own == [])
  {
    FoldFollowsHistory(u.app, Truth(u, sys), sys.pub.history, sys.pub.base, k);
    LogDeltasSplit(u.app, Truth(u, sys), start, sys.pub.base, k);
  }

  /** The publisher's state as of an id of its incarnation. */
  function HistoryAt<S, D>(p: P.Publisher<S, D>, k: int): S
    requires 0 <= k - p.base < |p.history|
  {
    p.history[k - p.base]
  }

  /** The application that remembers every delta it was given. */
  function Journal<D>(encode: D -> Bytes, decode: Bytes -> Option<D>): StateSync<seq<D>, D> {
    StateSync([], (s: seq<D>, d: D) => Applied(s + [d], true), encode, decode)
  }

  lemma {:induction false} JournalFolds<D>(encode: D -> Bytes, decode: Bytes -> Option<D>, s: seq<D>, ds: seq<D>)
    ensures AS.Fold(Journal(encode, decode), s, ds) == Applied(s + ds, true)
    decreases ds
  {
    if ds == [] {
      assert s + ds == s;
    } else {
      JournalFolds(encode, decode, s + [ds[0]], ds[1..]);
      assert s + [ds[0]] + ds[1..] == s + ds;
    }
  }

  /** No weaker condition on what was logged will do for every application: with
      one that forgets nothing, a replica that has reached the new incarnation
      agrees with the publisher's history exactly when no delta was logged
      between its own start and the incarnation's. */
  lemma JournalAgreesAfterRestartIff<D(!new)>(u: Setup<seq<D>, D>, start: int, clock: int, actions: seq<Action<D>>, k: int)
    requires Codes(u.app, u.wire) && HonestRun(u, Initial(u, start, clock), actions)
    requires u.app == Journal(u.app.encode, u.app.decode)
    requires Reached(u, start, Run(u, Initial(u, start, clock), actions), k)
    ensures var sys := Run(u, Initial(u, start, clock), actions);
            && 0 <= k - sys.pub.base < |sys.pub.history|
            && (sys.agg.state == HistoryAt(sys.pub, k) <==> Inherited(u, start, sys) == [])
  {
    ReachedReplays(u, start, clock, actions, k);
    var sys := Run(u, Initial(u, start, clock), actions);
    AppliedInTwo(u, start, sys, k);
    JournalAgreesIff(u.app, Inherited(u, start, sys), LogDeltas(u.app, Truth(u, sys), sys.pub.base, k));
  }

  lemma JournalAgreesIff<D>(app: StateSync<seq<D>, D>, lost: seq<D>, kept: seq<D>)
    requires app == Journal(app.encode, app.decode)
    ensures AS.Fold(app, [], lost + kept).state == AS.Fold(app, [], kept).state <==> lost == []
    ensures AS.Fold(app, [], lost + kept).ok
  {
    JournalFolds(app.encode, app.decode, [], lost + kept);
    JournalFolds(app.encode, app.decode, [], kept);
    assert [] + (lost + kept) == lost + kept && [] + kept == kept;
    assert |lost + kept| == |lost| + |kept|;
    assert lost == [] ==> lost + kept == kept;
  }

  // ---- Late joiners

  /** A subscriber may want an id in the middle of an incarnation; it begins from
      the initial state all the same. For every application its replica is the
      publisher's state as of the same id if the publisher was in its initial
      state before that first id, and with nothing applied only then. */
  lemma LateJoinerAgrees<S, D(!new)>(u: Setup<S, D>, start: int, clock: int, actions: seq<Action<D>>, k: int)
    requires Codes(u.app, u.wire) && HonestRun(u, Initial(u, start, clock), actions)
    requires var sys := Run(u, Initial(u, start, clock), actions);
             && sys.pub.base <= start <= sys.pub.Counter() && start <= k <= sys.seqr.view.want
             && sys.agg.applied == LogDeltas(u.app, Truth(u, sys), start, k)
    ensures var sys := Run(u, Initial(u, start, clock), actions);
            && 0 <= start - sys.pub.base <= k - sys.pub.base < |sys.pub.history|
            && var harmless := HistoryAt(sys.pub, start) == u.app.init;
            var agrees := Applied(sys.agg.state, !sys.agg.failed) == Applied(HistoryAt(sys.pub, k), true);
            && (harmless ==> agrees)
            && (k == start ==> (agrees <==> harmless))
  {
    StretchReplaysUpTo(u, start, clock, actions, start, k);
    LateFold(u, start, Run(u, Initial(u, start, clock), actions), k);
  }

  lemma LateFold<S, D(!new)>(u: Setup<S, D>, start: int, sys: System<S, D>, k: int)
    requires ReplaysUpTo(u, sys, start, k)
    requires sys.agg.applied == LogDeltas(u.app, Truth(u, sys), start, k)
    ensures AS.Fold(u.app, HistoryAt(sys.pub, start), sys.agg.applied) == Applied(HistoryAt(sys.pub, k), true)
    ensures AS.Fold(u.app, u.app.init, sys.agg.applied) == Applied(sys.agg.state, !sys.agg.failed)
    ensures k == start ==> sys.agg.applied == []
  {
    FoldBetween(u.app, Truth(u, sys), sys.pub.history, sys.pub.base, start, k);
  }

  // ---- Steps of the publisher

  predicate Fits(wire: Protobuf, msg: RawMessage) {
    |wire.encode(msg)| <= MAX_PAYLOAD_SIZE
  }

  function StartedMessage(id: I64): RawMessage {
    RawMessage(0, id, Some(Payload.Started))
  }

  function PulseMessage(id: I64): RawMessage {
    RawMessage(0, id, Some(Payload.Heartbeat))
  }

  function ChangeMessage<S, D>(app: StateSync<S, D>, id: I64, delta: D): RawMessage {
    RawMessage(0, id, Some(Payload.Delta(app.encode(delta))))
  }

  /** A stamped message goes out whole. */
  function Outgoing<D>(who: P.Sender): seq<P.Action<D>> {
    [P.Encode(who), P.Write(who, true), P.Send(who, true)]
  }

  lemma Publishes<S, D>(app: StateSync<S, D>, wire: Protobuf, p: P.Publisher<S, D>, who: P.Sender, msg: RawMessage)
    requires p.At(who) == P.Stamped(msg) && Fits(wire, msg) && msg.sequence !in p.rows
    ensures P.Run(app, wire, p, Outgoing(who))
            == p.Put(who, P.Idle).(rows := p.rows[msg.sequence := wire.encode(msg)],
                                   sent := p.sent + [Frame(wire.encode(msg))],
                                   status := if p.status.Starting? then P.Up else p.status)
  {
    var body := wire.encode(msg);
    var steps: seq<P.Action<D>> := Outgoing(who);
    var p1 := P.Do(app, wire, p, steps[0]);
    assert p1 == p.Put(who, P.Encoded(msg, Frame(body)));
    assert Frame(body)[HEADER_SIZE..] == body;
    var p2 := P.Do(app, wire, p1, steps[1]);
    assert p2 == p.Put(who, P.Written(msg, Frame(body))).(rows := p.rows[msg.sequence := body]);
    assert steps[1..][1..] == [steps[2]] && steps[1..][0] == steps[1] && [steps[2]][1..] == [];
  }

  /** The publisher starts, announces itself and is up. */
  function Booting<D>(): seq<P.Action<D>> {
    [P.Boot, P.StampStarted(0)] + Outgoing(P.Main)
  }

  lemma Boots<S, D>(app: StateSync<S, D>, wire: Protobuf, p: P.Publisher<S, D>, base: I64)
    requires p.status.Down? && NextSequence(p.rows) == base < I64_MAX && Fits(wire, StartedMessage(base))
    ensures var body := wire.encode(StartedMessage(base));
            P.Run(app, wire, p, Booting())
            == P.Publisher(P.Up, base, [app.init, app.init], [P.Announce], {}, P.Idle, P.Idle,
                           p.rows[base := body], p.sent + [Frame(body)])
  {
    var steps: seq<P.Action<D>> := Booting();
    var p1 := P.Do(app, wire, p, steps[0]);
    var p2 := P.Do(app, wire, p1, steps[1]);
    assert p2 == P.Publisher(P.Starting, base, [app.init, app.init], [P.Announce], {}, P.Stamped(StartedMessage(base)), P.Idle, p.rows, p.sent);
    assert steps[1..][1..] == Outgoing<D>(P.Main);
    Publishes(app, wire, p2, P.Main, StartedMessage(base));
  }

  function Publications<D>(acts: seq<P.Action<D>>): seq<Action<D>> {
    seq(|acts|, i requires 0 <= i < |acts| => Publish(acts[i]))
  }

  lemma {:induction false} PublicationsRun<S, D>(u: Setup<S, D>, sys: System<S, D>, acts: seq<P.Action<D>>)
    ensures FaithfulRun(u, sys, Publications(acts))
    ensures Run(u, sys, Publications(acts)) == sys.(pub := P.Run(u.app, u.wire, sys.pub, acts))
    decreases acts
  {
    if acts != [] {
      assert Publications(acts)[1..] == Publications(acts[1..]);
      PublicationsRun(u, Do(u, sys, Publish(acts[0])), acts[1..]);
    }
  }

  lemma {:induction false} RunsOn<S, D>(u: Setup<S, D>, sys: System<S, D>, a: seq<Action<D>>, b: seq<Action<D>>)
    requires FaithfulRun(u, sys, a) && FaithfulRun(u, Run(u, sys, a), b)
    ensures FaithfulRun(u, sys, a + b) && Run(u, sys, a + b) == Run(u, Run(u, sys, a), b)
    decreases a
  {
    if a == [] {
      assert a + b == b;
    } else {
      assert (a + b)[0] == a[0] && (a + b)[1..] == a[1..] + b;
      RunsOn(u, Do(u, sys, a[0]), a[1..], b);
    }
  }

  // ---- A restart that the replica does not survive

  function Heard(msg: RawMessage): Step {
    Wait(Round(0, 0, 0, Packet(msg), Refused, Unavailable))
  }

  lemma FrameReads(wire: Protobuf, msg: RawMessage)
    requires wire.RoundTrips() && Fits(wire, msg)
    ensures ReadDatagram(wire, Frame(wire.encode(msg))) == Ok(Some(msg))
  {
    FrameAndMore(wire, wire.encode(msg), []);
  }

  /** One call that receives the wanted message from the socket. */
  lemma CallHears<S, D>(u: Setup<S, D>, sys: System<S, D>, msg: RawMessage)
    requires u.wire.RoundTrips() && Fits(u.wire, msg) && Frame(u.wire.encode(msg)) in sys.pub.sent
    requires !sys.seqr.listening && sys.agg.forwarder.Pulling?
    requires var v := sys.seqr.view; v.heap == [] && v.recovery == None && v.want == msg.sequence && v.deadline >= 0
    ensures var steps := [Sequence(Call(Entry(0, 0))), Sequence(Heard(msg))];
            && FaithfulRun(u, sys, steps)
            && Run(u, sys, steps)
               == System(sys.pub, Machine(View(msg.sequence + 1, [], None, true, u.timeout), false),
                         A.DoReceive(sys.agg, Parse(u.Cfg(), ReceivedMessage(0, Udp, msg))))
  {
    FrameReads(u.wire, msg);
    var steps: seq<Action<D>> := [Sequence(Call(Entry(0, 0))), Sequence(Heard(msg))];
    var listening := Do(u, sys, steps[0]);
    assert listening.seqr.listening && listening.seqr.view.heap == [] && listening.seqr.view.recovery == None;
    assert Honest(u, listening, steps[1]);
    var v, m := listening.seqr.view, ReceivedMessage(0, Udp, msg);
    assert Fire(u.Cfg(), listening.seqr, Heard(msg)) == Deliver(u.Cfg(), v.(connected := true), 0, m);
    var after := Do(u, listening, steps[1]);
    assert after == System(sys.pub, Machine(View(msg.sequence + 1, [], None, true, u.timeout), false), A.DoReceive(sys.agg, Parse(u.Cfg(), m)));
    TwoSteps(u, sys, steps[0], steps[1]);
  }

  lemma TwoSteps<S, D>(u: Setup<S, D>, sys: System<S, D>, a: Action<D>, b: Action<D>)
    ensures Run(u, sys, [a, b]) == Do(u, Do(u, sys, a), b)
    ensures FaithfulRun(u, sys, [a, b]) <==> Faithful(u, sys, a) && Faithful(u, Do(u, sys, a), b)
  {
    assert [a, b][1..] == [b] && [b][1..] == [];
    assert Run(u, Do(u, sys, a), [b]) == Do(u, Do(u, sys, a), b);
    assert FaithfulRun(u, Do(u, sys, a), [b]) <==> Faithful(u, Do(u, sys, a), b);
  }

  /** The publisher after its start and one delta. */
  function Changed<S, D>(u: Setup<S, D>, delta: D): P.Publisher<S, D> {
    var started, change := u.wire.encode(StartedMessage(0)), u.wire.encode(ChangeMessage(u.app, 1, delta));
    P.Publisher(P.Up, 0, [u.app.init, u.app.init, u.app.apply(u.app.init, delta).state], [P.Announce, P.Change(delta)],
                {}, P.Idle, P.Idle, map[0 := started, 1 := change], [Frame(started), Frame(change)])
  }

  lemma Changes<S, D>(u: Setup<S, D>, delta: D)
    requires u.app.apply(u.app.init, delta).ok
    requires Fits(u.wire, StartedMessage(0)) && Fits(u.wire, ChangeMessage(u.app, 1, delta))
    ensures P.Run(u.app, u.wire, P.Initial(u.app), Booting() + ([P.StampDelta(delta, 0)] + Outgoing(P.Main))) == Changed(u, delta)
  {
    var p: P.Publisher<S, D> := P.Initial(u.app);
    Boots(u.app, u.wire, p, 0);
    PublisherRunConcat(u.app, u.wire, p, Booting(), [P.StampDelta(delta, 0)] + Outgoing(P.Main));
    var up := P.Run(u.app, u.wire, p, Booting());
    var stamped := P.Do(u.app, u.wire, up, P.StampDelta(delta, 0));
    assert stamped.main == P.Stamped(ChangeMessage(u.app, 1, delta));
    assert ([P.StampDelta(delta, 0)] + Outgoing(P.Main))[1..] == Outgoing(P.Main);
    Publishes(u.app, u.wire, stamped, P.Main, ChangeMessage(u.app, 1, delta));
  }

  lemma {:induction false} PublisherRunConcat<S, D>(app: StateSync<S, D>, wire: Protobuf, p: P.Publisher<S, D>, a: seq<P.Action<D>>, b: seq<P.Action<D>>)
    ensures P.Run(app, wire, p, a + b) == P.Run(app, wire, P.Run(app, wire, p, a), b)
    decreases a
  {
    if a == [] {
      assert a + b == b;
    } else {
      assert (a + b)[0] == a[0] && (a + b)[1..] == a[1..] + b;
      PublisherRunConcat(app, wire, P.Do(app, wire, p, a[0]), a[1..], b);
    }
  }

  lemma Restarts<S, D>(u: Setup<S, D>, delta: D)
    requires Fits(u.wire, StartedMessage(2))
    ensures var p, q := Changed(u, delta), P.Run(u.app, u.wire, Changed(u, delta), [P.Crash] + Booting());
            && q.status.Up? && q.base == 2 && q.history == [u.app.init, u.app.init]
            && q.rows == p.rows[2 := u.wire.encode(StartedMessage(2))]
  {
    var down := P.Do(u.app, u.wire, Changed(u, delta), P.Crash);
    assert ([P.Crash] + Booting<D>())[1..] == Booting();
    assert 0 in down.rows && 1 in down.rows;
    Boots(u.app, u.wire, down, 2);
  }

  /** The replica hears both messages and applies the delta. */
  lemma ReplicaFollows<S, D(!new)>(u: Setup<S, D>, delta: D) returns (steps: seq<Action<D>>)
    requires Codes(u.app, u.wire) && u.capacity > 0 && u.app.apply(u.app.init, delta).ok
    requires Fits(u.wire, StartedMessage(0)) && Fits(u.wire, ChangeMessage(u.app, 1, delta))
    ensures var sys := System(Changed(u, delta), Machine(Fresh(0, 0), false), A.Blank(u.app));
            && FaithfulRun(u, sys, steps)
            && Run(u, sys, steps)
               == System(sys.pub, Machine(View(2, [], None, true, u.timeout), false),
                         A.Memory(A.Pulling, [], true, true, u.app.apply(u.app.init, delta).state, [delta], false, [1]))
  {
    var sys := System(Changed(u, delta), Machine(Fresh(0, 0), false), A.Blank(u.app));
    var started, change := StartedMessage(0), ChangeMessage(u.app, 1, delta);
    var one := [Sequence(Call(Entry(0, 0))), Sequence(Heard(started))];
    CallHears(u, sys, started);
    var heard := Run(u, sys, one);
    assert heard.agg == sys.agg;
    var two := [Sequence(Call(Entry(0, 0))), Sequence(Heard(change))];
    CallHears(u, heard, change);
    var held := Run(u, heard, two);
    assert held.agg.forwarder == A.Sending(delta);
    var three := Turns<D>();
    TurnsApply(u, held, delta);
    RunsOn(u, heard, two, three);
    RunsOn(u, sys, one, two + three);
    steps := one + (two + three);
  }

  function Turns<D>(): seq<Action<D>> {
    [Aggregate(A.Offer), Aggregate(A.Produce(true)), Aggregate(A.Produce(true))]
  }

  lemma TurnsApply<S, D>(u: Setup<S, D>, sys: System<S, D>, delta: D)
    requires u.capacity > 0 && u.app.apply(sys.agg.state, delta).ok
    requires sys.agg == A.Blank(u.app).(forwarder := A.Sending(delta))
    ensures FaithfulRun(u, sys, Turns())
    ensures Run(u, sys, Turns())
            == sys.(agg := A.Memory(A.Pulling, [], true, true, u.app.apply(sys.agg.state, delta).state, [delta], false, [1]))
  {
    var turns: seq<Action<D>> := Turns();
    var s1 := Do(u, sys, turns[0]);
    var s2 := Do(u, s1, turns[1]);
    var s3 := Do(u, s2, turns[2]);
    assert turns[1..] == [turns[1], turns[2]] && turns[1..][1..] == [turns[2]] && [turns[2]][1..] == [];
    assert s1.agg.queue == [delta] && s2.agg.queue == [] && s2.agg.applied == [delta];
  }

  /** A delta is logged, the replica applies it, and the publisher crashes and
      restarts: from an empty log, for any application with a delta that changes
      its initial state, the caught-up replica is no state the restarted
      publisher has ever had. */
  lemma RestartDiverges<S, D(!new)>(u: Setup<S, D>, delta: D) returns (actions: seq<Action<D>>)
    requires Codes(u.app, u.wire) && u.capacity > 0
    requires u.app.apply(u.app.init, delta).ok && u.app.apply(u.app.init, delta).state != u.app.init
    requires Fits(u.wire, StartedMessage(0)) && Fits(u.wire, ChangeMessage(u.app, 1, delta)) && Fits(u.wire, StartedMessage(2))
    ensures FaithfulRun(u, Initial(u, 0, 0), actions)
    ensures var sys := Run(u, Initial(u, 0, 0), actions);
            && sys.pub.status.Up? && sys.pub.base == 2 == sys.seqr.view.want
            && 1 in sys.pub.rows && sys.agg.applied == [delta]
            && AS.AtRest(sys.agg) && !sys.agg.failed
            && sys.agg.state !in sys.pub.history
  {
    var init := Initial(u, 0, 0);
    var one := Publications(Booting() + ([P.StampDelta(delta, 0)] + Outgoing(P.Main)));
    Changes(u, delta);
    PublicationsRun(u, init, Booting() + ([P.StampDelta(delta, 0)] + Outgoing(P.Main)));
    var changed := Run(u, init, one);
    var two := ReplicaFollows(u, delta);
    var followed := Run(u, changed, two);
    var three := Publications([P.Crash] + Booting());
    Restarts(u, delta);
    PublicationsRun(u, followed, [P.Crash] + Booting());
    RunsOn(u, changed, two, three);
    RunsOn(u, init, one, two + three);
    actions := one + (two + three);
  }

  // ---- A transient hole that ends the subscription

  /** The publisher after its start, with a heartbeat logged and sent while the
      delta stamped before it is still in flight. */
  function Overtaken<S, D>(u: Setup<S, D>, delta: D): P.Publisher<S, D> {
    var started, pulse := u.wire.encode(StartedMessage(0)), u.wire.encode(PulseMessage(2));
    var next := u.app.apply(u.app.init, delta).state;
    P.Publisher(P.Up, 0, [u.app.init, u.app.init, next, next], [P.Announce, P.Change(delta), P.Pulse],
                {}, P.Stamped(ChangeMessage(u.app, 1, delta)), P.Idle, map[0 := started, 2 := pulse], [Frame(started), Frame(pulse)])
  }

  function Overtaking<D>(delta: D): seq<P.Action<D>> {
    [P.StampDelta(delta, 0), P.StampHeartbeat(0)] + Outgoing(P.Beat)
  }

  lemma Overtakes<S, D>(u: Setup<S, D>, delta: D)
    requires u.app.apply(u.app.init, delta).ok
    requires Fits(u.wire, StartedMessage(0)) && Fits(u.wire, PulseMessage(2))
    ensures P.Run(u.app, u.wire, P.Initial(u.app), Booting() + Overtaking(delta)) == Overtaken(u, delta)
  {
    var p: P.Publisher<S, D> := P.Initial(u.app);
    var next := u.app.apply(u.app.init, delta).state;
    Boots(u.app, u.wire, p, 0);
    PublisherRunConcat(u.app, u.wire, p, Booting(), Overtaking(delta));
    var up := P.Run(u.app, u.wire, p, Booting());
    var changing := P.Do(u.app, u.wire, up, P.StampDelta(delta, 0));
    var pulsing := P.Do(u.app, u.wire, changing, P.StampHeartbeat(0));
    assert pulsing == up.(history := [u.app.init, u.app.init, next, next], stamps := [P.Announce, P.Change(delta), P.Pulse],
                          main := P.Stamped(ChangeMessage(u.app, 1, delta)), beat := P.Stamped(PulseMessage(2)));
    assert Overtaking(delta)[1..][1..] == Outgoing(P.Beat);
    Publishes(u.app, u.wire, pulsing, P.Beat, PulseMessage(2));
  }

  /** A call that buffers the heartbeat, and the request it makes at its deadline. */
  function Asking<S, D>(u: Setup<S, D>, delta: D): seq<Action<D>> {
    var batch := StreamMessages(u.wire, Overtaken(u, delta).rows, 0, true);
    [Sequence(Call(Entry(0, 0))), Sequence(Heard(PulseMessage(2)))]
    + [Sequence(Wait(Round(u.timeout + 1, 0, 0, Elapsed, Refused, batch)))]
  }

  /** The stream served while the delta is in flight: the start, and then the heartbeat. */
  lemma OvertakenStream<S, D>(u: Setup<S, D>, delta: D) returns (tail: seq<StreamItem>)
    requires u.wire.RoundTrips()
    ensures StreamMessages(u.wire, Overtaken(u, delta).rows, 0, true) == Opened([Item(StartedMessage(0))] + tail)
    ensures tail != [] && tail[0].Item? && tail[0].msg.sequence > 1
  {
    var rows := Overtaken(u, delta).rows;
    assert WellFormed(u.wire, rows);
    StreamIsSegment(u.wire, rows, 0, 1);
    StreamPastStretch(u.wire, rows, 1);
    assert 2 in rows;
    tail := StreamMessages(u.wire, rows, 1, true).items;
    assert Segment(Entries(u.wire, rows), 0, 1) == [StartedMessage(0)];
  }

  lemma Asks<S, D>(u: Setup<S, D>, delta: D) returns (tail: seq<StreamItem>)
    requires u.wire.RoundTrips() && Fits(u.wire, PulseMessage(2))
    ensures tail != [] && tail[0].Item? && tail[0].msg.sequence > 1
    ensures var sys := System(Overtaken(u, delta), Machine(Fresh(0, 0), false), A.Blank(u.app));
            && FaithfulRun(u, sys, Asking(u, delta))
            && Run(u, sys, Asking(u, delta))
               == sys.(seqr := Machine(View(1, [ReceivedMessage(0, Udp, PulseMessage(2))], Some(tail), true, 2 * u.timeout + 1), false))
  {
    var sys := System(Overtaken(u, delta), Machine(Fresh(0, 0), false), A.Blank(u.app));
    var steps := Asking(u, delta);
    tail := OvertakenStream(u, delta);
    FrameReads(u.wire, PulseMessage(2));
    var listening := Do(u, sys, steps[0]);
    assert listening.seqr == Machine(View(0, [], None, false, u.timeout), true);
    var waiting := Do(u, listening, steps[1]);
    assert waiting.seqr == Machine(View(0, [ReceivedMessage(0, Udp, PulseMessage(2))], None, true, u.timeout), true);
    assert Honest(u, listening, steps[1]);
    TwoSteps(u, sys, steps[0], steps[1]);
    assert WellFormed(u.wire, sys.pub.rows);
    AnswersComeFromLog(u.wire, sys.pub.rows, 0, true);
    assert Faithful(u, waiting, steps[2]);
    assert steps[..2] == [steps[0], steps[1]] && [steps[2]][1..] == [];
    RunsOn(u, sys, steps[..2], [steps[2]]);
  }

  /** The publisher logs and sends everything it stamps, the network loses
      nothing it is asked for and the service answers in full; but a heartbeat
      is logged before the delta stamped ahead of it, and a request falls between
      the two. The open stream then skips an id that is logged by the time it is
      wanted, the next call fails, and the aggregator's forwarding task has ended
      for good with every id in the log. */
  lemma TransientHoleEndsForwarding<S, D(!new)>(u: Setup<S, D>, delta: D) returns (actions: seq<Action<D>>)
    requires Codes(u.app, u.wire) && u.app.apply(u.app.init, delta).ok
    requires Fits(u.wire, StartedMessage(0)) && Fits(u.wire, ChangeMessage(u.app, 1, delta)) && Fits(u.wire, PulseMessage(2))
    ensures FaithfulRun(u, Initial(u, 0, 0), actions)
    ensures var sys := Run(u, Initial(u, 0, 0), actions);
            && sys.pub.status.Up? && sys.pub.burned == {} && sys.pub.Counter() == 3
            && (forall id | 0 <= id < 3 :: id in sys.pub.rows)
            && sys.seqr.view.want == 1 && 2 in Ids(sys.seqr.view.heap)
            && sys.agg.forwarder == A.Stopped([])
  {
    var init := Initial(u, 0, 0);
    var one := Publications(Booting() + Overtaking(delta));
    Overtakes(u, delta);
    PublicationsRun(u, init, Booting() + Overtaking(delta));
    var two := AsksAndFails(u, delta);
    RunsOn(u, init, one, two);
    actions := one + two;
    var sys := Run(u, init, actions);
    assert sys.seqr.view.heap[0].Id() == 2 && sys.seqr.view.heap[0] in sys.seqr.view.heap;
    assert 0 in sys.pub.rows && 1 in sys.pub.rows && 2 in sys.pub.rows;
  }

  lemma AsksAndFails<S, D>(u: Setup<S, D>, delta: D) returns (steps: seq<Action<D>>)
    requires u.wire.RoundTrips() && Fits(u.wire, ChangeMessage(u.app, 1, delta)) && Fits(u.wire, PulseMessage(2))
    ensures var sys := System(Overtaken(u, delta), Machine(Fresh(0, 0), false), A.Blank(u.app));
            && FaithfulRun(u, sys, steps)
            && var done := Run(u, sys, steps);
            && done.pub.status.Up? && done.pub.burned == {} && done.pub.Counter() == 3
            && done.pub.rows == sys.pub.rows[1 := u.wire.encode(ChangeMessage(u.app, 1, delta))]
            && done.seqr.view.want == 1 && done.seqr.view.heap == [ReceivedMessage(0, Udp, PulseMessage(2))]
            && done.agg.forwarder == A.Stopped([])
  {
    var sys := System(Overtaken(u, delta), Machine(Fresh(0, 0), false), A.Blank(u.app));
    var tail := Asks(u, delta);
    var asked := Run(u, sys, Asking(u, delta));
    var rest := LogsAndCalls(u, asked, ChangeMessage(u.app, 1, delta));
    RunsOn(u, sys, Asking(u, delta), rest);
    steps := Asking(u, delta) + rest;
  }

  /** The delta is logged and sent, and the next call finds the stream beyond it. */
  lemma LogsAndCalls<S, D>(u: Setup<S, D>, sys: System<S, D>, msg: RawMessage) returns (steps: seq<Action<D>>)
    requires sys.pub.main == P.Stamped(msg) && sys.pub.status.Up? && Fits(u.wire, msg) && msg.sequence !in sys.pub.rows
    requires !sys.seqr.listening && sys.agg.forwarder.Pulling?
    requires var v := sys.seqr.view;
             v.recovery.Some? && v.recovery.value != [] && v.recovery.value[0].Item? && v.recovery.value[0].msg.sequence > v.want
    ensures FaithfulRun(u, sys, steps)
    ensures var done := Run(u, sys, steps);
            && done.pub == sys.pub.(main := P.Idle, rows := sys.pub.rows[msg.sequence := u.wire.encode(msg)],
                                    sent := sys.pub.sent + [Frame(u.wire.encode(msg))])
            && done.seqr.view.want == sys.seqr.view.want && done.seqr.view.heap == sys.seqr.view.heap
            && done.agg.forwarder == A.Stopped([])
  {
    var three := Publications(Outgoing(P.Main));
    PublicationsRun(u, sys, Outgoing(P.Main));
    Publishes(u.app, u.wire, sys.pub, P.Main, msg);
    var logged := Run(u, sys, three);
    var four := [Sequence(Call(Entry(0, 0)))];
    assert four[1..] == [];
    assert Run(u, logged, four) == Do(u, logged, four[0]);
    RunsOn(u, sys, three, four);
    steps := three + four;
  }
}
