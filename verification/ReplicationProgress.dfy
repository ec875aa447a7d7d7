/** How far the joined system gets: what a request for a missing id comes to,
    what an open recovery stream is worth, and the whole way to catching up. */
module ReplicationProgress {
  import opened Wrappers
  import opened Messages
  import opened MasterLogs
  import opened MinMaxHeaps
  import opened PublisherSafety
  import opened Sequencing
  import opened SequencerSafety
  import opened SequencerLaws
  import opened SequencerRecovery
  import opened Recovery
  import opened Replication

  // ---- What a request comes to

  /** Whenever the sequencer would ask for the wanted id, every buffered id is
      beyond it and logged already; so, within the current incarnation, the
      wanted id is logged, in flight or given up, and nothing else. */
  lemma RequestIsAnswerable<S, D(!new)>(u: Setup<S, D>, start: int, clock: int, actions: seq<Action<D>>)
    requires Codes(u.app, u.wire) && HonestRun(u, Initial(u, start, clock), actions)
    requires var sys := Run(u, Initial(u, start, clock), actions); sys.seqr.listening && sys.seqr.view.heap != []
    ensures var sys := Run(u, Initial(u, start, clock), actions);
            var want := sys.seqr.view.want;
            && (forall m | m in sys.seqr.view.heap :: m.Id() > want && m.Id() in sys.pub.rows)
            && want < NextSequence(sys.pub.rows)
            && (sys.pub.base <= want ==>
                  want in sys.pub.rows || want in P.InFlight(sys.pub.main) || want in P.InFlight(sys.pub.beat) || want in sys.pub.burned)
  {
    ReachableInv(u, start, clock, actions);
    var sys := Run(u, Initial(u, start, clock), actions);
    forall m | m in sys.seqr.view.heap
      ensures m.Id() > sys.seqr.view.want && m.Id() in sys.pub.rows
    {
    }
    var first := sys.seqr.view.heap[0];
    assert first in sys.seqr.view.heap;
    assert first.Id() in sys.pub.rows;
    assert Claims(sys.pub, sys.seqr.view.want) <= 1;
  }

  /** When the deadline has passed and the service answers from the log, the
      request advances the sequencer exactly if the wanted id is logged, and then
      by that entry. If it is only in flight, or given up, the call fails and the
      aggregator's forwarding task ends for good. */
  lemma AnswerAdvancesIff<S, D(!new)>(u: Setup<S, D>, start: int, clock: int, actions: seq<Action<D>>, r: Round)
    requires Codes(u.app, u.wire) && HonestRun(u, Initial(u, start, clock), actions)
    requires var sys := Run(u, Initial(u, start, clock), actions);
             && sys.seqr.listening && sys.seqr.view.heap != [] && r.clock > sys.seqr.view.deadline
             && r.single == GetMessage(u.wire, sys.pub.rows, sys.seqr.view.want, true)
             && r.batch == StreamMessages(u.wire, sys.pub.rows, sys.seqr.view.want, true)
    ensures var sys := Run(u, Initial(u, start, clock), actions);
            var t := Fire(u.Cfg(), sys.seqr, Wait(r));
            && (t.consumed.Some? <==> sys.seqr.view.want in sys.pub.rows)
            && (t.consumed.Some? ==>
                  && t.consumed.value.Id() == sys.seqr.view.want
                  && InLog(Truth(u, sys), t.consumed.value.raw)
                  && t.view.want == sys.seqr.view.want + 1
                  && t.outcome.Some? && !t.outcome.value.Failed?)
            && (t.consumed.None? ==>
                  && t.view.want == sys.seqr.view.want
                  && t.outcome == Some(Failed(if SingleMissing(sys.seqr.view) then RpcFailed else InvalidSequence))
                  && Do(u, sys, Sequence(Wait(r))).agg.forwarder == A.Stopped([]))
  {
    ReachableInv(u, start, clock, actions);
    var sys := Run(u, Initial(u, start, clock), actions);
    AnswerCases(u, start, sys, r);
    if sys.seqr.view.want !in sys.pub.rows {
      assert Do(u, sys, Sequence(Wait(r))) == DoSequence(u, sys, Wait(r));
    }
  }

  lemma AnswerCases<S, D(!new)>(u: Setup<S, D>, start: int, sys: System<S, D>, r: Round)
    requires Replication.Inv(u, start, sys)
    requires var v := sys.seqr.view;
             && sys.seqr.listening && v.heap != [] && r.clock > v.deadline
             && r.single == GetMessage(u.wire, sys.pub.rows, v.want, true)
             && r.batch == StreamMessages(u.wire, sys.pub.rows, v.want, true)
    ensures sys.agg.forwarder.Pulling?
    ensures var v, t := sys.seqr.view, Listen(u.Cfg(), sys.seqr.view, r);
            if v.want in sys.pub.rows then
              && t.consumed.Some? && t.consumed.value.Id() == v.want
              && InLog(Truth(u, sys), t.consumed.value.raw)
              && t.view.want == v.want + 1
              && t.outcome.Some? && !t.outcome.value.Failed?
            else
              t == Return(v, Failed(if SingleMissing(v) then RpcFailed else InvalidSequence))
  {
    var v := sys.seqr.view;
    RowsAreEntries(u.app, u.wire, sys.pub);
    if v.want in sys.pub.rows {
      RequestConsumes(u, sys.pub.rows, v, r);
    } else {
      assert v.heap[0] in v.heap;
      assert v.heap[0].Id() in sys.pub.rows;
      RequestFails(u, sys.pub.rows, v, r);
    }
  }

  lemma RequestConsumes<S, D>(u: Setup<S, D>, rows: Rows, v: View, r: Round)
    requires ReadableRows(u.app, u.wire, rows) && WellFormed(u.wire, rows)
    requires v.heap != [] && r.clock > v.deadline && v.want in rows
    requires r.single == GetMessage(u.wire, rows, v.want, true) && r.batch == StreamMessages(u.wire, rows, v.want, true)
    ensures var t := Listen(u.Cfg(), v, r);
            && t.consumed.Some? && t.consumed.value.Id() == v.want
            && InLog(Entries(u.wire, rows), t.consumed.value.raw)
            && t.view.want == v.want + 1
            && t.outcome.Some? && !t.outcome.value.Failed?
  {
    var heard := r.(udp := Elapsed);
    UnbrokenLogHelps(u.wire, rows, v.want, v.want, heard);
    assert heard.batch.items[v.want - v.want] == Item(Entries(u.wire, rows)[v.want]);
    var t := Listen(u.Cfg(), v, r);
    ParsedEntry(u, rows, t.consumed.value);
  }

  lemma RequestFails<S, D>(u: Setup<S, D>, rows: Rows, v: View, r: Round)
    requires WellFormed(u.wire, rows)
    requires v.heap != [] && r.clock > v.deadline && v.want !in rows && exists id :: id in rows && id > v.want
    requires r.single == GetMessage(u.wire, rows, v.want, true) && r.batch == StreamMessages(u.wire, rows, v.want, true)
    ensures Listen(u.Cfg(), v, r) == Return(v, Failed(if SingleMissing(v) then RpcFailed else InvalidSequence))
  {
    StreamPastStretch(u.wire, rows, v.want);
  }

  // ---- What a subscriber reads

  /** How a stamp reads at the other end. */
  function KindOf<D>(stamp: P.Stamp<D>): StreamMessage<D> {
    match stamp
    case Announce => StreamMessage.Started
    case Pulse => StreamMessage.Heartbeat
    case Change(delta) => StreamMessage.Delta(delta)
  }

  /** Over every honest run: a step that hands out a row of the current incarnation
      returns what the publisher stamped that id for, with the row's own time
      stamp and with the time and the origin of its arrival. */
  lemma ReadsAsStamped<S, D(!new)>(u: Setup<S, D>, start: int, clock: int, actions: seq<Action<D>>, step: Step, m: ReceivedMessage)
    requires Codes(u.app, u.wire) && HonestRun(u, Initial(u, start, clock), actions)
    requires Honest(u, Run(u, Initial(u, start, clock), actions), Sequence(step))
    requires Fire(u.Cfg(), Run(u, Initial(u, start, clock), actions).seqr, step).consumed == Some(m)
    requires Run(u, Initial(u, start, clock), actions).pub.base <= m.Id()
    ensures var sys := Run(u, Initial(u, start, clock), actions);
            Delivers(sys.seqr, step, m) && HandsOutStamped(u, sys.pub, m, Fire(u.Cfg(), sys.seqr, step).outcome)
  {
    ReachableInv(u, start, clock, actions);
    StepReadsAsStamped(u, start, Run(u, Initial(u, start, clock), actions), step, m);
  }

  /** The message is the row of its id, and the result says what that was stamped for. */
  ghost predicate HandsOutStamped<S, D>(u: Setup<S, D>, p: P.Publisher<S, D>, m: ReceivedMessage, o: Option<Outcome<D>>) {
    && p.base <= m.Id() < p.Counter() && m.Id() in p.rows && u.wire.decode(p.rows[m.Id()]) == Some(m.raw)
    && o == Some(Message(m.raw.timestamp, m.recvTs, m.origin, KindOf(p.stamps[m.Id() - p.base])))
  }

  lemma StepReadsAsStamped<S, D(!new)>(u: Setup<S, D>, start: int, sys: System<S, D>, step: Step, m: ReceivedMessage)
    requires Replication.Inv(u, start, sys) && Codes(u.app, u.wire) && Honest(u, sys, Sequence(step))
    requires Fire(u.Cfg(), sys.seqr, step).consumed == Some(m) && sys.pub.base <= m.Id()
    ensures Delivers(sys.seqr, step, m) && HandsOutStamped(u, sys.pub, m, Fire(u.Cfg(), sys.seqr, step).outcome)
  {
    ConsumesIff(u.Cfg(), sys.seqr, step, m);
    FireLogStep(u, sys, step);
    ConsumedReads(u.Cfg(), sys.seqr, step);
    RowReads(u, sys.pub, m, Fire(u.Cfg(), sys.seqr, step).outcome.value);
  }

  lemma RowReads<S, D(!new)>(u: Setup<S, D>, p: P.Publisher<S, D>, m: ReceivedMessage, o: Outcome<D>)
    requires PublisherSafety.Inv(u.app, u.wire, p) && Codes(u.app, u.wire)
    requires InLog(Entries(u.wire, p.rows), m.raw) && p.base <= m.Id() && ReadsAs(u.app.decode, m, o)
    ensures HandsOutStamped(u, p, m, Some(o))
  {
    assert Readable(u.app, u.wire, m.Id(), p.rows[m.Id()]);
    assert Carries(u.app, p, m.raw);
    var stamp := p.stamps[m.Id() - p.base];
    if stamp.Change? {
      assert u.app.decode(u.app.encode(stamp.delta)) == Some(stamp.delta);
    }
  }

  // ---- What an open stream is worth

  /** From a reachable state, between calls or inside one: with a later id
      buffered, every id up to it logged and helpful answers, one call per id
      gets there if and only if the open recovery stream, if there is one, goes
      on without a hole. */
  lemma ReachableConvergesIff<S, D(!new)>(u: Setup<S, D>, start: int, clock: int, actions: seq<Action<D>>, calls: seq<CallTape>, last: int)
    requires Codes(u.app, u.wire) && HonestRun(u, Initial(u, start, clock), actions)
    requires HasLogged(Run(u, Initial(u, start, clock), actions), last)
    requires AnswersUpTo(u, Run(u, Initial(u, start, clock), actions), calls, last)
    ensures var sys := Run(u, Initial(u, start, clock), actions);
            var v := sys.seqr.view;
            CallAll(u.Cfg(), v, calls).final.want == last + 1
            <==> (v.recovery.Some? ==> Follows(v.recovery.value, Truth(u, sys), v.want, last))
  {
    ReachableInv(u, start, clock, actions);
    StateConvergesIff(u, start, Run(u, Initial(u, start, clock), actions), calls, last);
  }

  /** `last` is buffered, or consumed already, and every id up to it is logged. */
  ghost predicate HasLogged<S, D>(sys: System<S, D>, last: int) {
    && sys.seqr.view.want <= last + 1 && (sys.seqr.view.want <= last ==> last in Ids(sys.seqr.view.heap))
    && forall id | sys.seqr.view.want <= id <= last :: id in sys.pub.rows
  }

  /** One call for each id from the wanted one up to `last`, helpfully answered. */
  ghost predicate AnswersUpTo<S, D>(u: Setup<S, D>, sys: System<S, D>, calls: seq<CallTape>, last: int) {
    && |calls| == last + 1 - sys.seqr.view.want
    && AnswersAll(u.Cfg(), sys.seqr.view, calls, Truth(u, sys), last)
  }

  lemma StateConvergesIff<S, D(!new)>(u: Setup<S, D>, start: int, sys: System<S, D>, calls: seq<CallTape>, last: int)
    requires Replication.Inv(u, start, sys) && HasLogged(sys, last) && AnswersUpTo(u, sys, calls, last)
    ensures var v := sys.seqr.view;
            CallAll(u.Cfg(), v, calls).final.want == last + 1
            <==> (v.recovery.Some? ==> Follows(v.recovery.value, Truth(u, sys), v.want, last))
  {
    LoggedIsBuffered(u, start, sys, last);
    ConvergesIff(u.Cfg(), sys.seqr.view, calls, Truth(u, sys), last);
  }

  lemma LoggedIsBuffered<S, D(!new)>(u: Setup<S, D>, start: int, sys: System<S, D>, last: int)
    requires Replication.Inv(u, start, sys) && HasLogged(sys, last)
    ensures Buffered(sys.seqr.view, Truth(u, sys), last)
  {
    RowsAreEntries(u.app, u.wire, sys.pub);
  }

  /** An honest environment whose batch service, when it answers, serves the
      whole log as it is at that moment. */
  ghost predicate Faithful<S, D>(u: Setup<S, D>, sys: System<S, D>, a: Action<D>) {
    && Honest(u, sys, a)
    && (a.Sequence? && a.step.Wait? && a.step.round.batch.Opened? ==>
          a.step.round.batch == StreamMessages(u.wire, sys.pub.rows, sys.seqr.view.want, true))
  }

  ghost predicate FaithfulRun<S, D>(u: Setup<S, D>, sys: System<S, D>, actions: seq<Action<D>>)
    decreases actions
  {
    actions != [] ==> Faithful(u, sys, actions[0]) && FaithfulRun(u, Do(u, sys, actions[0]), actions[1..])
  }

  lemma {:induction false} FaithfulIsHonest<S, D>(u: Setup<S, D>, sys: System<S, D>, actions: seq<Action<D>>)
    requires FaithfulRun(u, sys, actions)
    ensures HonestRun(u, sys, actions)
    decreases actions
  {
    if actions != [] {
      FaithfulIsHonest(u, Do(u, sys, actions[0]), actions[1..]);
    }
  }

  /** An open recovery stream is what is left of a snapshot of the log. */
  ghost predicate ServedFrom(wire: Protobuf, snap: Rows, rows: Rows, v: View) {
    && Within(snap, rows)
    && (v.recovery.Some? ==> v.recovery.value == StreamMessages(wire, snap, v.want, true).items)
  }

  /** Taking the first item of a snapshot's stream leaves the stream of the next id. */
  lemma SnapshotTail(wire: Protobuf, snap: Rows, rows: Rows, want: int)
    requires WellFormed(wire, rows) && Within(snap, rows)
    ensures var items := StreamMessages(wire, snap, want, true).items;
            items != [] ==>
              && items[0].Item?
              && (items[0].msg.sequence == want ==> items[1..] == StreamMessages(wire, snap, want + 1, true).items)
  {
    var items := StreamMessages(wire, snap, want, true).items;
    if want in snap {
      StreamIsSegment(wire, snap, want, want + 1);
      var msgs := Segment(Entries(wire, snap), want, want + 1);
      assert items[0] == Items(msgs)[0];
      assert items[1..] == StreamMessages(wire, snap, want + 1, true).items;
    } else {
      StreamPastStretch(wire, snap, want);
    }
  }

  lemma EnterServed<D>(cfg: Config<D>, wire: Protobuf, snap: Rows, rows: Rows, v: View, e: Entry)
    requires WellFormed(wire, rows) && ServedFrom(wire, snap, rows, v)
    ensures var t := Enter(cfg, v, e);
            (t.outcome.Some? && t.outcome.value.Failed?) || ServedFrom(wire, snap, rows, t.view)
  {
    SnapshotTail(wire, snap, rows, v.want);
  }

  lemma ListenServed<D>(cfg: Config<D>, wire: Protobuf, rows: Rows, v: View, r: Round)
    requires WellFormed(wire, rows) && v.recovery == None
    requires r.batch.Opened? ==> r.batch == StreamMessages(wire, rows, v.want, true)
    ensures ServedFrom(wire, rows, rows, Listen(cfg, v, r).view)
  {
    SnapshotTail(wire, rows, rows, v.want);
  }

  /** A step leaves the forwarding task stopped, or the stream served from the
      snapshot it was served from, or from the log as it was at the step. */
  ghost predicate StillServed<S, D>(u: Setup<S, D>, snap: Rows, now: Rows, next: System<S, D>) {
    || next.agg.forwarder.Stopped?
    || ServedFrom(u.wire, snap, next.pub.rows, next.seqr.view)
    || ServedFrom(u.wire, now, next.pub.rows, next.seqr.view)
  }

  lemma SequenceServed<S, D(!new)>(u: Setup<S, D>, start: int, sys: System<S, D>, step: Step, snap: Rows)
    requires Replication.Inv(u, start, sys) && Faithful(u, sys, Sequence(step))
    requires sys.agg.forwarder.Stopped? || ServedFrom(u.wire, snap, sys.pub.rows, sys.seqr.view)
    ensures StillServed(u, snap, sys.pub.rows, DoSequence(u, sys, step))
  {
    RowsAreEntries(u.app, u.wire, sys.pub);
    var rows, v := sys.pub.rows, sys.seqr.view;
    if sys.agg.forwarder.Pulling? {
      match step
      case Call(e) =>
        if !sys.seqr.listening {
          EnterServed(u.Cfg(), u.wire, snap, rows, v, e);
        }
      case Wait(r) =>
        if sys.seqr.listening {
          ListenServed(u.Cfg(), u.wire, rows, v, r);
        }
    }
  }

  lemma DoServed<S, D(!new)>(u: Setup<S, D>, start: int, sys: System<S, D>, a: Action<D>, snap: Rows)
    requires Replication.Inv(u, start, sys) && Faithful(u, sys, a)
    requires sys.agg.forwarder.Stopped? || ServedFrom(u.wire, snap, sys.pub.rows, sys.seqr.view)
    ensures StillServed(u, snap, sys.pub.rows, Do(u, sys, a))
  {
    match a
    case Publish(act) => DoGrowsLog(u.app, u.wire, sys.pub, act);
    case Sequence(step) => SequenceServed(u, start, sys, step, snap);
    case Aggregate(turn) =>
  }

  /** The log as it was after the first `n` actions of a run. */
  function LogAfter<S, D>(u: Setup<S, D>, sys: System<S, D>, actions: seq<Action<D>>, n: nat): Rows
    requires n <= |actions|
  {
    Run(u, sys, actions[..n]).pub.rows
  }

  lemma {:induction false} FaithfulSplit<S, D>(u: Setup<S, D>, sys: System<S, D>, a: seq<Action<D>>, b: seq<Action<D>>)
    requires FaithfulRun(u, sys, a + b)
    ensures FaithfulRun(u, sys, a) && FaithfulRun(u, Run(u, sys, a), b)
    decreases a
  {
    if a == [] {
      assert a + b == b;
    } else {
      assert (a + b)[0] == a[0] && (a + b)[1..] == a[1..] + b;
      FaithfulSplit(u, Do(u, sys, a[0]), a[1..], b);
    }
  }

  lemma LastServed<S, D(!new)>(u: Setup<S, D>, start: int, clock: int, before: seq<Action<D>>, last: Action<D>, snap: Rows)
    requires Codes(u.app, u.wire) && FaithfulRun(u, Initial(u, start, clock), before)
    requires var sys := Run(u, Initial(u, start, clock), before);
             && Faithful(u, sys, last)
             && (sys.agg.forwarder.Stopped? || ServedFrom(u.wire, snap, sys.pub.rows, sys.seqr.view))
    ensures var sys := Run(u, Initial(u, start, clock), before); StillServed(u, snap, sys.pub.rows, Do(u, sys, last))
  {
    FaithfulIsHonest(u, Initial(u, start, clock), before);
    ReachableInv(u, start, clock, before);
    DoServed(u, start, Run(u, Initial(u, start, clock), before), last, snap);
  }

  /** With a faithful service, an open stream is in every reachable state what is
      left of the log as it was at an earlier moment of the run. */
  lemma {:induction false} RunServed<S, D(!new)>(u: Setup<S, D>, start: int, clock: int, actions: seq<Action<D>>) returns (n: nat)
    requires Codes(u.app, u.wire) && FaithfulRun(u, Initial(u, start, clock), actions)
    ensures n <= |actions|
    ensures var init := Initial(u, start, clock);
            var sys := Run(u, init, actions);
            sys.agg.forwarder.Stopped? || ServedFrom(u.wire, LogAfter(u, init, actions, n), sys.pub.rows, sys.seqr.view)
    decreases actions
  {
    var init := Initial(u, start, clock);
    if actions == [] {
      n := 0;
    } else {
      var m := |actions| - 1;
      var before, last := actions[..m], actions[m];
      assert actions == before + [last] && [last][1..] == [];
      FaithfulSplit(u, init, before, [last]);
      var k := RunServed(u, start, clock, before);
      var sys := Run(u, init, before);
      LastServed(u, start, clock, before, last, LogAfter(u, init, before, k));
      RunConcat(u, init, before, [last]);
      assert Run(u, init, actions) == Do(u, sys, last);
      assert actions[..k] == before[..k];
      n := if ServedFrom(u.wire, LogAfter(u, init, before, k), Do(u, sys, last).pub.rows, Do(u, sys, last).seqr.view) then k else m;
    }
  }

  /** With a faithful service, an open stream is in every reachable state what is
      left of the log as it was at some earlier moment; and with a later id
      buffered, every id up to it logged by now and helpful answers, one call per
      id gets there if and only if the log had no hole at that moment. */
  lemma SnapshotConvergesIff<S, D(!new)>(u: Setup<S, D>, start: int, clock: int, actions: seq<Action<D>>, calls: seq<CallTape>, last: int)
    returns (n: nat)
    requires Codes(u.app, u.wire) && FaithfulRun(u, Initial(u, start, clock), actions)
    requires !Run(u, Initial(u, start, clock), actions).agg.forwarder.Stopped?
    requires HasLogged(Run(u, Initial(u, start, clock), actions), last)
    requires AnswersUpTo(u, Run(u, Initial(u, start, clock), actions), calls, last)
    ensures n <= |actions|
    ensures var init := Initial(u, start, clock);
            var sys, snap := Run(u, init, actions), LogAfter(u, init, actions, n);
            var v := sys.seqr.view;
            && ServedFrom(u.wire, snap, sys.pub.rows, v)
            && (CallAll(u.Cfg(), v, calls).final.want == last + 1 <==> (v.recovery.Some? ==> !HasHole(snap, v.want, last)))
  {
    var init := Initial(u, start, clock);
    FaithfulIsHonest(u, init, actions);
    ReachableInv(u, start, clock, actions);
    n := RunServed(u, start, clock, actions);
    HoleIff(u, start, Run(u, init, actions), LogAfter(u, init, actions, n), calls, last);
  }

  lemma HoleIff<S, D(!new)>(u: Setup<S, D>, start: int, sys: System<S, D>, snap: Rows, calls: seq<CallTape>, last: int)
    requires Replication.Inv(u, start, sys) && HasLogged(sys, last) && AnswersUpTo(u, sys, calls, last)
    requires ServedFrom(u.wire, snap, sys.pub.rows, sys.seqr.view)
    ensures var v := sys.seqr.view;
            CallAll(u.Cfg(), v, calls).final.want == last + 1 <==> (v.recovery.Some? ==> !HasHole(snap, v.want, last))
  {
    StateConvergesIff(u, start, sys, calls, last);
    RowsAreEntries(u.app, u.wire, sys.pub);
    SnapshotFollowsIff(u.wire, snap, sys.pub.rows, sys.seqr.view.want, last);
  }

  /** The other half: a stream left from a snapshot with a hole delivers what is
      before the hole and then fails, although the id may be logged by now. */
  lemma HoleFails<D>(cfg: Config<D>, wire: Protobuf, snap: Rows, rows: Rows, v: View, hole: int, entries: seq<Entry>)
    requires WellFormed(wire, rows) && ServedFrom(wire, snap, rows, v) && v.recovery.Some?
    requires v.want <= hole && hole !in snap && (forall id | v.want <= id < hole :: id in snap) && (exists id :: id in snap && id > hole)
    requires |entries| == hole - v.want + 1
    ensures var tr := Exec(cfg, Machine(v, false), Calls(entries));
            && tr.final.view.want == hole
            && |tr.consumed| == hole - v.want && |tr.outcomes| == hole - v.want + 1
            && tr.outcomes[hole - v.want] == Failed(InvalidSequence)
  {
    var msgs, beyond, more := SnapshotWithHole(wire, snap, v.want, hole);
    StreamStopsAtHole(cfg, v, msgs, beyond, more, entries);
  }
}
