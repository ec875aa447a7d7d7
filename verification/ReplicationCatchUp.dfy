/** Catching up, end to end: with the publisher quiet and its log unbroken, a
    number of calls and the aggregator's turns between them bring the replica to
    the publisher's state as of the last buffered id. */
module ReplicationCatchUp {
  import opened Messages
  import opened PublisherSafety
  import opened Sequencing
  import opened SequencerSafety
  import opened SequencerRecovery
  import opened Replication
  import opened ReplicationProgress

  // ---- Calls and turns

  /** The aggregator left to itself: the draining loop, the send in hand, and the loop again. */
  function Settle<S, D>(u: Setup<S, D>, a: A.Memory<S, D>): A.Memory<S, D> {
    A.Drain(u.app, A.DoOffer(u.capacity, A.Drain(u.app, a, true)), true)
  }

  /** One whole call of the sequencer, its result taken by the forwarding task. A
      call that is pending with something buffered is finished the same way. */
  function Called<S, D>(u: Setup<S, D>, sys: System<S, D>, c: CallTape): System<S, D> {
    var t := Next(u.Cfg(), sys.seqr.view, c.entry, c.rounds);
    sys.(seqr := Machine(t.view, t.outcome.None?),
         agg := if t.outcome.Some? then A.DoReceive(sys.agg, t.outcome.value) else sys.agg)
  }

  function Settled<S, D>(u: Setup<S, D>, sys: System<S, D>): System<S, D> {
    sys.(agg := Settle(u, sys.agg))
  }

  /** The aggregator settles before the first call and after each. */
  function CatchUp<S, D>(u: Setup<S, D>, sys: System<S, D>, calls: seq<CallTape>): System<S, D>
    decreases calls
  {
    if calls == [] then Settled(u, sys)
    else CatchUp(u, Called(u, Settled(u, sys), calls[0]), calls[1..])
  }

  // ---- They are runs of the system

  lemma {:induction false} DrainIsRun<S, D>(u: Setup<S, D>, sys: System<S, D>) returns (turns: seq<Action<D>>)
    ensures HonestRun(u, sys, turns)
    ensures Run(u, sys, turns) == sys.(agg := A.Drain(u.app, sys.agg, true))
    decreases |sys.agg.queue|, (if sys.agg.running then 1 else 0) + (if sys.agg.empty then 0 else 1)
  {
    turns := [];
    if !A.Waiting(sys.agg) {
      var turn := Aggregate(A.Produce(true));
      var rest := DrainIsRun(u, Do(u, sys, turn));
      turns := [turn] + rest;
      assert turns[1..] == rest;
    }
  }

  lemma SettleIsRun<S, D>(u: Setup<S, D>, sys: System<S, D>) returns (turns: seq<Action<D>>)
    ensures HonestRun(u, sys, turns) && Run(u, sys, turns) == Settled(u, sys)
  {
    var first := DrainIsRun(u, sys);
    var drained := Run(u, sys, first);
    var offer := [Aggregate(A.Offer)];
    assert offer[1..] == [];
    var offered := Do(u, drained, offer[0]);
    var second := DrainIsRun(u, offered);
    RunConcat(u, drained, offer, second);
    RunConcat(u, sys, first, offer + second);
    turns := first + (offer + second);
  }

  /** Every round of the tape is one an honest environment may answer. */
  ghost predicate HonestRounds<S, D>(u: Setup<S, D>, sys: System<S, D>, rounds: seq<Round>) {
    forall r | r in rounds :: Honest(u, sys, Sequence(Wait(r)))
  }

  lemma {:induction false} LoopIsSystemRun<S, D>(u: Setup<S, D>, sys: System<S, D>, rounds: seq<Round>) returns (waits: seq<Action<D>>)
    requires sys.seqr.listening && sys.agg.forwarder.Pulling? && HonestRounds(u, sys, rounds)
    ensures HonestRun(u, sys, waits)
    ensures var t := Loop(u.Cfg(), sys.seqr.view, rounds);
            Run(u, sys, waits)
            == sys.(seqr := Machine(t.view, t.outcome.None?),
                    agg := if t.outcome.Some? then A.DoReceive(sys.agg, t.outcome.value) else sys.agg)
    decreases rounds
  {
    waits := [];
    if rounds != [] {
      var wait := Sequence(Wait(rounds[0]));
      assert rounds[0] in rounds;
      var t := Listen(u.Cfg(), sys.seqr.view, rounds[0]);
      var rest: seq<Action<D>> := [];
      if t.outcome.None? {
        rest := LoopIsSystemRun(u, Do(u, sys, wait), rounds[1..]);
      }
      waits := [wait] + rest;
      assert waits[1..] == rest;
    }
  }

  lemma CallIsSystemRun<S, D>(u: Setup<S, D>, sys: System<S, D>, c: CallTape) returns (steps: seq<Action<D>>)
    requires !sys.seqr.listening && sys.agg.forwarder.Pulling? && HonestRounds(u, sys, c.rounds)
    ensures HonestRun(u, sys, steps) && Run(u, sys, steps) == Called(u, sys, c)
  {
    var call := Sequence(Call(c.entry));
    var t := Enter(u.Cfg(), sys.seqr.view, c.entry);
    var rest: seq<Action<D>> := [];
    if t.outcome.None? {
      rest := LoopIsSystemRun(u, Do(u, sys, call), c.rounds);
    }
    steps := [call] + rest;
    assert steps[1..] == rest;
  }

  /** A pending call that has buffered something stands where a new call would
      begin to listen. */
  lemma PendingCall<D>(cfg: Config<D>, v: View, e: Entry)
    requires Sound(Machine(v, true)) && v.heap != []
    ensures Enter(cfg, v, e) == Continue(v)
  {
    assert v.heap[0] in v.heap;
  }

  /** The call is made, or if one is pending with something buffered, finished. */
  lemma CalledIsRun<S, D>(u: Setup<S, D>, sys: System<S, D>, c: CallTape) returns (steps: seq<Action<D>>)
    requires sys.agg.forwarder.Pulling? && HonestRounds(u, sys, c.rounds)
    requires Sound(sys.seqr) && (sys.seqr.listening ==> sys.seqr.view.heap != [])
    ensures HonestRun(u, sys, steps) && Run(u, sys, steps) == Called(u, sys, c)
  {
    if sys.seqr.listening {
      PendingCall(u.Cfg(), sys.seqr.view, c.entry);
      steps := LoopIsSystemRun(u, sys, c.rounds);
    } else {
      steps := CallIsSystemRun(u, sys, c);
    }
  }

  // ---- The aggregator settles

  lemma {:induction false} FoldPrefixOk<S, D>(app: StateSync<S, D>, s: S, a: seq<D>, b: seq<D>)
    requires AS.Fold(app, s, a + b).ok
    ensures AS.Fold(app, s, a).ok
    decreases a
  {
    if a != [] {
      assert (a + b)[0] == a[0] && (a + b)[1..] == a[1..] + b;
      FoldPrefixOk(app, app.apply(s, a[0]).state, a[1..], b);
    }
  }

  /** What is queued or in hand applies, because it applied on the publisher. */
  lemma PendingApplies<S, D(!new)>(u: Setup<S, D>, start: int, sys: System<S, D>)
    requires Replication.Inv(u, start, sys) && Codes(u.app, u.wire) && sys.pub.base == start && sys.agg.running
    ensures AS.Fold(u.app, sys.agg.state, sys.agg.queue + AS.Held(sys.agg.forwarder)).ok
  {
    StretchReplays(u.app, u.wire, sys.pub, sys.pub.base, sys.seqr.view.want);
    FoldFollowsHistory(u.app, Truth(u, sys), sys.pub.history, start, sys.seqr.view.want);
    PendingFolds(u.app, sys.agg);
  }

  lemma PendingFolds<S, D>(app: StateSync<S, D>, a: A.Memory<S, D>)
    requires AS.Fold(app, app.init, a.applied) == Applied(a.state, true) && AS.Fold(app, app.init, AS.TakenIn(a)).ok
    ensures AS.Fold(app, a.state, a.queue + AS.Held(a.forwarder)).ok
  {
    var pending := a.queue + AS.Held(a.forwarder);
    assert AS.TakenIn(a) == a.applied + pending;
    AS.FoldConcat(app, app.init, a.applied, pending);
  }

  /** If all that is pending applies, the aggregator settles empty and running. */
  lemma SettlesAtRest<S, D>(u: Setup<S, D>, a: A.Memory<S, D>)
    requires a.running && !a.forwarder.Stopped? && u.capacity > 0
    requires AS.Fold(u.app, a.state, a.queue + AS.Held(a.forwarder)).ok
    ensures AS.AtRest(Settle(u, a))
  {
    FoldPrefixOk(u.app, a.state, a.queue, AS.Held(a.forwarder));
    AS.FoldConcat(u.app, a.state, a.queue, AS.Held(a.forwarder));
    AS.DrainAppliesAll(u.app, a);
    var offered := A.DoOffer(u.capacity, A.Drain(u.app, a, true));
    assert offered.queue == AS.Held(a.forwarder);
    AS.DrainAppliesAll(u.app, offered);
  }

  lemma SettleRests<S, D(!new)>(u: Setup<S, D>, start: int, sys: System<S, D>)
    requires Replication.Inv(u, start, sys) && Codes(u.app, u.wire) && sys.pub.base == start && u.capacity > 0
    requires sys.agg.running && !sys.agg.forwarder.Stopped?
    ensures Replication.Inv(u, start, Settled(u, sys)) && AS.AtRest(Settle(u, sys.agg))
  {
    PendingApplies(u, start, sys);
    SettlesAtRest(u, sys.agg);
    var turns := SettleIsRun(u, sys);
    Replication.RunKeepsInv(u, start, sys, turns);
  }

  // ---- Catching up

  /** The publisher started when the subscriber did, the sequencer, between calls
      or inside one, has `last` buffered and the log unbroken up to it, and both
      of the aggregator's tasks run. */
  ghost predicate Ready<S, D>(u: Setup<S, D>, start: int, sys: System<S, D>, last: int) {
    && Replication.Inv(u, start, sys)
    && sys.pub.base == start && u.capacity > 0
    && Converging(sys.seqr.view, Truth(u, sys), last)
    && sys.agg.running && !sys.agg.forwarder.Stopped?
  }

  /** One call in a helpful environment takes in the wanted log entry and leaves
      everything ready for the next. */
  lemma CallKeepsReady<S, D(!new)>(u: Setup<S, D>, start: int, sys: System<S, D>, c: CallTape, last: int)
    requires Codes(u.app, u.wire) && Ready(u, start, sys, last) && sys.agg.forwarder.Pulling?
    requires sys.seqr.view.want <= last && Answers(u.Cfg(), sys.seqr.view, c, Truth(u, sys), last)
    requires HonestRounds(u, sys, c.rounds)
    ensures var next := Called(u, sys, c);
            Ready(u, start, next, last) && next.seqr.view.want == sys.seqr.view.want + 1
  {
    CallConverges(u.Cfg(), sys.seqr.view, c, Truth(u, sys), last);
    var t := Next(u.Cfg(), sys.seqr.view, c.entry, c.rounds);
    RowsAreEntries(u.app, u.wire, sys.pub);
    ParsedEntry(u, sys.pub.rows, t.consumed.value);
    var steps := CalledIsRun(u, sys, c);
    Replication.RunKeepsInv(u, start, sys, steps);
  }

  lemma SettleKeepsReady<S, D(!new)>(u: Setup<S, D>, start: int, sys: System<S, D>, last: int)
    requires Codes(u.app, u.wire) && Ready(u, start, sys, last)
    ensures Ready(u, start, Settled(u, sys), last) && AS.AtRest(Settle(u, sys.agg))
  {
    SettleRests(u, start, sys);
  }

  /** Settling and then a call, as a run. */
  lemma TurnIsRun<S, D(!new)>(u: Setup<S, D>, start: int, sys: System<S, D>, c: CallTape, last: int) returns (steps: seq<Action<D>>)
    requires Codes(u.app, u.wire) && Ready(u, start, sys, last) && sys.seqr.view.want <= last
    requires HonestRounds(u, sys, c.rounds)
    ensures HonestRun(u, sys, steps) && Run(u, sys, steps) == Called(u, Settled(u, sys), c)
  {
    SettleKeepsReady(u, start, sys, last);
    var turns := SettleIsRun(u, sys);
    var call := CalledIsRun(u, Settled(u, sys), c);
    RunConcat(u, sys, turns, call);
    steps := turns + call;
  }

  /** Settling and then a call in a helpful environment leaves everything ready for the next. */
  lemma TurnKeepsReady<S, D(!new)>(u: Setup<S, D>, start: int, sys: System<S, D>, c: CallTape, last: int)
    requires Codes(u.app, u.wire) && Ready(u, start, sys, last) && HonestRounds(u, sys, c.rounds)
    requires sys.seqr.view.want <= last && Answers(u.Cfg(), sys.seqr.view, c, Truth(u, sys), last)
    ensures var next := Called(u, Settled(u, sys), c);
            && Ready(u, start, next, last) && next.pub == sys.pub
            && next.seqr.view.want == sys.seqr.view.want + 1
            && next.seqr.view == Next(u.Cfg(), sys.seqr.view, c.entry, c.rounds).view
  {
    SettleKeepsReady(u, start, sys, last);
    CallKeepsReady(u, start, Settled(u, sys), c, last);
  }

  /** Everything a number of calls needs of the environment. */
  ghost predicate Attended<S, D>(u: Setup<S, D>, sys: System<S, D>, calls: seq<CallTape>, last: int) {
    && AnswersUpTo(u, sys, calls, last)
    && forall c | c in calls :: HonestRounds(u, sys, c.rounds)
  }

  /** What is left of the calls suits the state the first one leaves. */
  lemma AttendedTail<S, D>(u: Setup<S, D>, sys: System<S, D>, calls: seq<CallTape>, last: int)
    requires calls != [] && Attended(u, sys, calls, last)
    ensures sys.seqr.view.want <= last && Answers(u.Cfg(), sys.seqr.view, calls[0], Truth(u, sys), last)
    ensures HonestRounds(u, sys, calls[0].rounds)
    ensures var next := Called(u, Settled(u, sys), calls[0]);
            next.seqr.view.want == sys.seqr.view.want + 1 ==> Attended(u, next, calls[1..], last)
  {
    assert calls[0] in calls;
  }

  lemma SettledReplica<S, D(!new)>(u: Setup<S, D>, start: int, sys: System<S, D>, last: int)
    requires Codes(u.app, u.wire) && Ready(u, start, sys, last) && sys.seqr.view.want == last + 1
    ensures Landed(Settle(u, sys.agg), sys.pub, start, last)
  {
    SettleKeepsReady(u, start, sys, last);
    RestingReplica(u, start, Settled(u, sys));
  }

  /** The aggregator is at rest at the publisher's state as of `last`, which is
      the publisher's state if `last` was stamped last. */
  ghost predicate Landed<S, D>(a: A.Memory<S, D>, p: P.Publisher<S, D>, start: int, last: int) {
    && AS.AtRest(a) && !a.failed
    && |p.history| == p.Counter() - start + 1 && 0 <= last + 1 - start < |p.history|
    && a.state == p.history[last + 1 - start]
    && (last + 1 == p.Counter() ==> a.state == p.history[|p.history| - 1])
  }

  lemma {:induction false} CatchUpLands<S, D(!new)>(u: Setup<S, D>, start: int, sys: System<S, D>, calls: seq<CallTape>, last: int)
    requires Codes(u.app, u.wire) && Ready(u, start, sys, last) && Attended(u, sys, calls, last)
    ensures Landed(CatchUp(u, sys, calls).agg, sys.pub, start, last)
    decreases calls
  {
    if calls == [] {
      SettledReplica(u, start, sys, last);
    } else {
      AttendedTail(u, sys, calls, last);
      TurnKeepsReady(u, start, sys, calls[0], last);
      CatchUpLands(u, start, Called(u, Settled(u, sys), calls[0]), calls[1..], last);
    }
  }

  lemma {:induction false} CatchUpIsRun<S, D(!new)>(u: Setup<S, D>, start: int, sys: System<S, D>, calls: seq<CallTape>, last: int)
    returns (more: seq<Action<D>>)
    requires Codes(u.app, u.wire) && Ready(u, start, sys, last) && Attended(u, sys, calls, last)
    ensures HonestRun(u, sys, more) && Run(u, sys, more) == CatchUp(u, sys, calls)
    decreases calls
  {
    if calls == [] {
      more := SettleIsRun(u, sys);
    } else {
      AttendedTail(u, sys, calls, last);
      TurnKeepsReady(u, start, sys, calls[0], last);
      var steps := TurnIsRun(u, start, sys, calls[0], last);
      var rest := CatchUpIsRun(u, start, Called(u, Settled(u, sys), calls[0]), calls[1..], last);
      RunConcat(u, sys, steps, rest);
      more := steps + rest;
    }
  }

  /** The publisher started when the subscriber did, both of the aggregator's
      tasks run, `last` is buffered with the log unbroken up to it, or consumed
      already, and no open stream has a hole. */
  ghost predicate CanCatchUp<S, D>(u: Setup<S, D>, start: int, sys: System<S, D>, last: int) {
    var v := sys.seqr.view;
    && sys.pub.base == start && u.capacity > 0
    && sys.agg.running && !sys.agg.forwarder.Stopped?
    && HasLogged(sys, last)
    && (v.recovery.Some? ==> Follows(v.recovery.value, Truth(u, sys), v.want, last))
  }

  lemma CatchesUpFrom<S, D(!new)>(u: Setup<S, D>, start: int, sys: System<S, D>, calls: seq<CallTape>, last: int)
    returns (more: seq<Action<D>>)
    requires Replication.Inv(u, start, sys) && Codes(u.app, u.wire) && CanCatchUp(u, start, sys, last) && Attended(u, sys, calls, last)
    ensures HonestRun(u, sys, more) && Run(u, sys, more) == CatchUp(u, sys, calls)
    ensures Landed(CatchUp(u, sys, calls).agg, sys.pub, start, last)
  {
    LoggedIsBuffered(u, start, sys, last);
    CatchUpLands(u, start, sys, calls, last);
    more := CatchUpIsRun(u, start, sys, calls, last);
  }

  /** From any reachable state of the incarnation the subscriber started with:
      once the publisher is quiet, its log is unbroken up to a buffered id `last`
      and no open stream has a hole, one call per id with the aggregator settling
      between them is an honest run that leaves the replica at the publisher's
      state as of `last`, with nothing pending. A call that is already pending,
      as it is whenever a gap has just been noticed, is the first of them. If
      `last` was the last id stamped, that is the publisher's state. */
  lemma CatchesUp<S, D(!new)>(u: Setup<S, D>, start: int, clock: int, actions: seq<Action<D>>, calls: seq<CallTape>, last: int)
    returns (more: seq<Action<D>>)
    requires Codes(u.app, u.wire) && HonestRun(u, Initial(u, start, clock), actions)
    requires var sys := Run(u, Initial(u, start, clock), actions);
             CanCatchUp(u, start, sys, last) && Attended(u, sys, calls, last)
    ensures var sys := Run(u, Initial(u, start, clock), actions);
            var done := CatchUp(u, sys, calls);
            && HonestRun(u, sys, more) && Run(u, sys, more) == done
            && Landed(done.agg, sys.pub, start, last)
  {
    ReachableInv(u, start, clock, actions);
    more := CatchesUpFrom(u, start, Run(u, Initial(u, start, clock), actions), calls, last);
  }
}
