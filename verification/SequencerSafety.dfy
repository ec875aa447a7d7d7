/** What every run of the sequencer keeps, whatever the network, the recovery
    service and the clock do. */
module SequencerSafety {
  import opened Wrappers
  import opened Messages
  import opened MinMaxHeaps
  import opened Sequencing

  // ---- Exactly once, in order

  /** Errors that a message's own contents cause; its id is used up all the same. */
  predicate ReportsMessage<D>(o: Outcome<D>) {
    o.Message? || o == Failed(MissingPayload) || o == Failed(BadDelta)
  }

  function Reports<D>(os: seq<Outcome<D>>): seq<Outcome<D>> {
    if os == [] then []
    else (if ReportsMessage(os[0]) then [os[0]] else []) + Reports(os[1..])
  }

  function Parses<D>(cfg: Config<D>, ms: seq<ReceivedMessage>): seq<Outcome<D>> {
    if ms == [] then [] else [Parse(cfg, ms[0])] + Parses(cfg, ms[1..])
  }

  /** The step consumes the wanted id and reports its message, or leaves the
      wanted id alone and reports none. */
  predicate ConsumesOrNot<D(==)>(cfg: Config<D>, want: int, t: Turn<D>) {
    match t.consumed
    case Some(m) =>
      && m.Id() == want
      && t.view.want == want + 1
      && t.outcome == Some(Parse(cfg, m))
      && ReportsMessage(t.outcome.value)
    case None =>
      && t.view.want == want
      && (t.outcome.Some? ==> !ReportsMessage(t.outcome.value))
  }

  lemma EnterConsumes<D>(cfg: Config<D>, v: View, e: Entry)
    ensures ConsumesOrNot(cfg, v.want, Enter(cfg, v, e))
  {
  }

  lemma ListenConsumes<D>(cfg: Config<D>, v: View, r: Round)
    ensures ConsumesOrNot(cfg, v.want, Listen(cfg, v, r))
  {
  }

  /** Every step consumes the wanted id and reports its message, or leaves the
      wanted id alone and reports none. */
  lemma FireConsumes<D>(cfg: Config<D>, mc: Machine, s: Step)
    ensures ConsumesOrNot(cfg, mc.view.want, Fire(cfg, mc, s))
    ensures After(mc, s, Fire(cfg, mc, s)).view == Fire(cfg, mc, s).view
  {
    match s
    case Call(e) => EnterConsumes(cfg, mc.view, e);
    case Wait(r) => ListenConsumes(cfg, mc.view, r);
  }

  /** Over every run the i-th consumed id is the starting one plus i, the wanted
      id is the start plus the number consumed, and the results that report a
      message are the parses of the consumed messages, in order. */
  lemma {:induction false} ExactlyOnceInOrder<D>(cfg: Config<D>, mc: Machine, steps: seq<Step>)
    ensures var tr := Exec(cfg, mc, steps);
            && tr.final.view.want == mc.view.want + |tr.consumed|
            && (forall i | 0 <= i < |tr.consumed| :: tr.consumed[i].Id() == mc.view.want + i)
            && Reports(tr.outcomes) == Parses(cfg, tr.consumed)
    decreases steps
  {
    if steps != [] {
      var t := Fire(cfg, mc, steps[0]);
      var next := After(mc, steps[0], t);
      FireConsumes(cfg, mc, steps[0]);
      ExactlyOnceInOrder(cfg, next, steps[1..]);
      var tr, rest := Exec(cfg, mc, steps), Exec(cfg, next, steps[1..]);
      assert tr.consumed == if t.consumed.Some? then [t.consumed.value] + rest.consumed else rest.consumed;
      assert tr.outcomes == if t.outcome.Some? then [t.outcome.value] + rest.outcomes else rest.outcomes;
    }
  }

  // ---- Only what was supplied

  /** A message is the one the log holds under its id. */
  predicate InLog(truth: map<int, RawMessage>, m: RawMessage) {
    m.sequence in truth && truth[m.sequence] == m
  }

  predicate ItemsInLog(truth: map<int, RawMessage>, items: seq<StreamItem>) {
    forall item | item in items && item.Item? :: InLog(truth, item.msg)
  }

  /** Everything the sequencer holds is a log entry. */
  predicate HoldsLog(truth: map<int, RawMessage>, v: View) {
    && (forall m | m in v.heap :: InLog(truth, m.raw))
    && (v.recovery.Some? ==> ItemsInLog(truth, v.recovery.value))
  }

  /** Everything one step is given is a log entry. */
  predicate GivesLog(truth: map<int, RawMessage>, s: Step) {
    s.Wait? ==>
      && (s.round.udp.Packet? ==> InLog(truth, s.round.udp.msg))
      && (s.round.single.Got? ==> InLog(truth, s.round.single.msg))
      && (s.round.batch.Opened? ==> ItemsInLog(truth, s.round.batch.items))
  }

  lemma {:induction false} DropStaleIsSuffix(h: seq<ReceivedMessage>, want: int) returns (n: nat)
    ensures n <= |h| && DropStale(h, want) == h[n..]
    ensures forall i | 0 <= i < n :: h[i].Id() < want
    ensures n < |h| ==> want <= h[n].Id()
  {
    if h != [] && h[0].Id() < want {
      n := DropStaleIsSuffix(h[1..], want);
      n := n + 1;
      assert h[1..][n - 1..] == h[n..];
      assert forall i | 1 <= i < n :: h[i] == h[1..][i - 1];
    } else {
      n := 0;
    }
  }

  lemma EnterKeepsLog<D>(cfg: Config<D>, v: View, e: Entry, truth: map<int, RawMessage>)
    requires HoldsLog(truth, v)
    ensures var t := Enter(cfg, v, e);
            HoldsLog(truth, t.view) && (t.consumed.Some? ==> InLog(truth, t.consumed.value.raw))
  {
    var n := DropStaleIsSuffix(v.heap, v.want);
  }

  lemma ListenKeepsLog<D>(cfg: Config<D>, v: View, r: Round, truth: map<int, RawMessage>)
    requires HoldsLog(truth, v) && GivesLog(truth, Wait(r))
    ensures var t := Listen(cfg, v, r);
            HoldsLog(truth, t.view) && (t.consumed.Some? ==> InLog(truth, t.consumed.value.raw))
  {
    if r.clock > v.deadline {
      var t := RecoverBatch(cfg, v, r);
      if t.consumed.Some? {
        assert r.batch.items[0] in r.batch.items;
        assert HoldsLog(truth, t.view);
      }
    } else if r.udp.Packet? {
      InsertAdds(v.heap, ReceivedMessage(r.recvTs, Udp, r.udp.msg), r.slot);
    }
  }

  lemma {:induction false} ConsumedAreInLog<D>(cfg: Config<D>, mc: Machine, steps: seq<Step>, truth: map<int, RawMessage>)
    requires HoldsLog(truth, mc.view)
    requires forall s | s in steps :: GivesLog(truth, s)
    ensures var tr := Exec(cfg, mc, steps);
            HoldsLog(truth, tr.final.view) && forall m | m in tr.consumed :: InLog(truth, m.raw)
    decreases steps
  {
    if steps != [] {
      match steps[0] {
        case Call(e) => EnterKeepsLog(cfg, mc.view, e, truth);
        case Wait(r) => ListenKeepsLog(cfg, mc.view, r, truth);
      }
      ConsumedAreInLog(cfg, After(mc, steps[0], Fire(cfg, mc, steps[0])), steps[1..], truth);
    }
  }

  /** When every message supplied is a log entry, the i-th consumed message is
      the log entry for the i-th id. */
  lemma ConsumesLog<D>(cfg: Config<D>, mc: Machine, steps: seq<Step>, truth: map<int, RawMessage>)
    requires HoldsLog(truth, mc.view)
    requires forall s | s in steps :: GivesLog(truth, s)
    ensures var tr := Exec(cfg, mc, steps);
            forall i | 0 <= i < |tr.consumed| ::
              tr.consumed[i].Id() == mc.view.want + i && InLog(truth, tr.consumed[i].raw)
  {
    ConsumedAreInLog(cfg, mc, steps, truth);
    ExactlyOnceInOrder(cfg, mc, steps);
  }

  /** An id that is not in the log is never passed: the sequencer waits at the
      first hole for ever. */
  lemma StopsAtHole<D>(cfg: Config<D>, mc: Machine, steps: seq<Step>, truth: map<int, RawMessage>, hole: int)
    requires HoldsLog(truth, mc.view)
    requires forall s | s in steps :: GivesLog(truth, s)
    requires mc.view.want <= hole && hole !in truth
    ensures Exec(cfg, mc, steps).final.view.want <= hole
  {
    ConsumesLog(cfg, mc, steps, truth);
    ExactlyOnceInOrder(cfg, mc, steps);
    var tr := Exec(cfg, mc, steps);
    var k := hole - mc.view.want;
    assert k < |tr.consumed| ==> tr.consumed[k].Id() == hole;
  }

  // ---- The inductive invariant

  /** Without a connection nothing is buffered or being recovered; while it
      listens no recovery stream is open and every buffered id is beyond the
      wanted one. */
  ghost predicate Sound(mc: Machine) {
    && Sorted(mc.view.heap)
    && (!mc.view.connected ==> mc.view.heap == [] && mc.view.recovery == None)
    && (mc.listening ==> mc.view.recovery == None && forall m | m in mc.view.heap :: m.Id() > mc.view.want)
  }

  lemma EnterKeepsSound<D>(cfg: Config<D>, v: View, e: Entry)
    requires Sound(Machine(v, false))
    ensures var t := Enter(cfg, v, e); Sound(Machine(t.view, t.outcome.None?))
  {
    var n := DropStaleIsSuffix(v.heap, v.want);
  }

  lemma ListenKeepsSound<D>(cfg: Config<D>, v: View, r: Round)
    requires Sound(Machine(v, true))
    ensures var t := Listen(cfg, v, r); Sound(Machine(t.view, t.outcome.None?))
  {
    if r.clock > v.deadline {
      if v.heap != [] {
        RecoverKeepsSound(cfg, v, r);
      }
    } else if r.udp.Packet? {
      HearKeepsSound(cfg, v, r, ReceivedMessage(r.recvTs, Udp, r.udp.msg));
    }
  }

  lemma RecoverKeepsSound<D>(cfg: Config<D>, v: View, r: Round)
    requires Sound(Machine(v, true)) && v.heap != []
    ensures Sound(Machine(RecoverOne(cfg, v, r).view, false)) && RecoverOne(cfg, v, r).outcome.Some?
    ensures Sound(Machine(RecoverBatch(cfg, v, r).view, false)) && RecoverBatch(cfg, v, r).outcome.Some?
  {
  }

  lemma HearKeepsSound<D>(cfg: Config<D>, v: View, r: Round, m: ReceivedMessage)
    requires Sound(Machine(v, true))
    ensures var t := Hear(cfg, v.(connected := true), r, m); Sound(Machine(t.view, t.outcome.None?))
  {
    InsertAdds(v.heap, m, r.slot);
    InsertSorts(v.heap, m, r.slot);
  }

  lemma FireKeepsSound<D>(cfg: Config<D>, mc: Machine, s: Step)
    requires Sound(mc)
    ensures Sound(After(mc, s, Fire(cfg, mc, s)))
  {
    if s.Call? && !mc.listening {
      EnterKeepsSound(cfg, mc.view, s.entry);
    }
    if s.Wait? && mc.listening {
      ListenKeepsSound(cfg, mc.view, s.round);
    }
  }

  lemma {:induction false} EveryRunIsSound<D>(cfg: Config<D>, mc: Machine, steps: seq<Step>)
    requires Sound(mc)
    ensures Sound(Exec(cfg, mc, steps).final)
    decreases steps
  {
    if steps != [] {
      FireKeepsSound(cfg, mc, steps[0]);
      EveryRunIsSound(cfg, After(mc, steps[0], Fire(cfg, mc, steps[0])), steps[1..]);
    }
  }

  /** A call moves the deadline without delivering only while unconnected, and
      then nothing is buffered: a pending gap is never postponed. */
  lemma ResetNeverPostponesGap<D>(cfg: Config<D>, start: int, clock: int, steps: seq<Step>, e: Entry)
    ensures var mc := Exec(cfg, Machine(Fresh(start, clock), false), steps).final;
            var t := Fire(cfg, mc, Call(e));
            t.consumed.None? && t.view.deadline != mc.view.deadline ==>
              !mc.view.connected && mc.view.heap == [] && t.view.heap == []
  {
    EveryRunIsSound(cfg, Machine(Fresh(start, clock), false), steps);
    var mc := Exec(cfg, Machine(Fresh(start, clock), false), steps).final;
    var n := DropStaleIsSuffix(mc.view.heap, mc.view.want);
  }

  // ---- 64-bit arithmetic

  predicate InI64(x: int) {
    I64_MIN <= x <= I64_MAX
  }

  /** What the gap test computes stays inside an `i64`; it looks at the range of
      the buffer only when the least buffered id is the one after the wanted. */
  predicate GapTestFits(v: View)
    requires v.heap != []
  {
    var lo, hi := v.heap[0].Id(), v.heap[|v.heap| - 1].Id();
    && InI64(v.want + 1)
    && (v.want + 1 == lo ==> InI64(hi - lo) && InI64(hi - lo + 1) && InI64(hi - lo + 1 - |Ids(v.heap)|))
  }

  /** While listening, the gap test of a non-empty buffer stays inside an `i64`
      exactly when the largest buffered id is less than 2^63 beyond the wanted
      one; wanting a non-negative id, always. */
  lemma GapTestFitsIff(v: View)
    requires Sound(Machine(v, true)) && v.heap != [] && I64_MIN <= v.want
    ensures GapTestFits(v) <==> (v.want + 1 == v.heap[0].Id() ==> v.heap[|v.heap| - 1].Id() - v.want <= I64_MAX)
    ensures 0 <= v.want ==> GapTestFits(v)
  {
    assert v.heap[0] in v.heap;
    DistinctIdsFit(v.heap);
  }

  /** The source accepts a negative first id: a new sequencer that wants -2 and
      hears -1 and the largest id is listening with a gap test that overflows. */
  lemma GapTestOverflows<D>(cfg: Config<D>, recvTs: int)
    ensures var far := [Call(Entry(0, recvTs)), Wait(HeardEarly(recvTs, -1)), Wait(HeardEarly(recvTs, I64_MAX))];
            var mc := Exec(cfg, Machine(Fresh(-2, 0), false), far).final;
            mc.listening && mc.view.heap != [] && !GapTestFits(mc.view)
  {
    var call, near, far := Call(Entry(0, recvTs)), Wait(HeardEarly(recvTs, -1)), Wait(HeardEarly(recvTs, I64_MAX));
    var entered := Machine(Fresh(-2, 0).(deadline := cfg.timeout), true);
    var one := HeardEarly(recvTs, -1).udp.msg;
    var heap := [ReceivedMessage(recvTs, Udp, one)];
    var hearing := Machine(View(-2, heap, None, true, cfg.timeout), true);
    var last := Machine(hearing.view.(heap := heap + [ReceivedMessage(recvTs, Udp, far.round.udp.msg)]), true);
    assert FireTrace(cfg, Machine(Fresh(-2, 0), false), call) == Trace(entered, [], []);
    assert FireTrace(cfg, entered, near) == Trace(hearing, [], []);
    assert FireTrace(cfg, hearing, far) == Trace(last, [], []);
    assert [call, near, far][1..] == [near, far] && [near, far][1..] == [far] && [far][1..] == [];
    assert Exec(cfg, hearing, [far]).final == last;
    assert Exec(cfg, entered, [near, far]).final == last;
  }

  function HeardEarly(recvTs: int, id: I64): Round {
    Round(0, recvTs, 0, Packet(RawMessage(0, id, None)), Refused, Unavailable)
  }

  /** Starting inside the `i64` range, the wanted id leaves it only by consuming
      the largest id. */
  lemma WantFitsI64<D>(cfg: Config<D>, mc: Machine, steps: seq<Step>)
    requires I64_MIN <= mc.view.want <= I64_MAX
    ensures var tr := Exec(cfg, mc, steps);
            && I64_MIN <= tr.final.view.want <= I64_MAX + 1
            && (tr.final.view.want == I64_MAX + 1
                <==> tr.consumed != [] && tr.consumed[|tr.consumed| - 1].Id() == I64_MAX)
  {
    ExactlyOnceInOrder(cfg, mc, steps);
    var tr := Exec(cfg, mc, steps);
    if tr.consumed != [] {
      assert tr.consumed[|tr.consumed| - 1].Id() == tr.final.view.want - 1;
    }
  }

  // ---- A call is a run

  function Waits(rounds: seq<Round>): seq<Step> {
    seq(|rounds|, i requires 0 <= i < |rounds| => Wait(rounds[i]))
  }

  lemma {:induction false} LoopIsRun<D>(cfg: Config<D>, v: View, rounds: seq<Round>) returns (n: nat)
    ensures n <= |rounds|
    ensures var t, tr := Loop(cfg, v, rounds), Exec(cfg, Machine(v, true), Waits(rounds[..n]));
            tr == Trace(Machine(t.view, t.outcome.None?), Listed(t.consumed), Listed(t.outcome))
    decreases rounds
  {
    if rounds == [] {
      n := 0;
    } else {
      var t := Listen(cfg, v, rounds[0]);
      FireConsumes(cfg, Machine(v, true), Wait(rounds[0]));
      if t.outcome.Some? {
        n := 1;
        assert Waits(rounds[..1])[1..] == [];
      } else {
        var m := LoopIsRun(cfg, t.view, rounds[1..]);
        n := m + 1;
        assert Waits(rounds[..n])[1..] == Waits(rounds[1..][..m]);
      }
    }
  }

  /** A whole call is the run of its entry and of the rounds it used, so what
      holds of every run holds of every sequence of calls. */
  lemma CallIsRun<D>(cfg: Config<D>, v: View, e: Entry, rounds: seq<Round>) returns (n: nat)
    ensures n <= |rounds|
    ensures var t, tr := Next(cfg, v, e, rounds), Exec(cfg, Machine(v, false), [Call(e)] + Waits(rounds[..n]));
            tr == Trace(Machine(t.view, t.outcome.None?), Listed(t.consumed), Listed(t.outcome))
  {
    var t := Enter(cfg, v, e);
    FireConsumes(cfg, Machine(v, false), Call(e));
    if t.outcome.Some? {
      n := 0;
    } else {
      n := LoopIsRun(cfg, t.view, rounds);
    }
    assert ([Call(e)] + Waits(rounds[..n]))[1..] == Waits(rounds[..n]);
  }
}
