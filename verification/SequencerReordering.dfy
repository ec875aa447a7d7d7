/** Reordering and duplication: what is delivered depends only on which ids arrived. */
module SequencerReordering {
  import opened Wrappers
  import opened Messages
  import opened MinMaxHeaps
  import opened Sequencing
  import opened SequencerSafety

  /** A step that fits the phase and does not find its deadline passed; the
      socket yields a packet or nothing. */
  predicate FitsQuietly(mc: Machine, s: Step) {
    match s
    case Call(_) => !mc.listening
    case Wait(r) => mc.listening && r.clock <= mc.view.deadline && (r.udp.Packet? || r.udp.Elapsed?)
  }

  ghost predicate Quiet<D>(cfg: Config<D>, mc: Machine, steps: seq<Step>)
    decreases steps
  {
    steps != [] ==>
      && FitsQuietly(mc, steps[0])
      && Quiet(cfg, After(mc, steps[0], Fire(cfg, mc, steps[0])), steps[1..])
  }

  function ArrivedAt(s: Step): set<int> {
    if s.Wait? && s.round.udp.Packet? then {s.round.udp.msg.sequence} else {}
  }

  /** The ids that arrived over a run. */
  function Arrived(steps: seq<Step>): set<int> {
    if steps == [] then {} else ArrivedAt(steps[0]) + Arrived(steps[1..])
  }

  /** Every arrived id from the start on is consumed or buffered, and nothing else is. */
  ghost predicate Accounted(mc: Machine, start: int, arrived: set<int>) {
    && Sound(mc)
    && mc.view.recovery == None
    && start <= mc.view.want
    && (forall id | start <= id < mc.view.want :: id in arrived)
    && (forall id | id in arrived && mc.view.want <= id :: id in Ids(mc.view.heap))
    && Ids(mc.view.heap) <= arrived
  }

  lemma DropStaleIds(h: seq<ReceivedMessage>, want: int)
    ensures var r := DropStale(h, want);
            && Ids(r) <= Ids(h)
            && (forall id | id in Ids(h) && want <= id :: id in Ids(r))
            && (r != [] ==> Ids(r[1..]) <= Ids(r) && forall id | id in Ids(r) && id != r[0].Id() :: id in Ids(r[1..]))
  {
    var n := DropStaleIsSuffix(h, want);
    var r := h[n..];
    assert h == h[..n] + r;
    if r != [] {
      assert r == [r[0]] + r[1..];
    }
  }

  lemma EnterAccounts<D>(cfg: Config<D>, v: View, e: Entry, start: int, arrived: set<int>)
    requires Accounted(Machine(v, false), start, arrived)
    ensures var t := Enter(cfg, v, e); Accounted(Machine(t.view, t.outcome.None?), start, arrived)
  {
    EnterKeepsSound(cfg, v, e);
    DropStaleIds(v.heap, v.want);
    var h := DropStale(v.heap, v.want);
    if h != [] && h[0].Id() == v.want {
      assert h[0].Id() in Ids(h);
    }
  }

  lemma HearAccounts<D>(cfg: Config<D>, v: View, r: Round, m: ReceivedMessage, start: int, arrived: set<int>)
    requires Accounted(Machine(v, true), start, arrived)
    ensures var t := Hear(cfg, v.(connected := true), r, m);
            Accounted(Machine(t.view, t.outcome.None?), start, arrived + {m.Id() as int})
  {
    HearKeepsSound(cfg, v, r, m);
    InsertAdds(v.heap, m, r.slot);
  }

  lemma {:induction false} QuietRunAccounts<D>(cfg: Config<D>, mc: Machine, steps: seq<Step>, start: int, arrived: set<int>)
    requires Accounted(mc, start, arrived) && Quiet(cfg, mc, steps)
    ensures Accounted(Exec(cfg, mc, steps).final, start, arrived + Arrived(steps))
    decreases steps
  {
    if steps == [] {
      assert arrived + Arrived(steps) == arrived;
    } else {
      var s := steps[0];
      match s {
        case Call(e) => EnterAccounts(cfg, mc.view, e, start, arrived);
        case Wait(r) =>
          if r.udp.Packet? {
            HearAccounts(cfg, mc.view, r, ReceivedMessage(r.recvTs, Udp, r.udp.msg), start, arrived);
          }
      }
      if ArrivedAt(s) == {} {
        assert arrived + ArrivedAt(s) == arrived;
      }
      QuietRunAccounts(cfg, After(mc, s, Fire(cfg, mc, s)), steps[1..], start, arrived + ArrivedAt(s));
      assert arrived + ArrivedAt(s) + Arrived(steps[1..]) == arrived + Arrived(steps);
    }
  }

  /** Once every arrival is drained the sequencer wants the least id that never
      arrived, and every later id that did is buffered. */
  lemma DrainedWantsLeastMissing<D>(cfg: Config<D>, start: int, clock: int, steps: seq<Step>)
    requires Quiet(cfg, Machine(Fresh(start, clock), false), steps)
    requires Exec(cfg, Machine(Fresh(start, clock), false), steps).final.listening
    ensures var v := Exec(cfg, Machine(Fresh(start, clock), false), steps).final.view;
            && start <= v.want && v.want !in Arrived(steps)
            && (forall id | start <= id < v.want :: id in Arrived(steps))
            && Ids(v.heap) == (set id | id in Arrived(steps) && id > v.want)
  {
    var mc := Machine(Fresh(start, clock), false);
    QuietRunAccounts(cfg, mc, steps, start, {});
    assert {} + Arrived(steps) == Arrived(steps);
    var v := Exec(cfg, mc, steps).final.view;
    forall id | id in Ids(v.heap)
      ensures id > v.want
    {
      var m :| m in v.heap && m.Id() == id;
    }
  }

  /** The messages consumed by a run, as the log has them. */
  lemma DrainedConsumesLog<D>(cfg: Config<D>, start: int, clock: int, steps: seq<Step>, truth: map<int, RawMessage>)
    requires forall s | s in steps :: GivesLog(truth, s)
    ensures var tr := Exec(cfg, Machine(Fresh(start, clock), false), steps);
            && |tr.consumed| == tr.final.view.want - start
            && forall i | 0 <= i < |tr.consumed| :: tr.consumed[i].Id() == start + i && InLog(truth, tr.consumed[i].raw)
  {
    var mc := Machine(Fresh(start, clock), false);
    ExactlyOnceInOrder(cfg, mc, steps);
    ConsumesLog(cfg, mc, steps, truth);
  }

  /** Two drained runs over the same set of ids, whatever their orders and
      duplicates, deliver the same messages. */
  lemma SameIdsSameStream<D>(cfg: Config<D>, start: int, clock1: int, clock2: int, steps1: seq<Step>, steps2: seq<Step>,
                             truth: map<int, RawMessage>)
    requires forall s | s in steps1 :: GivesLog(truth, s)
    requires forall s | s in steps2 :: GivesLog(truth, s)
    requires Quiet(cfg, Machine(Fresh(start, clock1), false), steps1)
    requires Quiet(cfg, Machine(Fresh(start, clock2), false), steps2)
    requires Exec(cfg, Machine(Fresh(start, clock1), false), steps1).final.listening
    requires Exec(cfg, Machine(Fresh(start, clock2), false), steps2).final.listening
    requires Arrived(steps1) == Arrived(steps2)
    ensures var tr1 := Exec(cfg, Machine(Fresh(start, clock1), false), steps1);
            var tr2 := Exec(cfg, Machine(Fresh(start, clock2), false), steps2);
            && tr1.final.view.want == tr2.final.view.want
            && Ids(tr1.final.view.heap) == Ids(tr2.final.view.heap)
            && |tr1.consumed| == |tr2.consumed|
            && forall i | 0 <= i < |tr1.consumed| :: tr1.consumed[i].raw == tr2.consumed[i].raw
  {
    DrainedWantsLeastMissing(cfg, start, clock1, steps1);
    DrainedWantsLeastMissing(cfg, start, clock2, steps2);
    DrainedConsumesLog(cfg, start, clock1, steps1, truth);
    DrainedConsumesLog(cfg, start, clock2, steps2, truth);
  }

  // ---- Every arrival order can be drained

  function RawIds(msgs: seq<RawMessage>): set<int> {
    set m | m in msgs :: m.sequence as int
  }

  function Quietly(msg: RawMessage): Step {
    Wait(Round(0, 0, 0, Packet(msg), Refused, Unavailable))
  }

  /** The steps that feed the arrivals in order, calling again whenever a call returns. */
  ghost function Drain<D>(cfg: Config<D>, mc: Machine, msgs: seq<RawMessage>): seq<Step>
    requires mc.view.recovery == None
    decreases |msgs|, if mc.listening then 0 else 1 + |mc.view.heap|
  {
    if !mc.listening then
      var t := Enter(cfg, mc.view, Entry(0, 0));
      DropStaleShrinks(mc.view.heap, mc.view.want);
      [Call(Entry(0, 0))] + Drain(cfg, Machine(t.view, t.outcome.None?), msgs)
    else if msgs == [] then
      []
    else
      var t := Fire(cfg, mc, Quietly(msgs[0]));
      if t.view.recovery == None then [Quietly(msgs[0])] + Drain(cfg, Machine(t.view, t.outcome.None?), msgs[1..]) else []
  }

  lemma DropStaleShrinks(h: seq<ReceivedMessage>, want: int)
    ensures |DropStale(h, want)| <= |h|
  {
  }

  /** The steps are quiet, end listening and bring exactly these ids. */
  ghost predicate Drains<D>(cfg: Config<D>, mc: Machine, steps: seq<Step>, ids: set<int>) {
    Quiet(cfg, mc, steps) && Exec(cfg, mc, steps).final.listening && Arrived(steps) == ids
  }

  lemma DrainsOn<D>(cfg: Config<D>, mc: Machine, s: Step, rest: seq<Step>, ids: set<int>)
    requires FitsQuietly(mc, s) && Drains(cfg, After(mc, s, Fire(cfg, mc, s)), rest, ids)
    ensures Drains(cfg, mc, [s] + rest, ArrivedAt(s) + ids)
  {
    assert ([s] + rest)[1..] == rest;
  }

  lemma {:induction false} DrainIsQuiet<D>(cfg: Config<D>, mc: Machine, msgs: seq<RawMessage>)
    requires mc.view.recovery == None && 0 <= mc.view.deadline
    ensures Drains(cfg, mc, Drain(cfg, mc, msgs), RawIds(msgs))
    decreases |msgs|, if mc.listening then 0 else 1 + |mc.view.heap|
  {
    if !mc.listening {
      var call := Call(Entry(0, 0));
      var next := After(mc, call, Fire(cfg, mc, call));
      DropStaleShrinks(mc.view.heap, mc.view.want);
      DrainIsQuiet(cfg, next, msgs);
      DrainsOn(cfg, mc, call, Drain(cfg, next, msgs), RawIds(msgs));
      assert {} + RawIds(msgs) == RawIds(msgs);
    } else if msgs != [] {
      var hear := Quietly(msgs[0]);
      var next := After(mc, hear, Fire(cfg, mc, hear));
      DrainIsQuiet(cfg, next, msgs[1..]);
      DrainsOn(cfg, mc, hear, Drain(cfg, next, msgs[1..]), RawIds(msgs[1..]));
      assert msgs == [msgs[0]] + msgs[1..];
      assert ArrivedAt(hear) + RawIds(msgs[1..]) == RawIds(msgs);
    }
  }

  /** Any arrival order, with any duplicates, is drained by calling `Next`
      whenever it returns; the messages delivered are those up to the first id
      that did not arrive. */
  lemma AnyOrderDrains<D>(cfg: Config<D>, start: int, msgs: seq<RawMessage>)
    ensures var mc := Machine(Fresh(start, 0), false);
            var steps := Drain(cfg, mc, msgs);
            var tr := Exec(cfg, mc, steps);
            && Quiet(cfg, mc, steps) && tr.final.listening
            && |tr.consumed| == tr.final.view.want - start
            && (forall id | start <= id < tr.final.view.want :: id in RawIds(msgs))
            && tr.final.view.want !in RawIds(msgs)
  {
    var mc := Machine(Fresh(start, 0), false);
    var steps := Drain(cfg, mc, msgs);
    DrainIsQuiet(cfg, mc, msgs);
    DrainedWantsLeastMissing(cfg, start, 0, steps);
    ExactlyOnceInOrder(cfg, mc, steps);
  }
}
