/** The deadline clock: when the sequencer may ask for recovery or report a
    disconnection, and why a call does not listen for ever. */
module SequencerDeadlines {
  import opened Wrappers
  import opened Sequencing
  import opened SequencerSafety

  function Reading(s: Step): int {
    match s
    case Call(e) => e.clock
    case Wait(r) => r.clock
  }

  /** The clock never goes back, starting from `last`. */
  predicate Monotone(last: int, steps: seq<Step>)
    decreases steps
  {
    steps != [] ==> last <= Reading(steps[0]) && Monotone(Reading(steps[0]), steps[1..])
  }

  function LastReading(last: int, steps: seq<Step>): int {
    if steps == [] then last else Reading(steps[|steps| - 1])
  }

  /** The step finds the deadline passed: it asks for recovery, or reports a
      disconnection if nothing is buffered. */
  predicate ActsOnDeadline(mc: Machine, s: Step) {
    mc.listening && s.Wait? && s.round.clock > mc.view.deadline
  }

  /** Only consuming a message, or calling while unconnected, moves the deadline,
      and then to a full timeout after the reading the step started with. A
      stale or future packet leaves it alone. */
  lemma DeadlineMoves<D>(cfg: Config<D>, mc: Machine, s: Step)
    ensures var t := Fire(cfg, mc, s);
            && (t.consumed.Some? ==> t.view.deadline == Reading(s) + cfg.timeout)
            && (t.view.deadline == mc.view.deadline || t.view.deadline == Reading(s) + cfg.timeout)
            && (t.consumed.None? && (s.Wait? || mc.view.connected) ==> t.view.deadline == mc.view.deadline)
  {
  }

  /** Until its deadline passes, a step makes no use of either recovery service,
      and reports a disconnection only when the socket has closed. */
  lemma NoRecoveryWithoutDeadline<D>(cfg: Config<D>, mc: Machine, s: Step, single: SingleReply, batch: BatchReply)
    requires s.Wait? && !ActsOnDeadline(mc, s)
    ensures Fire(cfg, mc, s) == Fire(cfg, mc, Wait(s.round.(single := single, batch := batch)))
    ensures Fire(cfg, mc, s).outcome == Some(Disconnected) ==> s.round.udp == Closed
  {
  }

  /** With a clock that never goes back, neither does the deadline. */
  lemma {:induction false} DeadlineNeverDecreases<D>(cfg: Config<D>, mc: Machine, last: int, steps: seq<Step>)
    requires mc.view.deadline <= last + cfg.timeout
    requires Monotone(last, steps)
    ensures var v := Exec(cfg, mc, steps).final.view;
            && mc.view.deadline <= v.deadline <= LastReading(last, steps) + cfg.timeout
            && last <= LastReading(last, steps)
    decreases steps
  {
    if steps != [] {
      var t := Fire(cfg, mc, steps[0]);
      DeadlineMoves(cfg, mc, steps[0]);
      DeadlineNeverDecreases(cfg, After(mc, steps[0], t), Reading(steps[0]), steps[1..]);
      assert LastReading(last, steps) == LastReading(Reading(steps[0]), steps[1..]);
    }
  }

  /** After a step that sets the deadline, by consuming a message or by calling
      while unconnected, no recovery and no deadline-triggered disconnection
      happens until a full timeout after the reading the step began with. */
  lemma QuietForATimeout<D>(cfg: Config<D>, mc: Machine, s: Step, later: seq<Step>, act: Step)
    requires var t := Fire(cfg, mc, s); t.consumed.Some? || t.view.deadline != mc.view.deadline
    requires Monotone(Reading(s), later)
    requires ActsOnDeadline(Exec(cfg, After(mc, s, Fire(cfg, mc, s)), later).final, act)
    ensures Reading(act) > Reading(s) + cfg.timeout
  {
    DeadlineMoves(cfg, mc, s);
    DeadlineNeverDecreases(cfg, After(mc, s, Fire(cfg, mc, s)), Reading(s), later);
  }

  /** From a fresh sequencer on, the deadline is never set back. */
  lemma FreshDeadlineNeverDecreases<D>(cfg: Config<D>, start: int, clock: int, before: seq<Step>, later: seq<Step>)
    requires Monotone(clock, before) && Monotone(LastReading(clock, before), later)
    ensures var mc := Exec(cfg, Machine(Fresh(start, clock), false), before).final;
            clock <= mc.view.deadline <= Exec(cfg, mc, later).final.view.deadline
  {
    var mc := Exec(cfg, Machine(Fresh(start, clock), false), before).final;
    DeadlineNeverDecreases(cfg, Machine(Fresh(start, clock), false), clock, before);
    DeadlineNeverDecreases(cfg, mc, LastReading(clock, before), later);
  }

  lemma RecoveryNeverDisconnects<D>(cfg: Config<D>, v: View, r: Round)
    ensures RecoverOne(cfg, v, r).outcome != Some(Disconnected)
    ensures RecoverBatch(cfg, v, r).outcome != Some(Disconnected)
  {
  }

  lemma DisconnectsWithEmptyHeap<D>(cfg: Config<D>, v: View, r: Round)
    requires r.clock > v.deadline && Listen(cfg, v, r).outcome == Some(Disconnected)
    ensures v.heap == [] && Listen(cfg, v, r).view == v.(connected := false)
  {
    RecoveryNeverDisconnects(cfg, v, r);
  }

  /** A disconnection reported at the deadline leaves nothing pending, and the
      call after it listens for a full timeout again. */
  lemma DisconnectionStartsOver<D>(cfg: Config<D>, mc: Machine, act: Step, e: Entry)
    requires Sound(mc) && ActsOnDeadline(mc, act)
    requires Fire(cfg, mc, act).outcome == Some(Disconnected)
    ensures var quiet := After(mc, act, Fire(cfg, mc, act));
            var t := Fire(cfg, quiet, Call(e));
            && t.outcome == None && t.consumed == None
            && t.view.want == mc.view.want && t.view.heap == []
            && t.view.deadline == e.clock + cfg.timeout
  {
    DisconnectsWithEmptyHeap(cfg, mc.view, act.round);
  }

  /** The clock moves on from each iteration to the next. */
  predicate Advancing(rounds: seq<Round>) {
    forall i | 0 < i < |rounds| :: rounds[i - 1].clock < rounds[i].clock
  }

  /** With an advancing clock a listening call returns within as many iterations
      as there are clock ticks up to its deadline, and one more. */
  lemma {:induction false} ListeningEnds<D>(cfg: Config<D>, v: View, rounds: seq<Round>)
    requires rounds != [] && Advancing(rounds)
    requires |rounds| >= v.deadline - rounds[0].clock + 2
    ensures Loop(cfg, v, rounds).outcome.Some?
    decreases rounds
  {
    var t := Listen(cfg, v, rounds[0]);
    if t.outcome.None? {
      DeadlineMoves(cfg, Machine(v, true), Wait(rounds[0]));
      assert rounds[0].clock < rounds[1].clock;
      ListeningEnds(cfg, t.view, rounds[1..]);
    }
  }
}
