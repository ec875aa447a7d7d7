/** What every interleaving of the aggregator's two tasks keeps. */
module AggregationSafety {
  import opened Wrappers
  import opened Messages
  import opened Aggregation

  // ---- The meaning of a sequence of deltas

  /** Applies deltas in order, stopping at the first that fails. */
  function Fold<S, D>(app: StateSync<S, D>, s: S, ds: seq<D>): Applied<S> {
    if ds == [] then Applied(s, true)
    else
      var r := app.apply(s, ds[0]);
      if r.ok then Fold(app, r.state, ds[1..]) else r
  }

  lemma {:induction false} FoldConcat<S, D>(app: StateSync<S, D>, s: S, a: seq<D>, b: seq<D>)
    requires Fold(app, s, a).ok
    ensures Fold(app, s, a + b) == Fold(app, Fold(app, s, a).state, b)
    decreases a
  {
    if a == [] {
      assert a + b == b;
    } else {
      FoldConcat(app, app.apply(s, a[0]).state, a[1..], b);
      assert (a + b)[1..] == a[1..] + b;
    }
  }

  lemma FoldOne<S, D>(app: StateSync<S, D>, s: S, a: seq<D>, d: D)
    requires Fold(app, s, a).ok
    ensures Fold(app, s, a + [d]) == app.apply(Fold(app, s, a).state, d)
  {
    FoldConcat(app, s, a, [d]);
    assert [d][1..] == [];
  }

  // ---- Conservation

  function Held<D>(f: Forwarder<D>): seq<D> {
    match f
    case Pulling => []
    case Sending(d) => [d]
    case Stopped(lost) => lost
  }

  /** Every delta taken in: those applied, those queued and the one in hand. */
  function TakenIn<S, D>(a: Memory<S, D>): seq<D> {
    a.applied + a.queue + Held(a.forwarder)
  }

  /** The results the forwarding task takes: while it pulls, every one offered. */
  function Polled<S, D>(a: Memory<S, D>, act: Action<D>): seq<Sequencing.Outcome<D>> {
    if act.Receive? && a.forwarder.Pulling? then [act.result] else []
  }

  function Deltas<D>(results: seq<Sequencing.Outcome<D>>): seq<D> {
    if results == [] then []
    else Sequencing.Listed(GetDelta(results[0])) + Deltas(results[1..])
  }

  datatype Trace<+S, +D> = Trace(final: Memory<S, D>, polled: seq<Sequencing.Outcome<D>>)

  function Exec<S, D>(app: StateSync<S, D>, capacity: nat, a: Memory<S, D>, acts: seq<Action<D>>): Trace<S, D>
    decreases acts
  {
    if acts == [] then Trace(a, [])
    else
      var rest := Exec(app, capacity, Do(app, capacity, a, acts[0]), acts[1..]);
      Trace(rest.final, Polled(a, acts[0]) + rest.polled)
  }

  lemma DoConserves<S, D>(app: StateSync<S, D>, capacity: nat, a: Memory<S, D>, act: Action<D>)
    ensures TakenIn(Do(app, capacity, a, act)) == TakenIn(a) + Deltas(Polled(a, act))
  {
    match act
    case Receive(result) =>
      if a.forwarder.Pulling? {
        assert Deltas([result]) == Sequencing.Listed(GetDelta(result)) + Deltas([result][1..]);
      }
    case Offer =>
      ConcatAssociates(a.applied, a.queue, Held(a.forwarder));
    case Produce(listeners) =>
      ProduceConserves(app, a, listeners);
  }

  lemma ProduceConserves<S, D>(app: StateSync<S, D>, a: Memory<S, D>, listeners: bool)
    ensures TakenIn(DoProduce(app, a, listeners)) == TakenIn(a)
  {
    var b := DoProduce(app, a, listeners);
    if a.running && a.queue != [] {
      assert a.queue == [a.queue[0]] + b.queue;
      ConcatAssociates(a.applied, [a.queue[0]], b.queue);
    }
  }

  /** No delta is lost, duplicated or reordered: over every interleaving, those
      applied, queued and in hand are those of the results polled, in order. */
  lemma {:induction false} Conserves<S, D>(app: StateSync<S, D>, capacity: nat, a: Memory<S, D>, acts: seq<Action<D>>)
    ensures var tr := Exec(app, capacity, a, acts);
            TakenIn(tr.final) == TakenIn(a) + Deltas(tr.polled)
    decreases acts
  {
    if acts != [] {
      var b := Do(app, capacity, a, acts[0]);
      DoConserves(app, capacity, a, acts[0]);
      Conserves(app, capacity, b, acts[1..]);
      var rest := Exec(app, capacity, b, acts[1..]);
      DeltasConcat(Polled(a, acts[0]), rest.polled);
      ConcatAssociates(TakenIn(a), Deltas(Polled(a, acts[0])), Deltas(rest.polled));
    }
  }

  lemma {:induction false} DeltasConcat<D>(a: seq<Sequencing.Outcome<D>>, b: seq<Sequencing.Outcome<D>>)
    ensures Deltas(a + b) == Deltas(a) + Deltas(b)
    decreases a
  {
    if a == [] {
      assert a + b == b;
    } else {
      DeltasConcat(a[1..], b);
      assert (a + b)[1..] == a[1..] + b;
      ConcatAssociates(Sequencing.Listed(GetDelta(a[0])), Deltas(a[1..]), Deltas(b));
    }
  }

  /** Only the last result may be an error. */
  predicate ErrorOnlyLast<D>(results: seq<Sequencing.Outcome<D>>) {
    forall i | 0 <= i < |results| - 1 :: !results[i].Failed?
  }

  lemma ErrorOnlyLastCons<D>(head: seq<Sequencing.Outcome<D>>, rest: seq<Sequencing.Outcome<D>>)
    requires |head| <= 1 && ErrorOnlyLast(rest)
    requires head != [] && head[0].Failed? ==> rest == []
    ensures ErrorOnlyLast(head + rest)
  {
    if head == [] {
      assert head + rest == rest;
    } else {
      forall i | 0 <= i < |head + rest| - 1
        ensures !(head + rest)[i].Failed?
      {
        assert i > 0 ==> (head + rest)[i] == rest[i - 1];
      }
    }
  }

  /** Nothing is polled after the first error. */
  lemma {:induction false} ErrorIsLast<S, D>(app: StateSync<S, D>, capacity: nat, a: Memory<S, D>, acts: seq<Action<D>>)
    ensures var polled := Exec(app, capacity, a, acts).polled;
            (a.forwarder.Stopped? ==> polled == []) && ErrorOnlyLast(polled)
    decreases acts
  {
    if acts != [] {
      var b := Do(app, capacity, a, acts[0]);
      ErrorIsLast(app, capacity, b, acts[1..]);
      ErrorOnlyLastCons(Polled(a, acts[0]), Exec(app, capacity, b, acts[1..]).polled);
    }
  }

  // ---- State and notifications

  function LastNotice(notices: seq<nat>): nat {
    if notices == [] then 0 else notices[|notices| - 1]
  }

  predicate Increasing(notices: seq<nat>) {
    && (notices != [] ==> notices[0] > 0)
    && forall i | 0 < i < |notices| :: notices[i - 1] < notices[i]
  }

  /** The shared state is the fold of the applied deltas; each notification came
      after at least one more apply; a quiet loop has notified of everything. */
  predicate Consistent<S(==), D>(app: StateSync<S, D>, capacity: nat, a: Memory<S, D>) {
    && Fold(app, app.init, a.applied) == Applied(a.state, !a.failed)
    && (a.failed ==> !a.running)
    && |a.queue| <= capacity
    && Increasing(a.notices)
    && (a.running ==> if a.empty then LastNotice(a.notices) == |a.applied| else LastNotice(a.notices) < |a.applied|)
  }

  lemma DoKeepsConsistent<S, D>(app: StateSync<S, D>, capacity: nat, a: Memory<S, D>, act: Action<D>)
    requires Consistent(app, capacity, a)
    ensures Consistent(app, capacity, Do(app, capacity, a, act))
  {
    if act.Produce? && a.running && a.queue != [] {
      FoldOne(app, app.init, a.applied, a.queue[0]);
    }
  }

  /** Every interleaving keeps the aggregator consistent. */
  lemma {:induction false} EveryRunIsConsistent<S, D>(app: StateSync<S, D>, capacity: nat, a: Memory<S, D>, acts: seq<Action<D>>)
    requires Consistent(app, capacity, a)
    ensures Consistent(app, capacity, Exec(app, capacity, a, acts).final)
    decreases acts
  {
    if acts != [] {
      DoKeepsConsistent(app, capacity, a, acts[0]);
      EveryRunIsConsistent(app, capacity, Do(app, capacity, a, acts[0]), acts[1..]);
    }
  }

  /** From the start, over every interleaving: the state is the fold of a prefix
      of the deltas polled, everything else polled is still queued or in hand,
      and the counts applied at the notifications strictly increase from one. */
  lemma StateIsFoldOfPolled<S, D>(app: StateSync<S, D>, capacity: nat, acts: seq<Action<D>>)
    ensures var tr := Exec(app, capacity, Blank(app), acts);
            var a := tr.final;
            && a.applied + a.queue + Held(a.forwarder) == Deltas(tr.polled)
            && Fold(app, app.init, a.applied) == Applied(a.state, !a.failed)
            && Increasing(a.notices)
            && |a.queue| <= capacity
  {
    EveryRunIsConsistent(app, capacity, Blank(app), acts);
    Conserves(app, capacity, Blank(app), acts);
    var tr := Exec(app, capacity, Blank<S, D>(app), acts);
    assert TakenIn(Blank<S, D>(app)) == [];
    assert [] + Deltas(tr.polled) == Deltas(tr.polled);
  }

  /** A notification is sent only when the queue is found empty, and reports
      deltas applied since the one before. */
  lemma NotifiesWhenDrained<S, D>(app: StateSync<S, D>, capacity: nat, a: Memory<S, D>, act: Action<D>)
    requires Consistent(app, capacity, a)
    ensures var b := Do(app, capacity, a, act);
            b.notices != a.notices ==>
              a.queue == [] && b.notices == a.notices + [|a.applied|] && LastNotice(a.notices) < |a.applied|
  {
  }

  /** Both tasks wait, with nothing queued or in hand and everything notified. */
  predicate AtRest<S, D>(a: Memory<S, D>) {
    a.running && a.empty && a.queue == [] && a.forwarder.Pulling?
  }

  /** One turn of the loop on a queue that is not empty applies its first delta. */
  lemma ProduceApplies<S, D>(app: StateSync<S, D>, a: Memory<S, D>)
    requires a.running && a.queue != [] && Fold(app, a.state, a.queue).ok
    ensures var b := DoProduce(app, a, true);
            && b == a.(queue := a.queue[1..], empty := false, state := b.state, applied := a.applied + [a.queue[0]])
            && Fold(app, b.state, b.queue) == Fold(app, a.state, a.queue)
            && b.applied + b.queue == a.applied + a.queue
  {
    assert a.applied + [a.queue[0]] + a.queue[1..] == a.applied + a.queue;
  }

  /** Left to itself, the loop applies the whole queue and then notifies once. */
  lemma {:induction false} DrainAppliesAll<S, D>(app: StateSync<S, D>, a: Memory<S, D>)
    requires a.running && !a.forwarder.Stopped?
    requires Fold(app, a.state, a.queue).ok
    ensures var b := Drain(app, a, true);
            && b.queue == [] && b.running && b.empty && b.forwarder == a.forwarder
            && b.applied == a.applied + a.queue
            && b.state == Fold(app, a.state, a.queue).state
            && b.notices == if a.queue == [] && a.empty then a.notices else a.notices + [|a.applied| + |a.queue|]
    decreases |a.queue|, !a.empty
  {
    if a.queue != [] {
      ProduceApplies(app, a);
      DrainAppliesAll(app, DoProduce(app, a, true));
    } else if !a.empty {
      assert a.applied + a.queue == a.applied;
      DrainAppliesAll(app, DoProduce(app, a, true));
    }
  }
}
