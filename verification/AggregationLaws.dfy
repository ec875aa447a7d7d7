/** What each turn of the aggregator's two tasks does, said from outside, and when
    the forwarding task ends. */
module AggregationLaws {
  import opened Messages
  import opened Aggregation
  import opened AggregationSafety

  // ---- The forwarding task

  /** Only an error ends the forwarding task, and only a delta keeps it from the
      next result: a disconnection, a heartbeat or a start is passed over. */
  lemma ReceiveIff<S, D(!new)>(a: Memory<S, D>, result: Sequencing.Outcome<D>)
    requires a.forwarder.Pulling?
    ensures var b := DoReceive(a, result);
            && b == a.(forwarder := b.forwarder)
            && (b.forwarder.Stopped? <==> result.Failed?)
            && (b.forwarder.Stopped? ==> b.forwarder.lost == [])
            && (forall d :: b.forwarder == Sending(d) <==> result.Message? && result.msg == Sequencing.StreamMessage.Delta(d))
            && (b.forwarder.Pulling? <==> result.Disconnected? || (result.Message? && !result.msg.Delta?))
  {
  }

  /** A send is over exactly when there is room, and then the delta is the last of
      the queue, or when the loop has ended, and then it is lost. */
  lemma OfferIff<S, D>(capacity: nat, a: Memory<S, D>)
    requires a.forwarder.Sending?
    ensures var b := DoOffer(capacity, a);
            && (b.forwarder.Pulling? <==> a.running && |a.queue| < capacity)
            && (b.forwarder.Stopped? <==> !a.running)
            && (b.forwarder.Stopped? ==> b.forwarder.lost == [a.forwarder.delta])
            && b == a.(forwarder := b.forwarder, queue := b.queue)
            && b.queue == if b.forwarder.Pulling? then a.queue + [a.forwarder.delta] else a.queue
  {
  }

  /** A turn of one task that does not fit changes nothing. */
  lemma IdleTurns<S, D>(capacity: nat, a: Memory<S, D>, result: Sequencing.Outcome<D>)
    ensures !a.forwarder.Pulling? ==> DoReceive(a, result) == a
    ensures !a.forwarder.Sending? ==> DoOffer(capacity, a) == a
  {
  }

  // ---- The draining loop

  /** The loop ends exactly when a delta does not apply, when the queue is empty
      and nothing more can come, or when there is something to notify and nobody
      listens. */
  lemma ProduceEndsIff<S, D>(app: StateSync<S, D>, a: Memory<S, D>, listeners: bool)
    requires a.running
    ensures !DoProduce(app, a, listeners).running
            <==> || (a.queue != [] && !app.apply(a.state, a.queue[0]).ok)
                 || (a.queue == [] && a.forwarder.Stopped?)
                 || (a.queue == [] && !a.empty && !listeners)
  {
  }

  /** A queued delta is applied; an empty queue is notified exactly if something
      was applied since, more may come and somebody listens. */
  lemma ProduceDoes<S, D>(app: StateSync<S, D>, a: Memory<S, D>, listeners: bool)
    requires a.running
    ensures var b := DoProduce(app, a, listeners);
            var applies := a.queue != [];
            var notifies := a.queue == [] && !a.forwarder.Stopped? && !a.empty && listeners;
            && b.forwarder == a.forwarder
            && b.queue == (if applies then a.queue[1..] else [])
            && b.state == (if applies then app.apply(a.state, a.queue[0]).state else a.state)
            && b.applied == (if applies then a.applied + [a.queue[0]] else a.applied)
            && b.failed == (a.failed || (applies && !app.apply(a.state, a.queue[0]).ok))
            && b.notices == (if notifies then a.notices + [|a.applied|] else a.notices)
            && b.empty == ((a.empty && !applies) || notifies)
  {
  }

  /** The loop waits exactly when a turn would change nothing. */
  lemma WaitsIff<S, D>(app: StateSync<S, D>, a: Memory<S, D>, listeners: bool)
    ensures Waiting(a) <==> DoProduce(app, a, listeners) == a
  {
  }

  /** An ended loop does nothing more. */
  lemma EndedStays<S, D>(app: StateSync<S, D>, a: Memory<S, D>, listeners: bool)
    requires !a.running
    ensures DoProduce(app, a, listeners) == a
  {
  }

  function Turns<D>(n: nat, listeners: bool): seq<Action<D>> {
    seq(n, i => Produce(listeners))
  }

  /** The loop left to itself takes turns until it waits or has ended. */
  lemma {:induction false} DrainIsTurns<S, D>(app: StateSync<S, D>, capacity: nat, a: Memory<S, D>, listeners: bool) returns (n: nat)
    ensures Drain(app, a, listeners) == Exec(app, capacity, a, Turns(n, listeners)).final
    ensures Waiting(Drain(app, a, listeners))
    decreases |a.queue|, (if a.running then 1 else 0) + (if a.empty then 0 else 1)
  {
    n := 0;
    if !Waiting(a) {
      var m := DrainIsTurns(app, capacity, DoProduce(app, a, listeners), listeners);
      n := m + 1;
      assert Turns<D>(n, listeners)[1..] == Turns(m, listeners);
    }
  }

  // ---- When forwarding ends

  /** At some point of the run a send found that the loop had ended. */
  predicate SendFails<S, D>(app: StateSync<S, D>, capacity: nat, a: Memory<S, D>, acts: seq<Action<D>>)
    decreases acts
  {
    && acts != []
    && ((acts[0].Offer? && a.forwarder.Sending? && !a.running) || SendFails(app, capacity, Do(app, capacity, a, acts[0]), acts[1..]))
  }

  predicate LastFailed<D>(results: seq<Sequencing.Outcome<D>>) {
    results != [] && results[|results| - 1].Failed?
  }

  lemma {:induction false} StoppedStays<S, D>(app: StateSync<S, D>, capacity: nat, a: Memory<S, D>, acts: seq<Action<D>>)
    requires a.forwarder.Stopped?
    ensures var tr := Exec(app, capacity, a, acts); tr.final.forwarder == a.forwarder && tr.polled == []
    decreases acts
  {
    if acts != [] {
      StoppedStays(app, capacity, Do(app, capacity, a, acts[0]), acts[1..]);
    }
  }

  /** Over every run the forwarding task has ended if and only if the last result
      it took was an error or a send of its found the loop ended. */
  lemma {:induction false} ForwardingEndsIff<S, D>(app: StateSync<S, D>, capacity: nat, a: Memory<S, D>, acts: seq<Action<D>>)
    requires !a.forwarder.Stopped?
    ensures var tr := Exec(app, capacity, a, acts);
            tr.final.forwarder.Stopped? <==> LastFailed(tr.polled) || SendFails(app, capacity, a, acts)
    decreases acts
  {
    if acts != [] {
      var b := Do(app, capacity, a, acts[0]);
      if b.forwarder.Stopped? {
        StoppedStays(app, capacity, b, acts[1..]);
        StoppedSendsNothing(app, capacity, b, acts[1..]);
      } else {
        ForwardingEndsIff(app, capacity, b, acts[1..]);
      }
    }
  }

  lemma {:induction false} StoppedSendsNothing<S, D>(app: StateSync<S, D>, capacity: nat, a: Memory<S, D>, acts: seq<Action<D>>)
    requires a.forwarder.Stopped?
    ensures !SendFails(app, capacity, a, acts)
    decreases acts
  {
    if acts != [] {
      StoppedSendsNothing(app, capacity, Do(app, capacity, a, acts[0]), acts[1..]);
    }
  }

  /** The same from the start. */
  lemma BlankEndsIff<S, D>(app: StateSync<S, D>, capacity: nat, acts: seq<Action<D>>)
    ensures var tr := Exec(app, capacity, Blank(app), acts);
            tr.final.forwarder.Stopped? <==> LastFailed(tr.polled) || SendFails(app, capacity, Blank(app), acts)
  {
    ForwardingEndsIff(app, capacity, Blank(app), acts);
  }
}
