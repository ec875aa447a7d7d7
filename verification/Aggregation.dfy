/** The aggregator: one task forwards deltas into a bounded queue, another
    drains the queue into the shared state and notifies the listeners whenever
    it finds the queue empty. */
module Aggregation {
  import opened Wrappers
  import opened Messages
  import opened Sequencing

  /** The task between the sequencer and the queue. */
  datatype Forwarder<+D> =
    | Pulling                  // waiting for the sequencer
    | Sending(delta: D)        // waiting for room in the queue
    | Stopped(lost: seq<D>)    // ended, with the delta it could not send

  datatype Memory<+S, +D> = Memory(forwarder: Forwarder<D>,
                               queue: seq<D>,
                               empty: bool,
                               running: bool,
                               state: S,
                               applied: seq<D>,
                               failed: bool,
                               notices: seq<nat>)

  datatype Action<+D> = Receive(result: Outcome<D>) | Offer | Produce(listeners: bool)

  function Blank<S, D>(app: StateSync<S, D>): Memory<S, D> {
    Memory(Pulling, [], true, true, app.init, [], false, [])
  }

  function GetDelta<D>(result: Outcome<D>): Option<D> {
    match result
    case Message(_, _, _, Delta(delta)) => Some(delta)
    case _ => None
  }

  /** One result of the sequencer; an error ends the forwarding task. */
  function DoReceive<S, D>(a: Memory<S, D>, result: Outcome<D>): Memory<S, D> {
    if !a.forwarder.Pulling? then a
    else match result
      case Failed(_) => a.(forwarder := Stopped([]))
      case _ =>
        match GetDelta(result)
        case Some(delta) => a.(forwarder := Sending(delta))
        case None => a
  }

  /** Puts the held delta into the queue once there is room. */
  function DoOffer<S, D>(capacity: nat, a: Memory<S, D>): Memory<S, D> {
    if !a.forwarder.Sending? then a
    else if !a.running then a.(forwarder := Stopped([a.forwarder.delta]))
    else if |a.queue| < capacity then a.(forwarder := Pulling, queue := a.queue + [a.forwarder.delta])
    else a
  }

  /** One turn of the draining loop: apply the next delta, or notify when the
      queue is found empty, or wait. */
  function DoProduce<S, D>(app: StateSync<S, D>, a: Memory<S, D>, listeners: bool): Memory<S, D> {
    if !a.running then a
    else if a.queue != [] then
      var r := app.apply(a.state, a.queue[0]);
      a.(queue := a.queue[1..], empty := false, state := r.state, applied := a.applied + [a.queue[0]],
         running := r.ok, failed := a.failed || !r.ok)
    else if a.forwarder.Stopped? then a.(running := false)
    else if a.empty then a
    else if listeners then a.(empty := true, notices := a.notices + [|a.applied|])
    else a.(running := false)
  }

  function Do<S, D>(app: StateSync<S, D>, capacity: nat, a: Memory<S, D>, act: Action<D>): Memory<S, D> {
    match act
    case Receive(result) => DoReceive(a, result)
    case Offer => DoOffer(capacity, a)
    case Produce(listeners) => DoProduce(app, a, listeners)
  }

  /** The draining task has ended, or waits for the next delta. */
  predicate Waiting<S, D>(a: Memory<S, D>) {
    !a.running || (a.queue == [] && a.empty && !a.forwarder.Stopped?)
  }

  /** The draining loop left to itself until it waits or ends. */
  function Drain<S, D>(app: StateSync<S, D>, a: Memory<S, D>, listeners: bool): Memory<S, D>
    decreases |a.queue|, (if a.running then 1 else 0) + (if a.empty then 0 else 1)
  {
    if Waiting(a) then a else Drain(app, DoProduce(app, a, listeners), listeners)
  }

  /** The aggregator's memory, updated in place by its two tasks. */
  class Aggregator<S, D> {
    const app: StateSync<S, D>
    const capacity: nat
    var forwarder: Forwarder<D>
    var queue: seq<D>
    var empty: bool
    var running: bool
    var state: S
    ghost var applied: seq<D>
    ghost var failed: bool
    ghost var notices: seq<nat>

    ghost function Contents(): Memory<S, D>
      reads this
    {
      Memory(forwarder, queue, empty, running, state, applied, failed, notices)
    }

    /** A channel without room is refused. */
    constructor (app: StateSync<S, D>, sequencerBufSize: Option<nat>)
      requires sequencerBufSize != Some(0)
      ensures this.app == app
      ensures capacity == if sequencerBufSize.Some? then sequencerBufSize.value else 10_000
      ensures Contents() == Blank(app)
      ensures forwarder.Pulling? && queue == [] && empty && running && state == app.init
    {
      this.app := app;
      capacity := if sequencerBufSize.Some? then sequencerBufSize.value else 10_000;
      forwarder, queue, empty, running, state := Pulling, [], true, true, app.init;
      applied, failed, notices := [], false, [];
    }

    /** The forwarding task takes one result of the sequencer. */
    method Receive(result: Outcome<D>)
      modifies this
      ensures Contents() == DoReceive(old(Contents()), result)
    {
      if forwarder.Pulling? {
        if result.Failed? {
          forwarder := Stopped([]);
        } else {
          var delta := GetDelta(result);
          if delta.Some? {
            forwarder := Sending(delta.value);
          }
        }
      }
    }

    /** The forwarding task tries to finish its send. */
    method Offer()
      modifies this
      ensures Contents() == DoOffer(capacity, old(Contents()))
    {
      if forwarder.Sending? {
        var delta := forwarder.delta;
        if !running {
          forwarder := Stopped([delta]);
        } else if |queue| < capacity {
          queue := queue + [delta];
          forwarder := Pulling;
        }
      }
    }

    /** One turn of the draining loop; `progress` tells whether it did anything. */
    method Produce(listeners: bool) returns (progress: bool)
      modifies this
      ensures Contents() == DoProduce(app, old(Contents()), listeners)
      ensures progress == !old(Waiting(Contents()))
    {
      if !running || (queue == [] && empty && !forwarder.Stopped?) {
        return false;
      }
      progress := true;
      if queue != [] {
        empty := false;
        var delta := queue[0];
        queue := queue[1..];
        var r := app.apply(state, delta);
        state := r.state;
        applied := applied + [delta];
        if !r.ok {
          running, failed := false, true;
        }
      } else if forwarder.Stopped? {
        running := false;
      } else if listeners {
        empty := true;
        notices := notices + [|applied|];
      } else {
        running := false;
      }
    }

    /** The draining loop until it waits or ends. */
    method Run(listeners: bool)
      modifies this
      ensures Contents() == Drain(app, old(Contents()), listeners)
      ensures Waiting(Contents())
    {
      var progress := true;
      while progress
        invariant Drain(app, old(Contents()), listeners) == Drain(app, Contents(), listeners)
        invariant !progress ==> Waiting(Contents())
        decreases |queue|, (if running then 1 else 0) + (if empty then 0 else 1), progress
      {
        progress := Produce(listeners);
      }
    }
  }
}
