/** The sequencer in the form the subscriber runs it: one object updated in
    place, its listening loop and its buffer, proved against `Sequencing`. */
module MessageSequencers {
  import opened Wrappers
  import opened Messages
  import opened MinMaxHeaps
  import opened Sequencing

  class MessageSequencer<D> {
    const cfg: Config<D>
    const heap: MinMaxHeap
    var recoveryStream: Option<seq<StreamItem>>
    var wantSequence: int
    var lastDeadline: int
    var connected: bool

    ghost predicate Valid()
      reads this, heap
    {
      heap.Valid()
    }

    /** The sequencer's state as a value. */
    ghost function Contents(): View
      reads this, heap
    {
      View(wantSequence, heap.heap, recoveryStream, connected, lastDeadline)
    }

    constructor (cfg: Config<D>, wantSequence: int, clock: int)
      ensures Valid() && fresh(heap)
      ensures this.cfg == cfg && Contents() == Fresh(wantSequence, clock)
      ensures this.wantSequence == wantSequence && heap.heap == [] && recoveryStream == None
      ensures !connected && lastDeadline == clock
    {
      this.cfg := cfg;
      heap := new MinMaxHeap();
      recoveryStream := None;
      this.wantSequence := wantSequence;
      lastDeadline := clock;
      connected := false;
    }

    /** Returns the next message, or nothing if it is still waiting when the
        rounds run out. */
    method Next(entry: Entry, rounds: seq<Round>) returns (outcome: Option<Outcome<D>>)
      requires Valid()
      modifies this, heap
      ensures Valid()
      ensures var t := Sequencing.Next(cfg, old(Contents()), entry, rounds);
              Contents() == t.view && outcome == t.outcome
    {
      outcome := EnterCall(entry);
      if outcome.Some? {
        return;
      }

      ghost var start := Contents();
      var i := 0;
      while i < |rounds|
        invariant 0 <= i <= |rounds|
        invariant Valid()
        invariant outcome == None
        invariant Loop(cfg, start, rounds) == Loop(cfg, Contents(), rounds[i..])
      {
        assert rounds[i..][1..] == rounds[i + 1..];
        var round := rounds[i];
        if round.clock > lastDeadline {
          outcome := DeadlinePassed(round);
          return;
        }
        match round.udp {
          case Packet(raw) =>
            var msg := ReceivedMessage(round.recvTs, Udp, raw);
            connected := true;
            if msg.Id() < wantSequence {
            } else if msg.Id() == wantSequence {
              wantSequence := wantSequence + 1;
              lastDeadline := round.clock + cfg.timeout;
              outcome := Some(Parse(cfg, msg));
              return;
            } else {
              heap.Push(msg, round.slot);
            }
          case Undecodable =>
            outcome := Some(Failed(UdpFailed));
            return;
          case Closed =>
            outcome := Some(Disconnected);
            return;
          case Elapsed =>
        }
        i := i + 1;
      }
    }

    /** The batch recovery stream first, then the heap; nothing if the call has to listen. */
    method EnterCall(entry: Entry) returns (outcome: Option<Outcome<D>>)
      requires Valid()
      modifies this, heap
      ensures Valid()
      ensures var t := Enter(cfg, old(Contents()), entry);
              Contents() == t.view && outcome == t.outcome
    {
      if recoveryStream.Some? && recoveryStream.value != [] {
        var item := recoveryStream.value[0];
        recoveryStream := Some(recoveryStream.value[1..]);
        if item.Broken? {
          return Some(Failed(StreamFailed));
        }
        outcome := Take(item.msg, Sync, entry.recvTs, entry.clock);
      } else {
        recoveryStream := None;
        outcome := EnterHeapPart(entry);
      }
    }

    method EnterHeapPart(entry: Entry) returns (outcome: Option<Outcome<D>>)
      requires Valid()
      modifies this, heap
      ensures Valid()
      ensures var t := EnterHeap(cfg, old(Contents()), entry);
              Contents() == t.view && outcome == t.outcome
    {
      var next := heap.Peek();
      while next.Some? && next.value.Id() < wantSequence
        invariant Valid()
        invariant next == heap.Peek()
        invariant unchanged(this)
        invariant DropStale(old(heap.heap), wantSequence) == DropStale(heap.heap, wantSequence)
        decreases |heap.heap|
      {
        var _ := heap.Pop();
        next := heap.Peek();
      }
      if next.Some? && next.value.Id() == wantSequence {
        var msg := heap.Pop();
        wantSequence := wantSequence + 1;
        lastDeadline := entry.clock + cfg.timeout;
        return Some(Parse(cfg, msg.value));
      }

      if !connected {
        lastDeadline := entry.clock + cfg.timeout;
      }
      outcome := None;
    }

    /** Asks for the missing messages, or reports that the socket has gone quiet. */
    method DeadlinePassed(round: Round) returns (outcome: Option<Outcome<D>>)
      requires Valid()
      requires round.clock > lastDeadline
      modifies this
      ensures Valid()
      ensures var t := Listen(cfg, old(Contents()), round);
              Contents() == t.view && outcome == t.outcome && outcome.Some?
    {
      var next := heap.Peek();
      if next.None? {
        connected := false;
        return Some(Disconnected);
      }
      var singleMissing := wantSequence + 1 == next.value.Id() && !heap.HasGaps();
      assert singleMissing == SingleMissing(Contents());
      if singleMissing {
        if round.single.Refused? {
          return Some(Failed(RpcFailed));
        }
        outcome := Take(round.single.msg, Missing, round.recvTs, round.clock);
      } else {
        outcome := Restream(round);
      }
    }

    method Restream(round: Round) returns (outcome: Option<Outcome<D>>)
      requires Valid()
      modifies this
      ensures Valid()
      ensures var t := RecoverBatch(cfg, old(Contents()), round);
              Contents() == t.view && outcome == t.outcome && outcome.Some?
    {
      if round.batch.Unavailable? {
        return Some(Failed(RpcFailed));
      }
      var stream := round.batch.items;
      if stream == [] {
        return Some(Failed(EmptyStream));
      }
      if stream[0].Broken? {
        return Some(Failed(StreamFailed));
      }
      var wanted := stream[0].msg.sequence == wantSequence;
      outcome := Take(stream[0].msg, Sync, round.recvTs, round.clock);
      if wanted {
        recoveryStream := Some(stream[1..]);
      }
    }

    /** Accepts a recovered message if it is the wanted one. */
    method Take(raw: RawMessage, origin: Origin, recvTs: int, clock: int) returns (outcome: Option<Outcome<D>>)
      requires Valid()
      modifies this
      ensures Valid()
      ensures var v := old(Contents());
              var t := if raw.sequence == v.want then Deliver(cfg, v, clock, ReceivedMessage(recvTs, origin, raw))
                       else Return(v, Failed(InvalidSequence));
              Contents() == t.view && outcome == t.outcome
    {
      var msg := ReceivedMessage(recvTs, origin, raw);
      if msg.Id() != wantSequence {
        return Some(Failed(InvalidSequence));
      }
      wantSequence := wantSequence + 1;
      lastDeadline := clock + cfg.timeout;
      outcome := Some(Parse(cfg, msg));
    }
  }
}
