/** What one step of the sequencer does, said from outside: which message it
    hands out and how that reads, when each error and a disconnection is
    reported, and what becomes of each part of the state. */
module SequencerLaws {
  import opened Wrappers
  import opened Messages
  import opened MinMaxHeaps
  import opened Sequencing
  import opened SequencerSafety

  // ---- The situations

  predicate Enters(mc: Machine, s: Step) {
    !mc.listening && s.Call?
  }

  /** A recovery stream is open and has not ended. */
  predicate StreamOpen(v: View) {
    v.recovery.Some? && v.recovery.value != []
  }

  /** The iteration waits for the socket. */
  predicate Hears(mc: Machine, s: Step) {
    mc.listening && s.Wait? && s.round.clock <= mc.view.deadline
  }

  /** The iteration finds its deadline passed. */
  predicate FindsDeadlinePassed(mc: Machine, s: Step) {
    mc.listening && s.Wait? && s.round.clock > mc.view.deadline
  }

  /** It then asks for the one missing message, or for the rest of the log. */
  predicate AsksForOne(mc: Machine, s: Step) {
    FindsDeadlinePassed(mc, s) && mc.view.heap != [] && SingleMissing(mc.view)
  }

  predicate AsksForStream(mc: Machine, s: Step) {
    FindsDeadlinePassed(mc, s) && mc.view.heap != [] && !SingleMissing(mc.view)
  }

  /** The answer to the request for a stream begins with this item. */
  predicate StreamBegins(mc: Machine, s: Step, item: StreamItem) {
    AsksForStream(mc, s) && s.round.batch.Opened? && s.round.batch.items != [] && s.round.batch.items[0] == item
  }

  // ---- How a message reads

  /** Only a message without a payload, or a delta that cannot be decoded, reads
      as an error; every other keeps its time stamps, its origin and its kind. */
  ghost predicate ReadsAs<D(!new)>(decode: Bytes -> Option<D>, m: ReceivedMessage, o: Outcome<D>) {
    && (o == Failed(MissingPayload) <==> m.raw.payload == None)
    && (o == Failed(BadDelta) <==> exists body :: m.raw.payload == Some(Payload.Delta(body)) && decode(body) == None)
    && (o.Message? || o == Failed(MissingPayload) || o == Failed(BadDelta))
    && (o.Message? ==>
          && o.sendTs == m.raw.timestamp && o.recvTs == m.recvTs && o.origin == m.origin
          && (o.msg == StreamMessage.Heartbeat <==> m.raw.payload == Some(Payload.Heartbeat))
          && (o.msg == StreamMessage.Started <==> m.raw.payload == Some(Payload.Started))
          && forall d :: o.msg == StreamMessage.Delta(d)
                         <==> exists body :: m.raw.payload == Some(Payload.Delta(body)) && decode(body) == Some(d))
  }

  lemma ParseReads<D(!new)>(cfg: Config<D>, m: ReceivedMessage)
    ensures ReadsAs(cfg.decode, m, Parse(cfg, m))
  {
  }

  /** Every consumed message is returned, as it reads. */
  lemma ConsumedReads<D(!new)>(cfg: Config<D>, mc: Machine, s: Step)
    ensures var t := Fire(cfg, mc, s);
            t.consumed.Some? ==> t.outcome.Some? && ReadsAs(cfg.decode, t.consumed.value, t.outcome.value)
  {
    FireConsumes(cfg, mc, s);
    if Fire(cfg, mc, s).consumed.Some? {
      ParseReads(cfg, Fire(cfg, mc, s).consumed.value);
    }
  }

  // ---- Which message is handed out

  /** The five delivery points. A buffered message is handed out before the others
      with its id that were to pop later. */
  ghost predicate Delivers(mc: Machine, s: Step, m: ReceivedMessage) {
    var v := mc.view;
    && m.Id() == v.want
    && ( || (Enters(mc, s) && StreamOpen(v) && v.recovery.value[0] == Item(m.raw) && m == ReceivedMessage(s.entry.recvTs, Sync, m.raw))
         || (Enters(mc, s) && !StreamOpen(v) && FirstWanted(v, m))
         || (Hears(mc, s) && s.round.udp == Packet(m.raw) && m == ReceivedMessage(s.round.recvTs, Udp, m.raw))
         || (AsksForOne(mc, s) && s.round.single == Got(m.raw) && m == ReceivedMessage(s.round.recvTs, Missing, m.raw))
         || (StreamBegins(mc, s, Item(m.raw)) && m == ReceivedMessage(s.round.recvTs, Sync, m.raw)))
  }

  ghost predicate FirstWanted(v: View, m: ReceivedMessage) {
    exists k :: 0 <= k < |v.heap| && v.heap[k] == m && m.Id() == v.want && forall j | 0 <= j < k :: v.heap[j].Id() < v.want
  }

  lemma HeapDelivers<D>(cfg: Config<D>, v: View, e: Entry, m: ReceivedMessage)
    ensures EnterHeap(cfg, v, e).consumed == Some(m) <==> FirstWanted(v, m)
  {
    var n := DropStaleIsSuffix(v.heap, v.want);
    if n < |v.heap| && v.heap[n].Id() == v.want {
      assert EnterHeap(cfg, v, e).consumed == Some(v.heap[n]);
      assert FirstWanted(v, v.heap[n]);
    }
    if FirstWanted(v, m) {
      var k :| 0 <= k < |v.heap| && v.heap[k] == m && m.Id() == v.want && forall j | 0 <= j < k :: v.heap[j].Id() < v.want;
      assert k == n;
    }
  }

  /** A step hands out a message exactly at one of the five delivery points. */
  lemma ConsumesIff<D>(cfg: Config<D>, mc: Machine, s: Step, m: ReceivedMessage)
    ensures Fire(cfg, mc, s).consumed == Some(m) <==> Delivers(mc, s, m)
  {
    match s
    case Call(e) => HeapDelivers(cfg, mc.view.(recovery := None), e, m);
    case Wait(r) => WaitConsumesIff(cfg, mc, r, m);
  }

  lemma WaitConsumesIff<D>(cfg: Config<D>, mc: Machine, r: Round, m: ReceivedMessage)
    ensures Fire(cfg, mc, Wait(r)).consumed == Some(m) <==> Delivers(mc, Wait(r), m)
  {
  }

  // ---- Disconnections and errors

  /** A disconnection is reported exactly when the deadline has passed with
      nothing buffered, or the socket has closed before it. */
  lemma DisconnectsIff<D>(cfg: Config<D>, mc: Machine, s: Step)
    ensures Fire(cfg, mc, s).outcome == Some(Disconnected)
            <==> (FindsDeadlinePassed(mc, s) && mc.view.heap == []) || (Hears(mc, s) && s.round.udp == Closed)
  {
  }

  /** When each error is returned that is not the message's own. */
  lemma FailsIff<D>(cfg: Config<D>, mc: Machine, s: Step)
    ensures var v, o := mc.view, Fire(cfg, mc, s).outcome;
            && (o == Some(Failed(UdpFailed)) <==> Hears(mc, s) && s.round.udp == Undecodable)
            && (o == Some(Failed(RpcFailed)) <==>
                  (AsksForOne(mc, s) && s.round.single == Refused) || (AsksForStream(mc, s) && s.round.batch == Unavailable))
            && (o == Some(Failed(EmptyStream)) <==> AsksForStream(mc, s) && s.round.batch == Opened([]))
            && (o == Some(Failed(StreamFailed)) <==>
                  (Enters(mc, s) && StreamOpen(v) && v.recovery.value[0] == Broken) || StreamBegins(mc, s, Broken))
  {
  }

  /** A message with another id than the wanted one is refused wherever it was asked for. */
  lemma RefusesIff<D>(cfg: Config<D>, mc: Machine, s: Step)
    ensures Fire(cfg, mc, s).outcome == Some(Failed(InvalidSequence))
            <==> exists raw: RawMessage ::
                   && raw.sequence != mc.view.want
                   && ( || (Enters(mc, s) && StreamOpen(mc.view) && mc.view.recovery.value[0] == Item(raw))
                        || (AsksForOne(mc, s) && s.round.single == Got(raw))
                        || StreamBegins(mc, s, Item(raw)))
  {
  }

  /** A step goes on listening exactly when a call finds nothing to hand out, or
      the socket yields nothing or a packet that is not the wanted one. */
  lemma GoesOnIff<D>(cfg: Config<D>, mc: Machine, s: Step)
    requires s.Call? != mc.listening
    ensures Fire(cfg, mc, s).outcome == None
            <==> || (Enters(mc, s) && !StreamOpen(mc.view) && Fire(cfg, mc, s).consumed == None)
                 || (Hears(mc, s) && (s.round.udp == Elapsed || (s.round.udp.Packet? && s.round.udp.msg.sequence != mc.view.want)))
  {
  }

  // ---- What becomes of the state

  /** The connection is up from the first packet until a deadline passes with
      nothing buffered. */
  lemma ConnectedAfter<D>(cfg: Config<D>, mc: Machine, s: Step)
    ensures Fire(cfg, mc, s).view.connected
            <==> || (Hears(mc, s) && s.round.udp.Packet?)
                 || (mc.view.connected && !(FindsDeadlinePassed(mc, s) && mc.view.heap == []))
  {
  }

  /** The deadline moves to a full timeout after the step's reading exactly when a
      message is handed out or an unconnected call begins to listen. */
  lemma DeadlineAfter<D>(cfg: Config<D>, mc: Machine, s: Step)
    ensures var t := Fire(cfg, mc, s);
            var reading := if s.Call? then s.entry.clock else s.round.clock;
            t.view.deadline
            == if t.consumed.Some? || (Enters(mc, s) && !StreamOpen(mc.view) && !mc.view.connected) then reading + cfg.timeout
               else mc.view.deadline
  {
  }

  /** An open stream loses the item a call looked at, an ended one is closed, and
      only a request whose first item is handed out opens one. */
  lemma RecoveryAfter<D>(cfg: Config<D>, mc: Machine, s: Step)
    ensures var t := Fire(cfg, mc, s);
            t.view.recovery
            == if Enters(mc, s) then (if StreamOpen(mc.view) then Some(mc.view.recovery.value[1..]) else None)
               else if AsksForStream(mc, s) && t.consumed.Some? then Some(s.round.batch.items[1..])
               else mc.view.recovery
  {
  }

  /** A call that consults the buffer drops exactly the used-up ids, and the
      message it hands out. */
  lemma CallDrops<D>(cfg: Config<D>, mc: Machine, e: Entry) returns (n: nat)
    requires !mc.listening && !StreamOpen(mc.view)
    ensures var v, t := mc.view, Fire(cfg, mc, Call(e));
            && n <= |v.heap| && t.view.heap == v.heap[n..]
            && match t.consumed
               case Some(m) => n > 0 && v.heap[n - 1] == m && forall i | 0 <= i < n - 1 :: v.heap[i].Id() < v.want
               case None => (forall i | 0 <= i < n :: v.heap[i].Id() < v.want) && (n < |v.heap| ==> v.heap[n].Id() > v.want)
  {
    n := DropStaleIsSuffix(mc.view.heap, mc.view.want);
    if n < |mc.view.heap| && mc.view.heap[n].Id() == mc.view.want {
      n := n + 1;
    }
  }

  /** The socket yields a packet with an id beyond the wanted one. */
  predicate HearsLater(mc: Machine, s: Step) {
    Hears(mc, s) && s.round.udp.Packet? && s.round.udp.msg.sequence > mc.view.want
  }

  /** Such a packet is buffered, whatever is buffered already. */
  lemma LaterIsBuffered<D>(cfg: Config<D>, mc: Machine, s: Step)
    requires HearsLater(mc, s)
    ensures multiset(Fire(cfg, mc, s).view.heap)
            == multiset(mc.view.heap) + multiset{ReceivedMessage(s.round.recvTs, Udp, s.round.udp.msg)}
  {
    var m := ReceivedMessage(s.round.recvTs, Udp, s.round.udp.msg);
    InsertKeepsAll(mc.view.heap, m, s.round.slot);
    assert Fire(cfg, mc, s).view.heap == Insert(mc.view.heap, m, s.round.slot);
  }

  /** Every other step that does not consult the buffer leaves it alone. */
  lemma BufferKept<D>(cfg: Config<D>, mc: Machine, s: Step)
    requires !(Enters(mc, s) && !StreamOpen(mc.view)) && !HearsLater(mc, s)
    ensures Fire(cfg, mc, s).view.heap == mc.view.heap
  {
  }
}
