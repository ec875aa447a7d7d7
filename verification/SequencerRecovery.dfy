/** Recovery: the single-message request, the batch stream, and convergence. */
module SequencerRecovery {
  import opened Wrappers
  import opened Messages
  import opened MinMaxHeaps
  import opened Sequencing
  import opened SequencerSafety
  import opened SequencerDeadlines
  import opened SequencerReordering

  function Calls(entries: seq<Entry>): seq<Step> {
    seq(|entries|, i requires 0 <= i < |entries| => Call(entries[i]))
  }

  function Items(msgs: seq<RawMessage>): seq<StreamItem> {
    seq(|msgs|, i requires 0 <= i < |msgs| => Item(msgs[i]))
  }

  predicate Consecutive(msgs: seq<RawMessage>, from: int) {
    forall i | 0 <= i < |msgs| :: msgs[i].sequence == from + i
  }

  // ---- One missing message

  /** The request for a single message is made exactly when the wanted id is the
      only one absent up to the largest buffered id. */
  lemma SingleMissingExact(v: View)
    requires Sound(Machine(v, true)) && v.heap != []
    ensures SingleMissing(v)
            <==> forall id | v.want <= id <= v.heap[|v.heap| - 1].Id() :: id !in Ids(v.heap) <==> id == v.want
  {
    assert v.heap[0] in v.heap && v.heap[|v.heap| - 1] in v.heap;
    assert v.want !in Ids(v.heap);
    if v.want + 1 in Ids(v.heap) {
      var m :| m in v.heap && m.Id() == v.want + 1;
    }
  }

  /** Once the stale messages are dropped a buffered wanted id is at the front. */
  lemma WantedIsFirst(h: seq<ReceivedMessage>, want: int)
    requires Sorted(h) && want in Ids(h)
    ensures var r := DropStale(h, want);
            && r != [] && r[0].Id() == want && r[0] in h
            && Sorted(r[1..])
            && (forall id | id in Ids(h) && want < id :: id in Ids(r[1..]))
            && (forall m | m in r[1..] :: m in h && want <= m.Id())
  {
    DropStaleIds(h, want);
    var n := DropStaleIsSuffix(h, want);
    var m :| m in DropStale(h, want) && m.Id() == want;
    assert DropStale(h, want)[1..] == h[n + 1..];
  }

  lemma HeapServesOne<D>(cfg: Config<D>, v: View, e: Entry)
    requires v.recovery == None || v.recovery == Some([])
    requires Sorted(v.heap) && v.want in Ids(v.heap)
    ensures var t := Enter(cfg, v, e);
            && t.consumed.Some? && t.consumed.value in v.heap && t.outcome.Some?
            && t.view.recovery == None && Sorted(t.view.heap)
            && (forall id | id in Ids(v.heap) && v.want < id :: id in Ids(t.view.heap))
            && (forall m | m in t.view.heap :: m in v.heap)
  {
    WantedIsFirst(v.heap, v.want);
  }

  /** Calls whose ids are all buffered are served from the heap alone, one
      message each, whatever the duplicates. */
  lemma {:induction false} HeapServes<D>(cfg: Config<D>, v: View, entries: seq<Entry>)
    requires v.recovery == None || v.recovery == Some([])
    requires Sorted(v.heap)
    requires forall id | v.want <= id < v.want + |entries| :: id in Ids(v.heap)
    ensures var tr := Exec(cfg, Machine(v, false), Calls(entries));
            && |tr.consumed| == |tr.outcomes| == |entries|
            && (forall m | m in tr.consumed :: m in v.heap)
            && !tr.final.listening
    decreases entries
  {
    if entries != [] {
      HeapServesOne(cfg, v, entries[0]);
      var t := Enter(cfg, v, entries[0]);
      assert Calls(entries)[1..] == Calls(entries[1..]);
      FireConsumes(cfg, Machine(v, false), Call(entries[0]));
      HeapServes(cfg, t.view, entries[1..]);
    }
  }

  /** The reply to a single request, and then one call per buffered id, deliver
      everything up to the largest buffered id. */
  lemma SingleReplyClosesGap<D>(cfg: Config<D>, v: View, r: Round, entries: seq<Entry>)
    requires Sound(Machine(v, true)) && v.heap != [] && SingleMissing(v)
    requires r.clock > v.deadline && r.single.Got? && r.single.msg.sequence == v.want
    requires |entries| == v.heap[|v.heap| - 1].Id() - v.want
    ensures var tr := Exec(cfg, Machine(v, true), [Wait(r)] + Calls(entries));
            && tr.final.view.want == v.heap[|v.heap| - 1].Id() + 1
            && |tr.consumed| == |tr.outcomes| == 1 + |entries|
            && tr.consumed[0] == ReceivedMessage(r.recvTs, Missing, r.single.msg)
            && forall m | m in tr.consumed[1..] :: m in v.heap
  {
    var t := RecoverOne(cfg, v, r);
    AllBufferedAfter(v);
    HeapServes(cfg, t.view, entries);
    ExecFrom(cfg, Machine(v, true), Wait(r), Calls(entries));
    ExactlyOnceInOrder(cfg, Machine(v, true), [Wait(r)] + Calls(entries));
  }

  lemma AllBufferedAfter(v: View)
    requires Sound(Machine(v, true)) && v.heap != [] && SingleMissing(v)
    ensures forall id | v.want < id <= v.heap[|v.heap| - 1].Id() :: id in Ids(v.heap)
  {
    SingleMissingExact(v);
  }

  // ---- Batch recovery

  /** An open stream serves one call per item, in order, without touching the heap. */
  lemma {:induction false} StreamServes<D>(cfg: Config<D>, v: View, msgs: seq<RawMessage>, more: seq<StreamItem>, entries: seq<Entry>)
    requires v.recovery == Some(Items(msgs) + more)
    requires Consecutive(msgs, v.want) && |entries| == |msgs|
    ensures var tr := Exec(cfg, Machine(v, false), Calls(entries));
            && |tr.consumed| == |tr.outcomes| == |msgs|
            && (forall i | 0 <= i < |msgs| :: tr.consumed[i].raw == msgs[i] && tr.consumed[i].origin == Sync)
            && tr.final == Machine(v.(want := v.want + |msgs|, recovery := Some(more), deadline := tr.final.view.deadline), false)
    decreases msgs
  {
    if msgs == [] {
      assert Items(msgs) + more == more;
    } else {
      var t := Enter(cfg, v, entries[0]);
      assert (Items(msgs) + more)[0] == Item(msgs[0]);
      assert (Items(msgs) + more)[1..] == Items(msgs[1..]) + more;
      assert Calls(entries)[1..] == Calls(entries[1..]);
      StreamServes(cfg, t.view, msgs[1..], more, entries[1..]);
    }
  }

  /** The request that opens a stream and then one call per item it holds. */
  lemma StreamOpens<D>(cfg: Config<D>, v: View, r: Round, msgs: seq<RawMessage>, more: seq<StreamItem>, entries: seq<Entry>)
    requires v.heap != [] && !SingleMissing(v)
    requires r.clock > v.deadline && r.batch == Opened(Items(msgs) + more)
    requires msgs != [] && Consecutive(msgs, v.want) && |entries| == |msgs| - 1
    ensures var tr := Exec(cfg, Machine(v, true), [Wait(r)] + Calls(entries));
            && |tr.consumed| == |tr.outcomes| == |msgs|
            && (forall i | 0 <= i < |msgs| :: tr.consumed[i].raw == msgs[i] && tr.consumed[i].origin == Sync)
            && tr.final == Machine(v.(want := v.want + |msgs|, recovery := Some(more), deadline := tr.final.view.deadline), false)
  {
    var t := RecoverBatch(cfg, v, r);
    assert (Items(msgs) + more)[0] == Item(msgs[0]);
    assert (Items(msgs) + more)[1..] == Items(msgs[1..]) + more;
    StreamServes(cfg, t.view, msgs[1..], more, entries);
    ExecFrom(cfg, Machine(v, true), Wait(r), Calls(entries));
  }

  /** Hand-over from a batch over an unbroken stretch of the log: the stretch is
      delivered, the buffered ids inside it are dropped without a second
      delivery, and the next call takes the following id from the heap if it is
      there and listens otherwise. */
  lemma BatchHandsOver<D>(cfg: Config<D>, v: View, r: Round, msgs: seq<RawMessage>, entries: seq<Entry>, e: Entry)
    requires Sound(Machine(v, true)) && v.heap != [] && !SingleMissing(v)
    requires r.clock > v.deadline && r.batch == Opened(Items(msgs))
    requires msgs != [] && Consecutive(msgs, v.want) && |entries| == |msgs| - 1
    ensures var next := v.want + |msgs|;
            var tr := Exec(cfg, Machine(v, true), [Wait(r)] + Calls(entries));
            && tr.final.view.want == next && !tr.final.listening
            && |tr.consumed| == |tr.outcomes| == |msgs|
            && (forall i | 0 <= i < |msgs| :: tr.consumed[i].raw == msgs[i] && tr.consumed[i].origin == Sync)
            && var t := Enter(cfg, tr.final.view, e);
            && t.view.recovery == None
            && (forall id | id in Ids(t.view.heap) :: next <= id && id in Ids(v.heap))
            && (forall id | id in Ids(v.heap) && next < id :: id in Ids(t.view.heap))
            && (next in Ids(v.heap) ==> t.consumed.Some? && t.consumed.value in v.heap && t.consumed.value.Id() == next)
            && (next !in Ids(v.heap) ==> t.outcome == None && t.view.want == next)
  {
    StreamOpens(cfg, v, r, msgs, [], entries);
    assert Items(msgs) + [] == Items(msgs);
    HandOver(cfg, Exec(cfg, Machine(v, true), [Wait(r)] + Calls(entries)).final.view, e);
  }

  /** Once the stale messages are dropped only later ids are left if the wanted one is not buffered. */
  lemma WantedIsAbsent(h: seq<ReceivedMessage>, want: int)
    requires Sorted(h) && want !in Ids(h)
    ensures var r := DropStale(h, want);
            && (r != [] ==> r[0].Id() > want)
            && (forall m | m in r :: want <= m.Id() && m in h)
            && (forall id | id in Ids(h) && want < id :: id in Ids(r))
  {
    var n := DropStaleIsSuffix(h, want);
    assert n < |h| ==> h[n] in h && h[n].Id() in Ids(h);
    forall id | id in Ids(h) && want < id
      ensures id in Ids(h[n..])
    {
      var k :| 0 <= k < |h| && h[k].Id() == id;
      assert h[n..][k - n] == h[k];
    }
  }

  lemma HandOver<D>(cfg: Config<D>, v: View, e: Entry)
    requires Sorted(v.heap) && v.recovery == Some([])
    ensures var t := Enter(cfg, v, e);
            && t.view.recovery == None
            && (forall id | id in Ids(t.view.heap) :: v.want <= id && id in Ids(v.heap))
            && (forall id | id in Ids(v.heap) && v.want < id :: id in Ids(t.view.heap))
            && (v.want in Ids(v.heap) ==> t.consumed.Some? && t.consumed.value in v.heap && t.consumed.value.Id() == v.want)
            && (v.want !in Ids(v.heap) ==> t.outcome == None && t.view.want == v.want)
  {
    if v.want in Ids(v.heap) {
      WantedIsFirst(v.heap, v.want);
    } else {
      WantedIsAbsent(v.heap, v.want);
    }
  }

  /** A stream over a log with a hole delivers the part before the hole, then
      reports an invalid sequence and leaves the wanted id at the hole. */
  lemma {:induction false} StreamStopsAtHole<D>(cfg: Config<D>, v: View, msgs: seq<RawMessage>, beyond: RawMessage, more: seq<StreamItem>,
                                                entries: seq<Entry>)
    requires v.recovery == Some(Items(msgs) + ([Item(beyond)] + more))
    requires Consecutive(msgs, v.want) && |entries| == |msgs| + 1
    requires beyond.sequence > v.want + |msgs|
    ensures var tr := Exec(cfg, Machine(v, false), Calls(entries));
            && tr.final.view.want == v.want + |msgs| && !tr.final.listening
            && |tr.consumed| == |msgs| && |tr.outcomes| == |msgs| + 1
            && (forall i | 0 <= i < |msgs| :: tr.consumed[i].raw == msgs[i])
            && tr.outcomes[|msgs|] == Failed(InvalidSequence)
    decreases msgs
  {
    var items := Items(msgs) + ([Item(beyond)] + more);
    assert Calls(entries) == [Call(entries[0])] + Calls(entries[1..]);
    ExecFrom(cfg, Machine(v, false), Call(entries[0]), Calls(entries[1..]));
    if msgs == [] {
      assert items[0] == Item(beyond);
      assert Calls(entries[1..]) == [];
    } else {
      assert items[0] == Item(msgs[0]);
      assert items[1..] == Items(msgs[1..]) + ([Item(beyond)] + more);
      StreamStopsAtHole(cfg, Enter(cfg, v, entries[0]).view, msgs[1..], beyond, more, entries[1..]);
    }
  }

  /** The same from the request that opens the stream; a stream that begins
      beyond the wanted id fails the request itself. */
  lemma BatchStopsAtHole<D>(cfg: Config<D>, v: View, r: Round, msgs: seq<RawMessage>, beyond: RawMessage, more: seq<StreamItem>,
                            entries: seq<Entry>)
    requires v.heap != [] && !SingleMissing(v) && r.clock > v.deadline
    requires r.batch == Opened(Items(msgs) + ([Item(beyond)] + more))
    requires Consecutive(msgs, v.want) && |entries| == |msgs|
    requires beyond.sequence > v.want + |msgs|
    ensures var tr := Exec(cfg, Machine(v, true), [Wait(r)] + Calls(entries));
            && tr.final.view.want == v.want + |msgs| && !tr.final.listening
            && |tr.consumed| == |msgs| && |tr.outcomes| == |msgs| + 1
            && (forall i | 0 <= i < |msgs| :: tr.consumed[i].raw == msgs[i])
            && tr.outcomes[|msgs|] == Failed(InvalidSequence)
  {
    var items := Items(msgs) + ([Item(beyond)] + more);
    ExecFrom(cfg, Machine(v, true), Wait(r), Calls(entries));
    if msgs == [] {
      assert items[0] == Item(beyond);
    } else {
      assert items[0] == Item(msgs[0]);
      assert items[1..] == Items(msgs[1..]) + ([Item(beyond)] + more);
      StreamStopsAtHole(cfg, RecoverBatch(cfg, v, r).view, msgs[1..], beyond, more, entries);
    }
  }

  lemma ExecFrom<D>(cfg: Config<D>, mc: Machine, s: Step, steps: seq<Step>)
    ensures var first := FireTrace(cfg, mc, s);
            Exec(cfg, mc, [s] + steps) == Joined(first, Exec(cfg, first.final, steps))
  {
    assert ([s] + steps)[1..] == steps;
  }

  // ---- Convergence

  /** As far as the stream goes, its items up to `last` are the log entries from
      the wanted id on. */
  ghost predicate Follows(items: seq<StreamItem>, truth: map<int, RawMessage>, want: int, last: int) {
    forall id | want <= id <= last && id < want + |items| :: id in truth && items[id - want] == Item(truth[id])
  }

  /** The log is unbroken up to `last`, `last` is buffered until it is consumed,
      and an open recovery stream goes on from the wanted id without a hole. */
  ghost predicate Converging(v: View, truth: map<int, RawMessage>, last: int) {
    && v.want <= last + 1
    && Sorted(v.heap)
    && HoldsLog(truth, v)
    && (forall id | v.want <= id <= last :: id in truth && truth[id].sequence == id)
    && (v.want <= last ==> last in Ids(v.heap))
    && (v.recovery.Some? ==> Follows(v.recovery.value, truth, v.want, last))
  }

  /** The socket yields log entries or nothing, and both recovery services answer
      a request for `want` from the log. */
  ghost predicate Helpful(truth: map<int, RawMessage>, want: int, last: int, r: Round) {
    && GivesLog(truth, Wait(r))
    && (r.udp.Packet? || r.udp.Elapsed?)
    && want in truth && r.single == Got(truth[want])
    && r.batch.Opened? && r.batch.items != [] && Follows(r.batch.items, truth, want, last)
  }

  /** The step consumes the log entry for the wanted id and returns its parse. */
  ghost predicate TakesEntry<D>(cfg: Config<D>, v: View, t: Turn<D>, truth: map<int, RawMessage>) {
    && t.consumed.Some?
    && t.consumed.value.Id() == v.want && InLog(truth, t.consumed.value.raw)
    && t.outcome == Some(Parse(cfg, t.consumed.value))
    && t.view.want == v.want + 1
  }

  lemma TailFollows(items: seq<StreamItem>, truth: map<int, RawMessage>, want: int, last: int)
    requires items != [] && Follows(items, truth, want, last) && want <= last
    ensures want in truth && items[0] == Item(truth[want])
    ensures Follows(items[1..], truth, want + 1, last)
  {
    assert want in truth && items[want - want] == Item(truth[want]);
    forall id | want + 1 <= id <= last && id < want + 1 + |items[1..]|
      ensures id in truth && items[1..][id - (want + 1)] == Item(truth[id])
    {
    }
  }

  lemma EnterHeapConverges<D>(cfg: Config<D>, v: View, e: Entry, truth: map<int, RawMessage>, last: int)
    requires Converging(v, truth, last) && v.want <= last && v.recovery == None
    ensures var t := EnterHeap(cfg, v, e);
            && Converging(t.view, truth, last)
            && (t.outcome.Some? ==> TakesEntry(cfg, v, t, truth))
            && (t.outcome.None? ==> t.view.want == v.want && t.view.recovery == None)
  {
    DropStaleIds(v.heap, v.want);
    var n := DropStaleIsSuffix(v.heap, v.want);
    if n < |v.heap| {
      assert v.heap[n] in v.heap;
    }
  }

  lemma EnterConverges<D>(cfg: Config<D>, v: View, e: Entry, truth: map<int, RawMessage>, last: int)
    requires Converging(v, truth, last) && v.want <= last
    ensures var t := Enter(cfg, v, e);
            && Converging(t.view, truth, last)
            && (t.outcome.Some? ==> TakesEntry(cfg, v, t, truth))
            && (t.outcome.None? ==> t.view.want == v.want && t.view.recovery == None)
  {
    if v.recovery.Some? && v.recovery.value != [] {
      TailFollows(v.recovery.value, truth, v.want, last);
    } else {
      EnterHeapConverges(cfg, v.(recovery := None), e, truth, last);
    }
  }

  /** Buffering a log entry keeps the buffer sorted, in the log, and what was in it. */
  lemma BufferingKeepsLog(v: View, m: ReceivedMessage, slot: nat, truth: map<int, RawMessage>)
    requires Sorted(v.heap) && HoldsLog(truth, v) && InLog(truth, m.raw)
    ensures var h := Insert(v.heap, m, slot);
            Sorted(h) && HoldsLog(truth, v.(heap := h)) && Ids(v.heap) <= Ids(h)
  {
    InsertAdds(v.heap, m, slot);
    InsertSorts(v.heap, m, slot);
  }

  lemma HearConverges<D>(cfg: Config<D>, v: View, r: Round, m: ReceivedMessage, truth: map<int, RawMessage>, last: int)
    requires Converging(v, truth, last) && v.want <= last && v.recovery == None && InLog(truth, m.raw)
    ensures var t := Hear(cfg, v.(connected := true), r, m);
            && Converging(t.view, truth, last)
            && (t.outcome.Some? ==> TakesEntry(cfg, v, t, truth))
            && (t.outcome.None? ==> t.view.want == v.want && t.view.recovery == None)
  {
    BufferingKeepsLog(v, m, r.slot, truth);
  }

  lemma RecoverConverges<D>(cfg: Config<D>, v: View, r: Round, truth: map<int, RawMessage>, last: int)
    requires Converging(v, truth, last) && v.want <= last && v.recovery == None
    requires Helpful(truth, v.want, last, r)
    ensures var t := RecoverOne(cfg, v, r); Converging(t.view, truth, last) && TakesEntry(cfg, v, t, truth)
    ensures var t := RecoverBatch(cfg, v, r); Converging(t.view, truth, last) && TakesEntry(cfg, v, t, truth)
  {
    TailFollows(r.batch.items, truth, v.want, last);
  }

  lemma ListenConverges<D>(cfg: Config<D>, v: View, r: Round, truth: map<int, RawMessage>, last: int)
    requires Converging(v, truth, last) && v.want <= last && v.recovery == None
    requires Helpful(truth, v.want, last, r)
    ensures var t := Listen(cfg, v, r);
            && Converging(t.view, truth, last)
            && (t.outcome.Some? ==> TakesEntry(cfg, v, t, truth))
            && (t.outcome.None? ==> t.view.want == v.want && t.view.recovery == None)
  {
    if r.clock > v.deadline {
      assert v.heap != [];
      RecoverConverges(cfg, v, r, truth, last);
    } else if r.udp.Packet? {
      HearConverges(cfg, v, r, ReceivedMessage(r.recvTs, Udp, r.udp.msg), truth, last);
    }
  }

  lemma {:induction false} LoopConverges<D>(cfg: Config<D>, v: View, rounds: seq<Round>, truth: map<int, RawMessage>, last: int)
    requires Converging(v, truth, last) && v.want <= last && v.recovery == None
    requires forall r | r in rounds :: Helpful(truth, v.want, last, r)
    ensures var t := Loop(cfg, v, rounds);
            Converging(t.view, truth, last) && (t.outcome.Some? ==> TakesEntry(cfg, v, t, truth))
    decreases rounds
  {
    if rounds != [] {
      ListenConverges(cfg, v, rounds[0], truth, last);
      var t := Listen(cfg, v, rounds[0]);
      if t.outcome.None? {
        LoopConverges(cfg, t.view, rounds[1..], truth, last);
      }
    }
  }

  /** One call's tape. */
  datatype CallTape = CallTape(entry: Entry, rounds: seq<Round>)

  /** The answers are helpful and the clock runs past the deadline during the call. */
  ghost predicate Answers<D>(cfg: Config<D>, v: View, c: CallTape, truth: map<int, RawMessage>, last: int) {
    && c.rounds != [] && Advancing(c.rounds)
    && |c.rounds| >= Enter(cfg, v, c.entry).view.deadline - c.rounds[0].clock + 2
    && forall r | r in c.rounds :: Helpful(truth, v.want, last, r)
  }

  ghost predicate AnswersAll<D>(cfg: Config<D>, v: View, calls: seq<CallTape>, truth: map<int, RawMessage>, last: int)
    decreases calls
  {
    calls != [] ==>
      && Answers(cfg, v, calls[0], truth, last)
      && AnswersAll(cfg, Next(cfg, v, calls[0].entry, calls[0].rounds).view, calls[1..], truth, last)
  }

  /** What a number of calls leave: the state, the messages consumed and the results returned. */
  datatype Calling<+D> = Calling(final: View, consumed: seq<ReceivedMessage>, outcomes: seq<Outcome<D>>)

  function CallAll<D>(cfg: Config<D>, v: View, calls: seq<CallTape>): Calling<D>
    decreases calls
  {
    if calls == [] then Calling(v, [], [])
    else
      var t := Next(cfg, v, calls[0].entry, calls[0].rounds);
      var rest := CallAll(cfg, t.view, calls[1..]);
      Calling(rest.final, Listed(t.consumed) + rest.consumed, Listed(t.outcome) + rest.outcomes)
  }

  lemma CallConverges<D>(cfg: Config<D>, v: View, c: CallTape, truth: map<int, RawMessage>, last: int)
    requires Converging(v, truth, last) && v.want <= last
    requires Answers(cfg, v, c, truth, last)
    ensures var t := Next(cfg, v, c.entry, c.rounds);
            && Converging(t.view, truth, last)
            && TakesEntry(cfg, v, t, truth)
  {
    EnterConverges(cfg, v, c.entry, truth, last);
    var t := Enter(cfg, v, c.entry);
    if t.outcome.None? {
      ListeningEnds(cfg, t.view, c.rounds);
      LoopConverges(cfg, t.view, c.rounds, truth, last);
    }
  }

  /** Convergence: once a later message is buffered, exactly one call per missing
      id up to it returns exactly the log, whatever mix of heap, socket, single
      and batch recovery serves them; none of them reports a disconnection. */
  lemma {:induction false} Converges<D>(cfg: Config<D>, v: View, calls: seq<CallTape>, truth: map<int, RawMessage>, last: int)
    requires Converging(v, truth, last)
    requires |calls| == last + 1 - v.want
    requires AnswersAll(cfg, v, calls, truth, last)
    ensures var done := CallAll(cfg, v, calls);
            && done.final.want == last + 1
            && |done.consumed| == |calls|
            && (forall i | 0 <= i < |calls| :: InLog(truth, done.consumed[i].raw) && done.consumed[i].Id() == v.want + i)
            && done.outcomes == Parses(cfg, done.consumed)
            && Disconnected !in done.outcomes
    decreases calls
  {
    if calls != [] {
      CallConverges(cfg, v, calls[0], truth, last);
      var t := Next(cfg, v, calls[0].entry, calls[0].rounds);
      Converges(cfg, t.view, calls[1..], truth, last);
      var rest := CallAll(cfg, t.view, calls[1..]);
      assert CallAll(cfg, v, calls).consumed == [t.consumed.value] + rest.consumed;
      assert ([t.consumed.value] + rest.consumed)[1..] == rest.consumed;
    }
  }

  // ---- Convergence with a stream open

  lemma {:induction false} LoopConsumesOrNot<D>(cfg: Config<D>, v: View, rounds: seq<Round>)
    ensures ConsumesOrNot(cfg, v.want, Loop(cfg, v, rounds))
    decreases rounds
  {
    if rounds != [] {
      ListenConsumes(cfg, v, rounds[0]);
      var t := Listen(cfg, v, rounds[0]);
      if t.outcome.None? {
        LoopConsumesOrNot(cfg, t.view, rounds[1..]);
      }
    }
  }

  lemma NextConsumesOrNot<D>(cfg: Config<D>, v: View, c: CallTape)
    ensures ConsumesOrNot(cfg, v.want, Next(cfg, v, c.entry, c.rounds))
  {
    EnterConsumes(cfg, v, c.entry);
    LoopConsumesOrNot(cfg, Enter(cfg, v, c.entry).view, c.rounds);
  }

  /** No number of calls uses up more ids than there are calls. */
  lemma {:induction false} CallsConsumeAtMost<D>(cfg: Config<D>, v: View, calls: seq<CallTape>)
    ensures CallAll(cfg, v, calls).final.want <= v.want + |calls|
    decreases calls
  {
    if calls != [] {
      NextConsumesOrNot(cfg, v, calls[0]);
      CallsConsumeAtMost(cfg, Next(cfg, v, calls[0].entry, calls[0].rounds).view, calls[1..]);
    }
  }

  /** A log entry at the head of the stream that is not the wanted one, or an
      error there, fails the call without using up an id. */
  lemma WrongItemFails<D>(cfg: Config<D>, v: View, c: CallTape, truth: map<int, RawMessage>)
    requires v.recovery.Some? && v.recovery.value != [] && HoldsLog(truth, v)
    requires v.want in truth && v.recovery.value[0] != Item(truth[v.want])
    ensures Next(cfg, v, c.entry, c.rounds).view.want == v.want
  {
    assert v.recovery.value[0] in v.recovery.value;
  }

  lemma FollowsFromHead(items: seq<StreamItem>, truth: map<int, RawMessage>, want: int, last: int)
    requires items != [] && want in truth && items[0] == Item(truth[want])
    requires Follows(items[1..], truth, want + 1, last)
    ensures Follows(items, truth, want, last)
  {
    forall id | want <= id <= last && id < want + |items|
      ensures id in truth && items[id - want] == Item(truth[id])
    {
      assert id > want ==> items[id - want] == items[1..][id - (want + 1)];
    }
  }

  /** With a hole in its open stream the sequencer stays behind, whatever the
      environment answers. */
  lemma {:induction false} HoleStaysBehind<D>(cfg: Config<D>, v: View, calls: seq<CallTape>, truth: map<int, RawMessage>, last: int)
    requires HoldsLog(truth, v) && v.recovery.Some? && !Follows(v.recovery.value, truth, v.want, last)
    requires v.want <= last && |calls| == last + 1 - v.want
    requires forall id | v.want <= id <= last :: id in truth && truth[id].sequence == id
    ensures CallAll(cfg, v, calls).final.want <= last
    decreases calls
  {
    var items := v.recovery.value;
    var t := Next(cfg, v, calls[0].entry, calls[0].rounds);
    if items[0] != Item(truth[v.want]) {
      WrongItemFails(cfg, v, calls[0], truth);
      CallsConsumeAtMost(cfg, t.view, calls[1..]);
    } else {
      if Follows(items[1..], truth, v.want + 1, last) {
        FollowsFromHead(items, truth, v.want, last);
      }
      EnterKeepsLog(cfg, v, calls[0].entry, truth);
      HoleStaysBehind(cfg, t.view, calls[1..], truth, last);
    }
  }

  /** Everything `Converging` asks for except of an open stream. */
  ghost predicate Buffered(v: View, truth: map<int, RawMessage>, last: int) {
    Converging(v.(recovery := None), truth, last) && HoldsLog(truth, v)
  }

  /** Convergence, exactly: with a later message buffered, the log unbroken up to
      it and helpful answers, one call per missing id gets there if and only if
      the recovery stream that is open, if one is, has no hole. */
  lemma ConvergesIff<D>(cfg: Config<D>, v: View, calls: seq<CallTape>, truth: map<int, RawMessage>, last: int)
    requires Buffered(v, truth, last)
    requires |calls| == last + 1 - v.want && AnswersAll(cfg, v, calls, truth, last)
    ensures CallAll(cfg, v, calls).final.want == last + 1
            <==> (v.recovery.Some? ==> Follows(v.recovery.value, truth, v.want, last))
  {
    if v.recovery.Some? && !Follows(v.recovery.value, truth, v.want, last) {
      HoleStaysBehind(cfg, v, calls, truth, last);
    } else {
      Converges(cfg, v, calls, truth, last);
    }
  }
}
