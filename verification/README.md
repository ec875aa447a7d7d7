# Grapevine: a verified model of the replication protocol

A publisher stamps every change of its state with an increasing id, writes it to
a master log and multicasts it. The network may lose, repeat and reorder
datagrams. A subscriber's sequencer puts the messages back in order, asks the
publisher's log for what is missing, and hands them to an aggregator that
rebuilds the state. This project models that pipeline in Dafny and proves what
the replica is at every moment of every run. It also covers the wire framing and
the order-book example that is driven over the protocol.

## How it is laid out

| file | content |
|---|---|
| `Messages.dfy`, `Wrappers.dfy` | envelopes, the abstract application and its codings |
| `MinMaxHeap.dfy` | the buffer of early messages: heap, largest id and counter kept in step |
| `Sequencing.dfy` | the sequencer as a state machine on values |
| `MessageSequencer.dfy` | the sequencer as an object updated in place, proved against it |
| `SequencerLaws.dfy` | what one step of it returns and leaves, in which situation |
| `SequencerSafety.dfy`, `SequencerReordering.dfy`, `SequencerDeadlines.dfy`, `SequencerRecovery.dfy` | its properties over all runs |
| `Codec.dfy` | encoder, decoder and their round trips |
| `IdSets.dfy` | least and greatest element of a finite set of ids |
| `MasterLog.dfy`, `Recovery.dfy` | the log as a table and as the recovery services show it |
| `Publishing.dfy` | publishing, the two senders that share one state, and the start, in place |
| `PublisherSystem.dfy`, `PublisherSafety.dfy`, `PublisherRefinement.dfy` | the publisher as interleaved steps with crashes and restarts, its properties, and the methods as runs of it |
| `Aggregation.dfy`, `AggregationLaws.dfy`, `AggregationSafety.dfy` | the two tasks of the aggregator, what each turn does, and their properties over all runs |
| `Replication.dfy` | everything joined into one system, and what the replica is in it |
| `ReplicationProgress.dfy` | what a request comes to and what an open recovery stream is worth |
| `ReplicationCatchUp.dfy` | catching up with a quiet publisher, end to end |
| `ReplicationLimits.dfy` | restarts, late joiners and overtaking log writes: when replication stops short, and runs in which it does |
| `OrderBook.dfy`, `OrderBookSafety.dfy` | the order book, its generator and its ledger |
| `OrderBookReplication.dfy` | the order book carried over the protocol |

Waiting is modelled by an oracle: each iteration of the listening loop is given a
`Round` holding its clock reading and the answer to every wait it could make, of
which it makes at most one. A call on a finite tape of rounds returns an outcome
or is still waiting. Two tasks that share memory are steps of a transition
system, cut where the code awaits or holds a lock. The application state, its
deltas and the protobuf coding are parameters; the only assumption about the
codings is that decoding undoes encoding, and about applying a delta nothing:
a delta that fails may still have changed the state.

## Results of note

- The replica is a historical publisher state in every reachable state
  (`ReplicaIsHistorical`), for a subscriber whose first wanted id is the first
  id of the incarnation. Once the publisher is quiet, calls and the aggregator's
  turns bring it to the publisher's state, also from inside a call that has just
  noticed a gap (`CatchesUp`).
- A subscriber that joins in the middle of an incarnation begins from the default
  state all the same: it agrees with the publisher if that was the publisher's
  state before its first id, and to begin with only then (`LateJoinerAgrees`).
- Across a restart that fails: the replica is the fold of the whole log
  (`ReplicaFoldsLog`), while the publisher begins again from its default state.
  `RestartDiverges` is a run with one logged delta, a crash and a restart after
  which the replica is no state the restarted publisher ever had, for any
  application with a delta that changes its default state. For every application
  the two agree when the deltas logged before the restart fold back to the
  default state, above all when there are none, and at the beginning of the
  incarnation only then (`AgreesAfterRestart`). No weaker condition on the log
  serves every application: with one that forgets nothing they agree exactly when
  no delta was inherited (`JournalAgreesAfterRestartIff`).
- A request for a missing id succeeds exactly if the id is logged by then
  (`AnswerAdvancesIff`). If it is still in flight, the call fails and the
  aggregator's forwarding task ends for good.
- The two senders' log writes may overtake each other (`LogWritesMayOvertake`), so
  a recovery stream can be the rest of the log as it was when it had a hole that
  is filled later. `SnapshotConvergesIff` says that one call per id gets to the
  buffered id exactly when the log had no hole then, `HoleFails` what happens
  otherwise, and
  `TransientHoleEndsForwarding` is a run in which nothing is lost or refused,
  every stamped id ends up in the log, and the forwarding task has ended.
- An id given up by the publisher is a hole that the sequencer never passes
  (`StopsAtHole`, `NeverPassesUnlogged`).
- Encoding appends a frame only into an empty buffer (`EncodesFrameIffEmpty`), and
  the decoder leaves what follows a message in its buffer only if nothing does
  (`LeavesRestIffNone`). The code always passes empty buffers and reads one
  datagram at a time.
- The order-book generator crosses the book exactly when the best opposite price
  is at the end of the 32-bit range (`InsertCrossesIff`); prices sampled from 1 to
  2^32 - 2 never bring it there. The source casts a normal sample to `u32`, so a
  sample below one gives price zero, and two inserts then cross the book
  (`ZeroSampleCrosses`). Wrapping is what a release build does; a debug build
  panics at `examples/src/order_book.rs:65` instead. The id counter of the
  publisher's methods wraps in the same way.
- The gap test can overflow only for a subscriber that starts at a negative id
  (`GapTestFitsIff`, `GapTestOverflows`).
- The order book over the protocol: if the publisher's deltas are generated from
  its current book, the replicated book is safe and follows the ledger of the
  deltas the replica has applied, in every reachable state
  (`ReplicatedBookIsSafe`).
- The comment on the sequencer's deadline field is unfinished; the code sets it
  from the clock read when the iteration began, before the wait
  (`grapevine/src/subscriber/sequencer.rs:186`, `:259`), and the theorems say so.

## Model

| member | source | states |
|---|---|---|
| `MinMaxHeaps.MinMaxHeap.Peek` | grapevine/src/subscriber/min_max_heap.rs:19-21 | nothing exactly for an empty buffer, otherwise a buffered message with the least id |
| `MinMaxHeaps.MinMaxHeap.Pop` | grapevine/src/subscriber/min_max_heap.rs:23-42 | removes the message `Peek` showed; heap, largest id and counter still agree |
| `MinMaxHeaps.MinMaxHeap.Push` | grapevine/src/subscriber/min_max_heap.rs:44-54 | adds the message; heap, largest id and counter still agree |
| `MinMaxHeaps.MinMaxHeap.Clear` | grapevine/src/subscriber/min_max_heap.rs:56-60 | empties all three views |
| `MinMaxHeaps.MinMaxHeap.HasGaps` | grapevine/src/subscriber/min_max_heap.rs:62-64 | holds exactly when some id between the smallest and the largest buffered one is not buffered |
| `MinMaxHeaps.MinMaxHeap.CountMissing` | grapevine/src/subscriber/min_max_heap.rs:66-76 | the arithmetic on largest id, smallest id and counter size is the number of ids in between that are not buffered, so it is never negative |
| `MinMaxHeaps.InsertAdds` | grapevine/src/subscriber/min_max_heap.rs:44-54 | a push adds one message and one id and nothing else |
| `MinMaxHeaps.PopTallies` | grapevine/src/subscriber/min_max_heap.rs:30-39 | the counter after a pop is again the multiplicity of every id, with no zero left |
| `MinMaxHeaps.PushTallies` | grapevine/src/subscriber/min_max_heap.rs:52-52 | the counter after a push is again the multiplicity of every id |
| `MinMaxHeaps.InsertKeepsAll` | grapevine/src/subscriber/min_max_heap.rs:44-54 | a push keeps every buffered message, however often it is buffered |
| `MessageSequencers.MessageSequencer.constructor` | grapevine/src/subscriber/sequencer.rs:87-104 | starts unconnected with nothing buffered, wanting the given id |
| `MessageSequencers.MessageSequencer.Next` | grapevine/src/subscriber/sequencer.rs:139-273 | updated in place, a call leaves exactly the state and the result of the state machine the theorems are about |
| `SequencerSafety.FireConsumes` | grapevine/src/subscriber/sequencer.rs:118-273 | every step either uses up the wanted id and returns the parse of that message, or leaves the id alone and reports no message |
| `SequencerSafety.ExactlyOnceInOrder` | grapevine/src/subscriber/sequencer.rs:139-273 | over every run the i-th consumed id is the start plus i, the wanted id is the start plus the number consumed, and the results reporting a message are the parses of the consumed ones in order |
| `SequencerSafety.ConsumesLog` | grapevine/src/subscriber/sequencer.rs:149-170 | with an environment that supplies only log entries, each consumed message is the log entry for its id |
| `SequencerSafety.StopsAtHole` | grapevine/src/subscriber/sequencer.rs:206-233 | an id missing from the log is never passed, over any run |
| `SequencerSafety.EveryRunIsSound` | grapevine/src/subscriber/sequencer.rs:157-182 | unconnected means nothing buffered or being recovered; while listening no recovery stream is open and every buffered id is beyond the wanted one |
| `SequencerSafety.ResetNeverPostponesGap` | grapevine/src/subscriber/sequencer.rs:180-182 | the deadline reset of an unconnected call never happens with anything buffered |
| `SequencerSafety.GapTestFitsIff` | grapevine/src/subscriber/sequencer.rs:193-194 | while listening the gap test stays inside the `i64` range exactly when the largest buffered id is less than 2^63 beyond the wanted one, so always for a non-negative wanted id |
| `SequencerSafety.GapTestOverflows` | grapevine/src/subscriber/min_max_heap.rs:66-73 | a run in which it overflows: a new sequencer that wants -2 hears -1 and the largest id |
| `SequencerSafety.WantFitsI64` | grapevine/src/subscriber/sequencer.rs:153-153 | the wanted id leaves the `i64` range exactly by consuming the largest id |
| `SequencerSafety.CallIsRun` | grapevine/src/subscriber/sequencer.rs:139-273 | a whole call is the run of its entry and of the iterations it used |
| `SequencerLaws.ConsumedReads` | grapevine/src/subscriber/sequencer.rs:118-137 | a message handed out keeps its time stamps, origin and kind; it reads as an error only if it has no payload or a delta that cannot be decoded, and which of the two tells which |
| `SequencerLaws.ConsumesIff` | grapevine/src/subscriber/sequencer.rs:146-263 | which message is handed out, with which origin and arrival time: exactly at one of the five delivery points |
| `SequencerLaws.DisconnectsIff` | grapevine/src/subscriber/sequencer.rs:241-266 | a disconnection is reported exactly when the deadline passed with nothing buffered or the socket closed before it |
| `SequencerLaws.FailsIff` | grapevine/src/subscriber/sequencer.rs:147-265 | when a broken stream, an empty one, a failed request and a failed socket are reported, and never otherwise |
| `SequencerLaws.RefusesIff` | grapevine/src/subscriber/sequencer.rs:149-233 | an invalid sequence is reported exactly for a recovered message with another id than the wanted one |
| `SequencerLaws.GoesOnIff` | grapevine/src/subscriber/sequencer.rs:180-271 | when a call goes on listening |
| `SequencerLaws.ConnectedAfter` | grapevine/src/subscriber/sequencer.rs:243-253 | connected from the first packet, stale or not, until a deadline passes with nothing buffered |
| `SequencerLaws.DeadlineAfter` | grapevine/src/subscriber/sequencer.rs:154-259 | the deadline moves exactly on a delivery and when an unconnected call begins to listen |
| `SequencerLaws.RecoveryAfter` | grapevine/src/subscriber/sequencer.rs:144-237 | a call takes one item off an open stream or closes an ended one; only a request that delivers opens one |
| `SequencerLaws.CallDrops` | grapevine/src/subscriber/sequencer.rs:164-178 | a call drops exactly the used-up messages and the one it hands out |
| `SequencerLaws.LaterIsBuffered` | grapevine/src/subscriber/sequencer.rs:261-263 | a packet beyond the wanted id is buffered, even if it is there already |
| `SequencerLaws.BufferKept` | grapevine/src/subscriber/sequencer.rs:185-271 | every other step leaves the buffer alone |
| `SequencerReordering.DrainedWantsLeastMissing` | grapevine/src/subscriber/sequencer.rs:250-265 | with no deadline passing, after any arrivals are drained the wanted id is the least one never received and the buffer holds exactly the later ones received |
| `SequencerReordering.SameIdsSameStream` | grapevine/src/subscriber/sequencer.rs:163-178 | two drained runs over the same set of ids deliver the same messages, whatever the order and the duplicates |
| `SequencerReordering.AnyOrderDrains` | grapevine/src/subscriber/sequencer.rs:106-116 | every arrival order can be drained by calling again whenever a call returns |
| `SequencerDeadlines.DeadlineMoves` | grapevine/src/subscriber/sequencer.rs:180-264 | only a consumed message or an unconnected call moves the deadline, to a full timeout after the step's reading; stale and future packets never do |
| `SequencerDeadlines.NoRecoveryWithoutDeadline` | grapevine/src/subscriber/sequencer.rs:187-247 | before the deadline the result does not depend on either recovery service, and a disconnection means the socket closed |
| `SequencerDeadlines.DeadlineNeverDecreases` | grapevine/src/subscriber/sequencer.rs:154-259 | with a clock that never goes back the deadline never does, and it stays within a timeout of the last reading |
| `SequencerDeadlines.FreshDeadlineNeverDecreases` | grapevine/src/subscriber/sequencer.rs:94-259 | the same between any two moments of a run of a new sequencer, with no assumption on its state |
| `SequencerDeadlines.QuietForATimeout` | grapevine/src/subscriber/sequencer.rs:186-247 | after the deadline is set, no recovery and no deadline disconnection until a full timeout after the reading that began that step |
| `SequencerDeadlines.DisconnectionStartsOver` | grapevine/src/subscriber/sequencer.rs:241-246 | a deadline disconnection leaves nothing pending and the next call listens for a full timeout |
| `SequencerDeadlines.ListeningEnds` | grapevine/src/subscriber/sequencer.rs:185-272 | with an advancing clock a listening call returns within the ticks left to its deadline and one more iteration |
| `SequencerRecovery.SingleMissingExact` | grapevine/src/subscriber/sequencer.rs:193-196 | a single message is requested exactly when the wanted id is the only one absent up to the largest buffered |
| `SequencerRecovery.HeapServes` | grapevine/src/subscriber/sequencer.rs:163-178 | calls whose ids are buffered are served by the heap alone, one each, despite duplicates |
| `SequencerRecovery.SingleReplyClosesGap` | grapevine/src/subscriber/sequencer.rs:196-212 | the single reply and then one call per buffered id deliver everything up to the largest buffered id |
| `SequencerRecovery.StreamServes` | grapevine/src/subscriber/sequencer.rs:144-161 | an open stream serves one call per item in order and leaves the heap alone |
| `SequencerRecovery.BatchHandsOver` | grapevine/src/subscriber/sequencer.rs:213-240 | after a batch the stale buffered ids are dropped without a second delivery and the following id comes from the heap if it is there |
| `SequencerRecovery.StreamStopsAtHole` | grapevine/src/subscriber/sequencer.rs:144-161 | an open stream that skips an id delivers the part before it, then an invalid-sequence error, and the wanted id stays |
| `SequencerRecovery.BatchStopsAtHole` | grapevine/src/subscriber/sequencer.rs:213-240 | the same from the request on, which fails itself if the stream begins beyond the wanted id |
| `SequencerRecovery.CallConverges` | grapevine/src/subscriber/sequencer.rs:139-273 | with a helpful environment one call returns the log entry for the wanted id |
| `SequencerRecovery.Converges` | grapevine/src/subscriber/sequencer.rs:144-247 | once a later message is buffered, exactly one call per id up to it returns exactly the log, none of them a disconnection, whatever mix of sources serves them |
| `SequencerRecovery.ConvergesIff` | grapevine/src/subscriber/sequencer.rs:144-247 | with a recovery stream open, one call per id gets to the buffered id exactly when the stream goes on without a hole |
| `Codec.Encoder.Encode` | grapevine/src/codec/encoder.rs:25-44 | the buffer after encoding, for any buffer before, with the size limit as an error |
| `Codec.Decoder.Decode` | grapevine/src/codec/decoder.rs:51-83 | state, buffer and result after reading, including the flag error and the body error |
| `Codec.HeaderHoldsLength` | grapevine/src/codec/encoder.rs:32-41 | the 16-bit cast never truncates a length that passed the limit, and the header gives it back |
| `Codec.EncodesOneFrame` | grapevine/src/codec/encoder.rs:25-44 | into an empty buffer: exactly the frame, whose bytes past the header are the body; a message too large is refused |
| `Codec.EncodeRefusesIff` | grapevine/src/codec/encoder.rs:25-44 | for any buffer, refused exactly if more than 1397 bytes would follow the header; otherwise the header gives their number, high byte first |
| `Codec.DecodeReturnsIff` | grapevine/src/codec/decoder.rs:51-83 | a message, nothing, the flag error and the body error each come in exactly one situation |
| `Codec.DecodeLeaves` | grapevine/src/codec/decoder.rs:51-83 | state and buffer after each of them |
| `Codec.EncodesFrameIffEmpty` | grapevine/src/codec/encoder.rs:26-42 | a successful encode wrote the message's frame exactly when the buffer was empty |
| `Codec.ProperPrefixYieldsNothing` | grapevine/src/codec/decoder.rs:51-74 | chunks that stop short of the end of a frame yield nothing |
| `Codec.AnyChunkingRoundTrips` | grapevine/src/codec/decoder.rs:51-83 | from anywhere inside a frame, the rest in any chunks yields the message once and leaves the decoder at rest |
| `Codec.FrameRoundTrips` | grapevine/src/codec/decoder.rs:51-83 | a frame in any chunks yields its message exactly once |
| `Codec.DatagramsRoundTrip` | grapevine/src/codec/decoder.rs:51-83 | a list of whole datagrams decodes to the list of messages |
| `Codec.LeavesRestIffNone` | grapevine/src/codec/decoder.rs:35-38 | a read leaves what follows the message in the buffer exactly when nothing does |
| `MasterLogs.NextSequence` | grapevine/src/persistence/sqlite/publisher.rs:23-36 | an id beyond every logged one, right after the last, or zero |
| `MasterLogs.MasterLog.WriteMessage` | grapevine/src/persistence/sqlite/publisher.rs:38-57 | adds a row with its body and time stamp or fails without a change; an existing id is refused |
| `MasterLogs.MasterLog.ReadSequence` | grapevine/src/persistence/sqlite/publisher.rs:59-72 | gives the row exactly if it exists and the database answers |
| `MasterLogs.StreamSplits` | grapevine/src/persistence/sqlite/publisher.rs:74-100 | a stream over an unbroken stretch is that stretch and then the stream from its end |
| `MasterLogs.StreamSkipsHole` | grapevine/src/persistence/sqlite/publisher.rs:79-99 | at a hole the stream goes on with a later id |
| `Recovery.AnswersComeFromLog` | grapevine/src/publisher/recovery.rs:71-117 | both services answer with log entries only, the single one with the id asked for |
| `Recovery.DecodesEach` | grapevine/src/publisher/recovery.rs:71-80 | each row of a stream decodes on its own, a bad one to an error in its place |
| `Recovery.UnbrokenLogHelps` | grapevine/src/publisher/recovery.rs:87-117 | over an unbroken log both services meet the conditions of convergence |
| `Recovery.LogBatchHandsOver` | grapevine/src/subscriber/sequencer.rs:213-240 | a batch from a log unbroken to its end delivers it all and hands over to the heap |
| `Recovery.LogBatchStopsAtHole` | grapevine/src/subscriber/sequencer.rs:213-240 | from the request on, a batch from a log with a hole delivers the part before the hole, then reports an invalid sequence, or an empty stream if nothing is logged from the wanted id on, and leaves the wanted id at the hole |
| `Recovery.SnapshotFollowsIff` | grapevine/src/persistence/sqlite/publisher.rs:74-100 | a stream served from an earlier state of the log agrees with the log as it is now exactly when that state had no hole |
| `Recovery.PublisherRecovery.Single` | grapevine/src/publisher/recovery.rs:87-99 | reads one row of the publisher's log and decodes it; anything else is a refusal |
| `Recovery.PublisherRecovery.Stream` | grapevine/src/publisher/recovery.rs:101-117 | streams the rows from an id on in id order, each decoded |
| `Publishing.StateWrapper.Stamp` | grapevine/src/publisher/state_wrapper.rs:11-15 | returns the counter and adds one to it, wrapping only after the largest id |
| `Publishing.Publish` | grapevine/src/publisher/mod.rs:96-114 | encode, log, send, each only if the one before worked, for any buffer |
| `Publishing.PublishedIff` | grapevine/src/publisher/mod.rs:106-113 | logged exactly if it fits, the log answers and the id is new; sent only then; which error tells which step failed |
| `Publishing.PublishedAnyBuffer` | grapevine/src/publisher/mod.rs:106-113 | for any buffer, what is logged is what is sent without the header's bytes, and nothing changes otherwise |
| `Publishing.PublishesBody` | grapevine/src/publisher/mod.rs:106-111 | from an empty buffer the body is logged and its frame sent |
| `Publishing.PublisherContext.ApplyDelta` | grapevine/src/publisher/context.rs:65-89 | the id is used up and the state changed even on error; log and wire change only as publishing says |
| `Publishing.HeartBeatLoop.HeartBeat` | grapevine/src/publisher/heartbeat.rs:72-101 | uses up one id and goes on whatever publishing returns |
| `Publishing.Start` | grapevine/src/publisher/mod.rs:132-190 | begins with an id beyond every logged one, zero or right after a logged one, from the default state, announcing itself first; the two senders then share one state, one log and one socket, and the recovery server that log |
| `PublisherSafety.DoKeepsInv` | grapevine/src/publisher/context.rs:65-89 | every step of either sender, failure, crash or restart keeps the publisher's invariant |
| `PublisherSafety.WireIdsAreUnique` | grapevine/src/publisher/mod.rs:106-138 | over every run with crashes and restarts, what is sent is logged under its id and two datagrams with one id are one message |
| `PublisherSafety.LogOnlyGrows` | grapevine/src/persistence/sqlite/publisher.rs:38-57 | a logged row is never changed or removed |
| `PublisherSafety.RestartContinuesIds` | grapevine/src/publisher/mod.rs:136-138 | a restart continues after the last logged id, from the default state |
| `PublisherSafety.IdsAreAccountedFor` | grapevine/src/publisher/context.rs:66-87 | the ids of an incarnation are the disjoint union of logged, in-flight and given-up ones, at most two in flight |
| `PublisherSafety.RowReplaysStamp` | grapevine/src/publisher/context.rs:66-78 | replaying a row from the state before its stamp gives the state after it, in whatever order rows were written |
| `PublisherSafety.AnnouncesFirst` | grapevine/src/publisher/mod.rs:146-166 | over every run an incarnation begins with its announcement and is up only once that is logged and sent |
| `PublisherSafety.TakesEffectIff` | grapevine/src/publisher/mod.rs:106-138 | in which situation each step of the transition system does anything |
| `PublisherSafety.LogWritesMayOvertake` | grapevine/src/publisher/heartbeat.rs:72-97 | a heartbeat stamped after a delta can be logged before it |
| `PublisherRefinement.ApplyDeltaIsSteps` | grapevine/src/publisher/context.rs:65-89 | applying a delta uninterrupted is a run of the interleaved system |
| `PublisherRefinement.HeartBeatIsSteps` | grapevine/src/publisher/heartbeat.rs:72-101 | so is a heartbeat |
| `PublisherRefinement.StartIsSteps` | grapevine/src/publisher/mod.rs:132-166 | so is a start, which leaves the publisher up exactly if it announced itself |
| `Aggregation.Aggregator.Receive` | grapevine/src/subscriber/aggregator.rs:39-55 | a delta is taken in hand, other messages are skipped, an error ends the task |
| `Aggregation.Aggregator.Offer` | grapevine/src/subscriber/aggregator.rs:44-47 | the delta in hand enters the queue when there is room, or the task ends when nobody reads |
| `Aggregation.Aggregator.Produce` | grapevine/src/subscriber/aggregator.rs:62-89 | one turn of the draining loop |
| `Aggregation.Aggregator.Run` | grapevine/src/subscriber/aggregator.rs:59-90 | the loop run until it waits or ends |
| `AggregationLaws.ReceiveIff` | grapevine/src/subscriber/aggregator.rs:39-53 | only an error ends the forwarding task and only a delta is taken in hand; a disconnection is passed over |
| `AggregationLaws.OfferIff` | grapevine/src/subscriber/aggregator.rs:44-47 | a send is over exactly when there is room or the loop has ended |
| `AggregationLaws.ProduceEndsIff` | grapevine/src/subscriber/aggregator.rs:71-88 | the three ways in which the draining loop ends |
| `AggregationLaws.ProduceDoes` | grapevine/src/subscriber/aggregator.rs:62-85 | what one turn applies and notifies |
| `AggregationLaws.WaitsIff` | grapevine/src/subscriber/aggregator.rs:62-69 | the loop waits exactly when a turn would change nothing |
| `AggregationLaws.DrainIsTurns` | grapevine/src/subscriber/aggregator.rs:62-89 | left to itself, with or without listeners, the loop takes turns until it waits or has ended |
| `AggregationLaws.ForwardingEndsIff` | grapevine/src/subscriber/aggregator.rs:39-55 | over every run forwarding has ended exactly if the last result taken was an error or a send found the loop ended |
| `AggregationSafety.Conserves` | grapevine/src/subscriber/aggregator.rs:36-90 | over every interleaving, applied, queued and in-hand deltas are those of the results polled, in order |
| `AggregationSafety.ErrorIsLast` | grapevine/src/subscriber/aggregator.rs:50-53 | nothing is polled after the first error |
| `AggregationSafety.StateIsFoldOfPolled` | grapevine/src/subscriber/aggregator.rs:59-90 | the state is the fold of the applied deltas, the queue stays bounded, and notifications are separated by applies |
| `AggregationSafety.NotifiesWhenDrained` | grapevine/src/subscriber/aggregator.rs:78-84 | a notification happens only on an empty queue and after something new was applied |
| `AggregationSafety.DrainAppliesAll` | grapevine/src/subscriber/aggregator.rs:60-89 | left to itself the loop applies the whole queue and then notifies once |
| `Replication.ReplicaIsHistorical` | grapevine/src/subscriber/aggregator.rs:59-90 | in every reachable state the replica is the publisher's state as it stood after some first stamps, up to an id the sequencer has passed, and no delta failed to apply |
| `Replication.ReplicaFoldsLog` | grapevine/src/subscriber/aggregator.rs:59-90 | across crashes and restarts the replica is the fold of the log's deltas from its start up to some id it has passed |
| `Replication.ReplicaCatchesUp` | grapevine/src/subscriber/aggregator.rs:59-90 | with nothing queued or in hand it is the publisher's state as of the wanted id |
| `Replication.NeverPassesUnlogged` | grapevine/src/publisher/context.rs:68-70 | an id never logged bounds the sequencer for ever |
| `ReplicationProgress.RequestIsAnswerable` | grapevine/src/subscriber/sequencer.rs:192-239 | when the wanted id is requested, every buffered id is logged and the wanted one is logged, in flight or given up |
| `ReplicationProgress.ReadsAsStamped` | grapevine/src/subscriber/sequencer.rs:118-137 | over every honest run, a row of the incarnation reads at the subscriber as what the publisher stamped its id for, with the row's time stamp and the arrival's time and origin |
| `ReplicationProgress.AnswerAdvancesIff` | grapevine/src/subscriber/sequencer.rs:196-239 | when the service answers, the request advances by exactly the wanted entry if and only if it is logged; otherwise the call fails and the forwarding task ends |
| `ReplicationProgress.ReachableConvergesIff` | grapevine/src/subscriber/sequencer.rs:144-247 | from any reachable state with a later id buffered and the log unbroken up to it, one helpfully answered call per id gets there exactly when the open stream, if any, has no hole |
| `ReplicationProgress.SnapshotConvergesIff` | grapevine/src/subscriber/sequencer.rs:213-240 | with a service that serves the log as it is, an open stream is always the rest of the log as it was at an earlier moment of the run, and one call per id gets to the buffered id exactly when the log had no hole at that moment |
| `ReplicationProgress.HoleFails` | grapevine/src/subscriber/sequencer.rs:144-151 | otherwise the calls up to the hole succeed and the next fails, whether or not the id is logged by then |
| `ReplicationCatchUp.CatchUpIsRun` | grapevine/src/subscriber/aggregator.rs:36-90 | calling and settling in turn, a pending call first, is an honest run of the joined system |
| `ReplicationCatchUp.CatchesUp` | grapevine/src/subscriber/aggregator.rs:36-90 | from any reachable state of the incarnation, between calls or inside one, with the publisher quiet and the log unbroken to a buffered id, one call per id and the turns between them leave the replica at the publisher's state as of that id, with nothing pending |
| `ReplicationLimits.AgreesAfterRestart` | grapevine/src/publisher/mod.rs:136-138 | for every application, a replica that has reached the new incarnation is the publisher's state if the inherited deltas fold back to the default state; at the incarnation's start only then |
| `ReplicationLimits.JournalAgreesAfterRestartIff` | grapevine/src/publisher/mod.rs:136-138 | with an application that forgets nothing the two agree exactly when no delta was inherited, so no weaker condition on the log will do in general |
| `ReplicationLimits.RestartDiverges` | grapevine/src/publisher/mod.rs:136-138 | a run with a logged delta, a crash and a restart after which the caught-up replica is no state the restarted publisher has had |
| `ReplicationLimits.LateJoinerAgrees` | grapevine/src/subscriber/sequencer.rs:87-104 | for every application, a subscriber that starts inside an incarnation is the publisher's state if that was the default state before its first id; with nothing applied only then |
| `ReplicationLimits.TransientHoleEndsForwarding` | grapevine/src/subscriber/sequencer.rs:144-151 | a run with a faithful service and every stamped id logged in which a heartbeat logged ahead of a delta leaves a stream with a hole and ends the forwarding task |
| `OrderBooks.QuoteAggregate.ApplyDelta` | examples/src/order_book.rs:136-149 | adjusts a level in place with 32-bit wrap-around and says whether anything is left |
| `OrderBooks.Level1OrderBook.ApplyDelta` | examples/src/order_book.rs:156-187 | finds or makes the level, adjusts it in place and drops it when empty; every other level is untouched |
| `OrderBookSafety.InsertCrossesIff` | examples/src/order_book.rs:60-100 | a generated insert keeps the book uncrossed exactly when the best opposite price is not at the end of the range |
| `OrderBookSafety.ZeroSampleCrosses` | examples/src/order_book.rs:65-100 | a sample below one puts a sell at price zero, and whatever buy is sampled next crosses the book |
| `OrderBookSafety.ApplyPosts` | examples/src/order_book.rs:136-149 | when nothing wraps a delta changes exactly its own level, by its ledger entry |
| `OrderBookSafety.ApplyPostsModulo` | examples/src/order_book.rs:136-187 | every delta, wrapping or not, changes exactly its own level, by its entry modulo 2^32 |
| `OrderBookSafety.ApplyTouches` | examples/src/order_book.rs:136-187 | when the level of a delta is kept and how it is marked; every other level is as it was |
| `OrderBookSafety.HeldBackOnlyIfCrossing` | examples/src/order_book.rs:98-102 | a sample that does not cross is kept, one that would is moved right beside the best opposite price |
| `OrderBookSafety.InsertsIff` | examples/src/order_book.rs:75-97 | a side is inserted into exactly below 15 levels, with 1 to 99 |
| `OrderBookSafety.RemovesIff` | examples/src/order_book.rs:75-127 | a side is removed from exactly from 10 levels on, up to a whole level |
| `OrderBookSafety.GeneratedRunIsSafe` | examples/src/order_book.rs:60-131 | from any safe book a generated run keeps it safe, wraps nothing and follows the ledger |
| `OrderBookSafety.BookMatchesLedger` | examples/src/order_book.rs:60-187 | for every run with prices from 1 to 2^32 - 2 and at most 43383508 inserts: never crossed, at most 15 levels a side, positive quantities equal to inserts less removes, nothing wraps |
| `OrderBookReplication.HistoryIsPlayed` | examples/src/order_book.rs:60-131 | every state of a publisher that stamps generated deltas is the book its trades so far make of the empty one |
| `OrderBookReplication.ReplicatedBookIsSafe` | examples/src/order_book.rs:135-187 | over every honest run with generated deltas the replica has applied the publisher's first trades, and its book is never crossed, stays small and follows their ledger |

## Left out

- MinMaxHeaps.Insert: the binary heap is a sequence in pop order; which of several messages with one id pops first is left to the environment. The layout inside the standard heap is not modelled.
- PublisherSafety.DoKeepsInv: the methods of the senders wrap the counter at the largest 64-bit id, as release builds do; the transition system does not stamp there, so its theorems end with the last id.
- Publishing.Start: the recovery server and the heartbeat task are returned as objects, not run; when they run is a step of the transition system or of the joined system.
- ReplicationProgress.SnapshotConvergesIff: a faithful service sends its whole snapshot; a stream that breaks off in transit is covered by `ReachableConvergesIff`.
- MinMaxHeaps.MinMaxHeap.CountMissing: computes on unbounded integers; `GapTestFitsIff` says when the source's would overflow.
- MessageSequencers.MessageSequencer.Next: the wanted id is an unbounded integer; `WantFitsI64` says when the source's would overflow.
- Aggregation.Aggregator.Produce: the blocking receive is one turn taken when a delta or the end of the channel is there; the flag cleared before that wait is read by nobody else.
- Sockets, multicast set-up, gRPC plumbing and the UDP framing adapter: environment steps only.
- Protobuf itself: an abstract coding with a round-trip law; what a failed decode leaves in the buffer is a parameter.
- SQL and connection pools: a table with a unique id whose operations may fail without effect.
- The mock log, whose next id differs from the trait's intent, and subscriber persistence, which the sequencer never calls.
- The tree-state example, destructor channels, tracing, display code and time-stamp conversion: only easy members.
- Snapshots described in the repository's README: not in the code.
- Random sampling: the generator is a relation over side, action, sampled price and quantity.
- Unknown enumeration values in a quote delta, on which the source panics.
