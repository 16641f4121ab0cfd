# Verification of the scanner daemon

Dafny models of the parts of the scanner daemon that hold its protocols, transactions and bounded
queues, with proofs of what they promise. `dafny verify dfyconfig.toml` checks everything.

**Replacing destinations.** `Destinations` is the desired set and the preview of replacing it;
`Tables` the difference it rests on. `Runtime` is what a coordinator drives: sinks and publishers
that may fail at every step, with the effects of the router's attach and detach and a log of every
operation. Which operations fail is a fault pattern over that log, and which builds fail a factory;
both are arbitrary everywhere. `Candidates`, `Staging` and `Cleanup` are the phases of a
replacement, `Replacement` is the transaction as a function of the state with its outcome,
`Coordinator` the object that does it in place, `CoordinatorRuns` whole runs, `Invocations` the
order of its operations; `DaemonCoordinator` instantiates it.

**Ordered events.** `JsonText`, `Json`, `Payloads` and `Events` are the event envelope and its line
of JSON. `BoundedQueues` and `EventPublisher` are the publisher and its bounded subscriptions.
`Framing` and `EventClient` are the client. `EventStream` composes publisher, queue, server, byte
stream and client into one state machine, for any events and any encoding that lines survive, and
`EventProgress` says what it achieves; `EventDelivery` shows that the daemon's are such. `Analysis`
is the publisher without checkpoints.

**Audio.** `PcmBuffers` is the newest-audio buffer and the playback sink. `ChunkQueues`, `Origins`
and `AudioTraces` say what a bounded chunk queue does to a stream; `StreamSink` and `WavSink` are
the two sinks with a worker thread. `RouterBarrier`, `RouterCalls` and `RouterTransitions` are the
router's concurrency, step by step.

**Contracts.** `Configuration` resolves layered settings. `ApiHello` is what client and server agree
on first. `ControlParameters` and `ControlContract` follow one scanner control from the client's
arguments through the server's runtime, which may be any function of the control it is asked for,
to the decoded reply; `ControlResults` and `RuntimeSnapshots` are what the client checks of it.
`ControlMeaning` and `ServerDispatch` say what a call, a frame and a response mean, whoever sent it.

An operation is a method whose body is one lock region, or the code between two of them; what the
outside world decides is a parameter, or drawn with `*` where any choice will do. Ghost fields (`published`,
`trace`, `refused`, ...) record what a state alone would not show.

## Where the code does less than it seems to

- A failed replacement does not always restore the attached set, even if no step of its rollback
  raises. A committed sink that an earlier rollback failed to attach again is detached in vain, and
  the rollback attaches it. The set is restored under every pattern of failures if and only if,
  before the call, the sinks of all names the request replaces are attached
  (`CoordinatorRuns.RestoresIffReplacedAttached`; a run: `CoordinatorRuns.RunThatAttachesMore`).
- A `close`, or a replacement, may leave a sink running and report nothing about it. That is so if
  and only if the sink was running and either was not attached, because an earlier rollback failed
  to attach it again, or the router swallowed the error of its stop in this call
  (`CoordinatorRuns.CloseLeavesRunningIff`, `CoordinatorRuns.ReplaceLeavesRunningIff`; a run:
  `CoordinatorRuns.RunThatLeavesSinkRunning`). For a replacement it concerns left out names only.
- `detach` of a sink that is not attached returns without the barrier. A submission that captured
  the sink while its start was failing may still call it, exactly if it had captured it
  (`RouterBarrier.EarlyDetach`, `RouterBarrier.EarlyDetachMayCall`).
- An event whose strings hold a high surrogate directly before a low one does not decode to an
  equal event, because JSON reading joins the two (`Events.DecodedEqualIffClean`; an event:
  `Events.MisreadEvent`).
- A client sends controls of any length. A request over the server's limit, and a response over
  either side's, is answered without the request's identifier, or not accepted, and the client
  reports a protocol mismatch (`ControlContract.ReplyIsExpectedIffItFits`; a call:
  `ControlContract.LongCallMismatches`).

## Model

| member | source | states |
|---|---|---|
| `Destinations.MakeConfiguration` | src/sds200/daemon_destinations.py:303-332 | A configuration is constructed exactly when no two names are equal |
| `Destinations.ConstructionSorts` | src/sds200/daemon_destinations.py:303-332 | A constructed configuration lists its argument by strictly ascending names, with exactly the same entries |
| `Destinations.ConstructionIgnoresOrder` | src/sds200/daemon_destinations.py:303-332 | The order in which destinations are given makes no difference to what is constructed |
| `Destinations.ByNameInjective` | src/sds200/daemon_destinations.py:303-332 | Two configurations as construction leaves them are equal if they have the same name-to-destination table |
| `Destinations.MakeChange` | src/sds200/daemon_destinations.py:367-416 | A change entry is built exactly when its name is valid, before and after bear that name and at least one is present, and the action is what they amount to; it then carries them |
| `Destinations.PreviewEntry` | src/sds200/daemon_destinations.py:629-648 | For tables filed under their own valid names, no entry the loop builds trips the checks of its constructor |
| `Destinations.PreviewIsWellFormed` | src/sds200/daemon_destinations.py:441-453 | The preview of any two tables has ascending, unique names, so its constructor accepts it |
| `Destinations.PreviewReplacement` | src/sds200/daemon_destinations.py:602-650 | For all pairs of configurations the preview is built without an error, and is the exact difference of the two name tables |
| `Destinations.PreviewApplies` | src/sds200/daemon_destinations.py:602-650 | Applying the preview, entry by entry, to the current table yields the replacement |
| `Destinations.ChangedIffConfigurationsDiffer` | src/sds200/daemon_destinations.py:454-459 | `changed` is false exactly when the two configurations are equal |
| `Destinations.SwappedPreviewIsInverse` | src/sds200/daemon_destinations.py:602-650 | Swapping the arguments gives the preview with every change inverted |
| `Texts.SortedKeysSorted` | src/sds200/daemon_destinations.py:629 | Sorting a set of names gives them in strictly ascending order of code points |
| `Texts.SortedUnique` | src/sds200/daemon_destinations.py:303-332 | An ascending sequence is determined by its elements |
| `Texts.StripTakesBlanks` | src/sds200/configuration.py:198 | Stripping leaves a middle part with blanks around it, which does not itself begin or end in one |
| `Texts.StripOfPadded` | src/sds200/configuration.py:198 | It is determined by that |
| `Texts.LowerSpells` | src/sds200/configuration.py:198 | A text has a word of small letters as its lower case exactly if it spells it, each letter being small or capital or the Kelvin sign |
| `Texts.UpperSpells` | src/sds200/configuration.py:217 | A text has a word of capitals as its upper case exactly if it spells it, each letter being capital or small, or dotless i or long s |
| `Runtime.DaemonRuntime.AttachSink` | src/sds200/audio_sinks.py:512-553 | An attachment that returns leaves the sink attached, started if the router runs and it was not attached before, and otherwise running exactly if it was; one that raises leaves attached exactly what was, and running at most what ran before or what its own clean-up stop failed to stop |
| `Runtime.DaemonRuntime.DetachSink` | src/sds200/audio_sinks.py:555-574 | A detach that returns leaves the sink unattached, and untouched if it was so before; one that raises leaves it attached and running as it was |
| `Runtime.DetachStops` | src/sds200/audio_sinks.py:555-574 | After a detach-and-stop the sink runs if and only if it ran and the call raised, or it was not attached, or the router swallowed the error of its stop |
| `Staging.StageDestination` | src/sds200/daemon_destination_activation.py:483-505 | One staging round is the specified sequence of steps up to the first that raises, and records which of them were attempted |
| `Staging.StageOneStaged` | src/sds200/daemon_destination_activation.py:483-505 | After a round the candidate runs only as far as the recorded steps say and the previous sink is detached or untouched; if nothing raised, the candidate is attached, running and publishing in its place |
| `Staging.StageOneRaisesLast` | src/sds200/daemon_destination_activation.py:483-505 | Only the last operation of a round can raise |
| `Staging.StageAll` | src/sds200/daemon_destination_activation.py:477-506 | The staging loop handles added and replaced names in order and stops at the first step that raises |
| `Staging.UpToProgress` | src/sds200/daemon_destination_activation.py:477-506 | However far the loop came, every stage is for its own change, is as its record says whatever later stages did, and exactly one operation raised if the loop stopped early |
| `Staging.RollbackStage` | src/sds200/daemon_destination_activation.py:663-687 | Undoing a stage takes every recorded step back, whatever the other steps do |
| `Staging.UndoOneEffect` | src/sds200/daemon_destination_activation.py:663-687 | Undoing a stage leaves its candidate stopped and its previous sink attached and running again, except where a step of the undo failed |
| `Staging.RollbackAll` | src/sds200/daemon_destination_activation.py:658-688 | All stages are undone, last first, even when undo steps raise |
| `Staging.RollbackUndoes` | src/sds200/daemon_destination_activation.py:658-688 | After a rollback every stage is undone, whatever happened to the others, and nothing else was operated on |
| `Staging.UnreachedNeverOperated` | src/sds200/daemon_destination_activation.py:477-518 | Neither staging nor rollback invokes any operation on the resources of a change the loop did not reach |
| `Staging.ReachedChanges` | src/sds200/daemon_destination_activation.py:477-506 | The loop reaches added and replaced names only: all of them if nothing raised, and none behind the one whose step did |
| `Candidates.BuildUpToEnds` | src/sds200/daemon_destination_activation.py:469-475 | Either one fresh candidate exists for each added or replaced name, built from the requested entry, or the last build raised |
| `Candidates.CommitTable` | src/sds200/daemon_destination_activation.py:520-531 | The committed table keeps unchanged destinations, drops removed ones and takes the candidates for the rest |
| `Cleanup.CleanupResource` | src/sds200/daemon_destination_activation.py:690-740 | Both steps of a clean-up are taken, and each that raises is reported under its name and component |
| `Cleanup.CleanOneEnds` | src/sds200/daemon_destination_activation.py:690-740 | A cleaned-up sink runs on if and only if it ran and its clean-up was reported as failed, or it was to be detached and was not attached, or its stop was swallowed; a publisher exactly if it published and its stop was reported |
| `Cleanup.CleanAllEnds` | src/sds200/daemon_destination_activation.py:533-545 | Cleaning up many resources, last first, ends each of them so, operates on nothing else, and reports exactly the operations that raised |
| `Cleanup.ReportedIffRaised` | src/sds200/daemon_destination_activation.py:690-740 | A failure of a name and component is reported if and only if the operation on that very resource raised |
| `Replacement.RollbackKeepsNoLeak` | src/sds200/daemon_destination_activation.py:506-518 | After a rollback every committed destination is settled and nothing else runs, except where a step of its own failed |
| `Replacement.RollbackReattaches` | src/sds200/daemon_destination_activation.py:680-687 | A rollback in which nothing raised attaches everything that was attached, and besides at most sinks the request replaces |
| `Replacement.CommitKeepsNoLeak` | src/sds200/daemon_destination_activation.py:520-551 | After a commit and its clean-up exactly the committed resources run, except where a step of a resource failed |
| `Replacement.ReplaceOutcome` | src/sds200/daemon_destination_activation.py:447-551 | From any sound state, under any factory and any fault pattern: an exception has a reason, and leaves configuration and resources alone and, unless a rollback step raised, attached what was and at most some of what the request replaces; a return commits exactly the request, reports one change per name in the order visited, which applied give the request and contain a change exactly if it is another configuration, and reports exactly the operations that raised. Either way only resources the request concerns are ever operated on, and the state stays sound |
| `Replacement.CloseOutcome` | src/sds200/daemon_destination_activation.py:553-589 | A close empties the state, operates on nothing but what was held, reports exactly the operations that raised, and ends every resource as its failures say |
| `Coordinator.DestinationCoordinator.BuildCandidates` | src/sds200/daemon_destination_activation.py:469-475 | Candidates are built in order, without touching anything that runs, up to the first build that raises |
| `Coordinator.DestinationCoordinator.CleanUp` | src/sds200/daemon_destination_activation.py:533-545 | The clean-up of a replacement visits its removed and replaced names, last first, and only stops sinks that staging has already detached |
| `Coordinator.DestinationCoordinator.Replace` | src/sds200/daemon_destination_activation.py:447-551 | The in-place coordinator does what the function of its state does, and so has the outcome proved of it, the reported changes included; nothing leaks either way |
| `Coordinator.DestinationCoordinator.Start` | src/sds200/daemon_destination_activation.py:417-431 | The first start replaces the empty set by the initial configuration and reports what that changes; only its success makes the coordinator started; a later one reports the configuration as unchanged |
| `Coordinator.DestinationCoordinator.Close` | src/sds200/daemon_destination_activation.py:553-589 | Closing empties the coordinator for good; every step that raised is reported under its name and component, and a sink whose clean-up is not reported runs on only if it was not attached or its stop was swallowed |
| `CoordinatorRuns.After` | src/sds200/daemon_destination_activation.py:417-589 | After any sequence of starts, replacements and closes, from construction on and under any fault pattern, nothing leaks and the resources are those of the configuration |
| `CoordinatorRuns.RestoresIffReplacedAttached` | src/sds200/daemon_destination_activation.py:506-518 | Whatever builds and operations fail, a replacement that fails with no rollback step raising restores the attached sinks, if and only if the sinks of all names it replaces are attached before the call |
| `CoordinatorRuns.RunThatAttachesMore` | src/sds200/daemon_destination_activation.py:680-687 | From construction on, a start and two failing replacements end with a sink attached that was not before the second, although no step of its rollback raised |
| `CoordinatorRuns.CloseLeavesRunningIff` | src/sds200/daemon_destination_activation.py:553-589 | After a close, a sink whose clean-up was not reported as failed runs if and only if it ran before and either it was not attached, or the router swallowed the error of its stop |
| `CoordinatorRuns.ReplaceLeavesRunningIff` | src/sds200/daemon_destination_activation.py:533-551 | After a replacement the same holds of the sink of a name left out; the sink of a replaced name whose clean-up was not reported does not run |
| `CoordinatorRuns.RunThatLeavesSinkRunning` | src/sds200/daemon_destination_activation.py:553-589 | From construction on, a start, a failing replacement and a close that reports nothing end with a sink running |
| `Invocations.StagingInvokes` | src/sds200/daemon_destination_activation.py:477-506 | Staging invokes exactly the operations its records say, stage after stage |
| `Invocations.RollbackInvokes` | src/sds200/daemon_destination_activation.py:658-688 | A rollback takes back every recorded step, the last stage first, whatever raises |
| `Invocations.CleanAllInvokes` | src/sds200/daemon_destination_activation.py:690-740 | A clean-up invokes every step of every job in order, the publisher before the sink, whatever raises |
| `Invocations.HeldJobsLastFirst` | src/sds200/daemon_destination_activation.py:567-580 | A close visits its names in reverse order, and detaches every sink |
| `Invocations.RetiredJobsLastFirst` | src/sds200/daemon_destination_activation.py:533-545 | A replacement cleans up exactly the names it removes or replaces, in reverse order, detaching the sinks of the former and stopping those of the latter |
| `Invocations.CloseInvokes` | src/sds200/daemon_destination_activation.py:553-589 | A close invokes exactly the clean-up of all it holds |
| `Invocations.TransactionInvokes` | src/sds200/daemon_destination_activation.py:447-551 | A replacement invokes what its stages record and then either takes it back, the last stage first, or cleans up what it no longer needs; nothing else |
| `DaemonCoordinator.Create` | src/sds200/daemon_destination_activation.py:346-398 | A coordinator visiting destinations in ascending order of names starts with nothing configured |
| `DaemonCoordinator.ReplaceDestinations` | src/sds200/daemon_destination_activation.py:447-551 | A replacement of the daemon's destinations that returns reports exactly the preview of that replacement |
| `DaemonCoordinator.ReportsPreview` | src/sds200/daemon_destination_activation.py:459-462 | The difference of two configurations in the order of names is their replacement preview, and applying it yields the replacement |
| `JsonText.StringRoundTrip` | src/sds200/daemon_events.py:113-122 | Every string written with ASCII escapes is read back, its surrogate pairs joined to single characters (sections 7 and 8 of RFC 8259) |
| `JsonText.JoinedIffNoPair` | src/sds200/daemon_events.py:113-122 | A string is read back unchanged exactly when no high surrogate directly precedes a low one |
| `JsonText.IntegerRoundTrip` | src/sds200/daemon_events.py:113-122 | Every integer is read back as itself, whatever follows it |
| `Json.LoadsDumps` | src/sds200/daemon_events.py:113-122 | Reading what was written gives the JSON tree back, with surrogate pairs joined |
| `Json.RereadIffClean` | src/sds200/daemon_events.py:113-122 | A tree comes back unchanged exactly when none of its strings or keys holds a surrogate pair |
| `Json.PrintHasNoNewline` | src/sds200/daemon_events.py:113-122 | No written value contains a newline byte |
| `Payloads.FreezeThaw` | src/sds200/daemon_events.py:408-435 | Freezing a thawed payload gives the same frozen payload |
| `Payloads.FreezeIdempotent` | src/sds200/daemon_events.py:397-435 | Freezing is idempotent through thawing, for every value that can be frozen |
| `Payloads.FreezeIffMirrors` | src/sds200/daemon_events.py:397-424 | Freezing gives the tree of the same shape and leaves, of lists and tuples and of mappings with text keys alike, and fails exactly if there is none |
| `Events.MakeEvent` | src/sds200/daemon_events.py:47-82 | An event is made exactly of a non-negative sequence, an aware time, a clean kind and a JSON-compatible mapping, and carries them |
| `Events.DecodeEncode` | src/sds200/daemon_event_client.py:270-316 | Decoding an encoded event succeeds and gives that event, its surrogate pairs joined |
| `Events.DecodedEqualIffClean` | src/sds200/daemon_event_client.py:270-316 | The decoded event equals the encoded one exactly when none of its strings holds a surrogate pair |
| `Events.PairIsMisread` | src/sds200/daemon_event_client.py:270-316 | Any valid event with a surrogate pair appended to its kind is a valid event that decodes to another one |
| `Events.MisreadEvent` | src/sds200/daemon_event_client.py:270-316 | A valid event exists that does not decode to itself |
| `Events.DecodesIffEnvelope` | src/sds200/daemon_event_client.py:270-331 | A client decodes a frame to an event exactly if it is JSON with every field of that event, in the supported protocol and version; it refuses every other frame |
| `Events.LineHasOneNewline` | src/sds200/daemon_events.py:113-122 | The line of an event ends in its only newline |
| `BoundedQueues.EnqueueHolds` | src/sds200/daemon_events.py:197-214 | Publishing keeps the queue at: the waiting checkpoint in front, then exactly the newest events not yet delivered or dropped; one event is dropped exactly when the queue is full, never the checkpoint |
| `BoundedQueues.TakeHolds` | src/sds200/daemon_events.py:183-184 | What a reader takes is the waiting checkpoint, or else the event whose sequence is base + delivered + dropped + 1 |
| `EventPublisher.Subscription.Get` | src/sds200/daemon_events.py:160-192 | A delivered event is the checkpoint first, and then the published event with sequence base + delivered + dropped |
| `EventPublisher.Subscription.Enqueue` | src/sds200/daemon_events.py:197-214 | Keeps base + delivered + dropped + queued equal to the publisher sequence, within capacity; a closed subscription takes nothing |
| `EventPublisher.Distribute` | src/sds200/daemon_events.py:359-360 | Distributing an event keeps the law of every open subscription, now of the longer log |
| `EventPublisher.Publisher.Subscribe` | src/sds200/daemon_events.py:299-325 | A subscription starts with a checkpoint of the payload and time given, at the current sequence, and is refused exactly when closed, full, or the checkpoint is invalid or too large |
| `EventPublisher.Publisher.Publish` | src/sds200/daemon_events.py:327-362 | An accepted event carries the kind, payload and time given and the next sequence, and reaches every open subscription; a publish that is rejected, for its size or otherwise, changes nothing |
| `EventPublisher.Publisher.Close` | src/sds200/daemon_events.py:364-373 | Closing empties and closes every subscription |
| `Framing.ReadsLines` | src/sds200/daemon_event_client.py:163-201 | Whatever the stream, exactly its own lines are read, in order, up to the first that is over the limit with its newline, and reading fails exactly there |
| `Framing.EveryStreamIsLines` | src/sds200/daemon_event_client.py:163-201 | Every byte stream is such a sequence of lines and a tail |
| `EventClient.EventClient.ReadLine` | src/sds200/daemon_event_client.py:163-201 | However the bytes are chunked, the result is the next line of the stream or its exact failure, unless a receive fails, and then a lost connection; the buffer never exceeds the limit |
| `EventClient.EventClient.ValidateOrder` | src/sds200/daemon_event_client.py:203-233 | An event is accepted exactly when it is a first checkpoint with every required field, or follows the last one directly; otherwise nothing changes and the reason is exact |
| `EventClient.EventClient.Receive` | src/sds200/daemon_event_client.py:116-128 | Unless a receive fails, the result depends on the stream alone, not on its chunks; any error on a connection discards it, with its buffer and sequence |
| `EventStream.FrameIsNext` | src/sds200/daemon_event_server.py:339-378 | The line in the client's buffer is that of the next event the server sent |
| `EventStream.AcceptsExactly` | src/sds200/daemon_event_client.py:203-233 | In every reachable state the client accepts the next line exactly when it is a checkpoint it can start from or the event published directly after the last accepted one; otherwise it gives up |
| `EventStream.NextInv` | src/sds200/daemon_event_server.py:339-378 | Every step of publisher, queue, server, byte stream and client keeps the whole invariant |
| `EventStream.AcceptedIsCheckpointAndLog` | src/sds200/daemon_event_client.py:116-128 | In every state of every run the accepted events are the checkpoint and then exactly the events published next, with no gap, repeat or reorder |
| `EventStream.NoSilentLoss` | src/sds200/daemon_events.py:202-211 | Everything accepted on a connection was published before everything its queue dropped |
| `EventStream.SentAfterDrop` | src/sds200/daemon_events.py:202-211 | Once an event is dropped, every event sent is a later one, a waiting checkpoint aside |
| `EventStream.DropIsNoticed` | src/sds200/daemon_event_client.py:227-232 | The first event read after a drop makes the client give up the connection |
| `EventStream.SentLinesFit` | src/sds200/daemon_event_server.py:357-363 | The server puts no line on the wire that is over its own limit |
| `EventStream.AdmittedLinesFit` | src/sds200/daemon_events.py:384-394 | A client whose limit is at least the publisher's never finds a line too long |
| `EventProgress.TakeSendsIffItFits` | src/sds200/daemon_event_server.py:349-366 | The server gives the connection up for a line if and only if that is over its limit, and sends any other line |
| `EventProgress.ClientIsDecided` | src/sds200/daemon_event_client.py:163-201 | A reading client has exactly one thing to do: read a line, refuse a long one, or receive more |
| `EventProgress.EverythingArrives` | src/sds200/daemon_event_server.py:339-378 | While nothing is dropped and lines fit, the client can come to accept everything published so far, by steps of server, stream and client alone |
| `EventProgress.CatchesUpIffNothingDropped` | src/sds200/daemon_event_server.py:339-378 | In every reachable state with the connection up, the client reading and lines that fit, the client can come to accept everything published if and only if its queue has dropped nothing |
| `EventDelivery.DaemonSound` | src/sds200/daemon_event_server.py:339-378 | The daemon's events, JSON lines and client meet what the machine asks of them |
| `EventDelivery.ClientAgrees` | src/sds200/daemon_event_client.py:116-128 | Reading a line, refusing one for its length and reaching the end are each what `receive` comes to on the whole rest of the stream, with the same event or the same kind of error |
| `EventDelivery.DaemonDelivery` | src/sds200/daemon_event_server.py:339-378 | The end-to-end theorem for the daemon's own events |
| `EventDelivery.DaemonCatchesUpIffNothingDropped` | src/sds200/daemon_event_server.py:339-378 | The same of the daemon's own events |
| `EventDelivery.AcceptedIsPublished` | src/sds200/daemon_events.py:327-362 | Every event that the publisher makes and admits is published in the machine, in any state of the connection |
| `PcmBuffers.PushesCompose` | src/sds200/audio_sinks.py:856-871 | Two pushes are one push of both: the same newest bytes are kept and as many are lost |
| `PcmBuffers.PcmBuffer.Push` | src/sds200/audio_sinks.py:856-871 | The content becomes the newest bytes within the capacity, the result is exactly the number lost, and the content stays a suffix of everything pushed |
| `PcmBuffers.PcmBuffer.Pop` | src/sds200/audio_sinks.py:873-881 | Gives the oldest bytes in whole samples, all that was asked for unless the buffer runs out |
| `PcmBuffers.PcmBuffer.Clear` | src/sds200/audio_sinks.py:852-854 | Empties the buffer and forgets nothing of its accounts |
| `PcmBuffers.BufferedPlaybackSink.SetMuted` | src/sds200/audio_sinks.py:1236-1240 | Muting clears what is queued; the books stay balanced |
| `PcmBuffers.BufferedPlaybackSink.SubmitPcm` | src/sds200/audio_sinks.py:1242-1250 | Submitted = written + dropped + queued + cleared is kept; a muted sink takes nothing; an overflow is counted exactly when bytes are lost |
| `PcmBuffers.BufferedPlaybackSink.ReadPcm` | src/sds200/audio_sinks.py:1289-1304 | Every read has exactly the requested length, oldest bytes first, with zero bytes only once the buffer has run out; output keeps the order and sample alignment of the submissions |
| `PcmBuffers.BufferedPlaybackSink.Stop` | src/sds200/audio_sinks.py:1258-1287 | Stopping a started sink clears its buffer, whether or not the adapter closes |
| `Origins.DrawMore` | src/sds200/asterisk_moh.py:294-296 | Output drawn from later in the source keeps its origins strictly increasing and on the same half of a sample |
| `Origins.NothingMissing` | src/sds200/asterisk_moh.py:168-199 | Output as long as the part of the source it was drawn from is that part, byte for byte |
| `ChunkQueues.PushNewest` | src/sds200/asterisk_moh.py:183-198 | The new data, trimmed to its newest part, is queued after dropping the fewest oldest chunks that make room; the number of bytes lost is exact |
| `ChunkQueues.PushKeepsChunks` | src/sds200/asterisk_moh.py:183-198 | The queue stays a sequence of whole-sample pieces of the submitted stream in order |
| `AudioTraces.PushedAligned` | src/sds200/asterisk_moh.py:183-198 | Oldest-chunk drops and oversized-chunk trimming neither reorder audio nor shift its alignment |
| `AudioTraces.WrittenAligned` | src/sds200/asterisk_moh.py:294-296 | A partial write leaves the rest of the chunk in hand next in order and in step |
| `AudioTraces.DroppedAligned` | src/sds200/asterisk_moh.py:312-317 | Dropping what is left keeps the order of what was written |
| `StreamSink.PcmStreamSink.BeginStart` | src/sds200/asterisk_moh.py:136-139 | A sink is started once; from here on submissions are counted and queued, although no worker exists |
| `StreamSink.PcmStreamSink.FinishStart` | src/sds200/asterisk_moh.py:141-166 | With a prepared descriptor the worker runs; without one the sink has stopped, and what was queued meanwhile stays queued |
| `StreamSink.PcmStreamSink.SubmitPcm` | src/sds200/asterisk_moh.py:168-199 | Bytes are counted once the sink has been started, then queued, dropped because the reader closed, or refused, exactly as the flags say; the byte law is kept |
| `StreamSink.PcmStreamSink.Take` | src/sds200/asterisk_moh.py:246-255 | The worker takes the oldest chunk only when it holds none, and ends when a stop is requested |
| `StreamSink.PcmStreamSink.Write` | src/sds200/asterisk_moh.py:270-296 | Exactly the bytes the descriptor took leave the chunk in hand; every failure leaves it whole and leads to the right ending |
| `StreamSink.PcmStreamSink.DropRemaining` | src/sds200/asterisk_moh.py:312-317 | What is queued and in hand is counted as dropped, and nothing is left |
| `StreamSink.PcmStreamSink.End` | src/sds200/asterisk_moh.py:257-317 | Reader close, error and stop all end the worker with nothing queued or in hand |
| `StreamSink.PcmStreamSink.RequestStop` | src/sds200/asterisk_moh.py:206-213 | Only a sink with a worker is stopped |
| `StreamSink.NothingDropped` | src/sds200/asterisk_moh.py:168-317 | A worker that has ended after nothing was dropped or refused has written exactly what was submitted |
| `StreamSink.AnyRun` | src/sds200/asterisk_moh.py:136-317 | After any interleaving, submissions between the two halves of a start included: submitted = written + uncounted + dropped + queued + in hand + refused, output origins increase with equal parity; once the worker has ended nothing is queued or in hand and nothing more is written; after a start that failed what is queued stays so |
| `StreamSink.WorkerEnds` | src/sds200/asterisk_moh.py:206-317 | Once a stop is requested the worker ends within six of its own steps, whatever its writes come to |
| `WavSink.PcmuWavRecorder.WritePcm` | src/sds200/audio_recording.py:102-114 | A write fails exactly for incomplete samples, a closed recorder or an error of the file; it then changes nothing, and else appends the data and counts its samples |
| `WavSink.PcmWavSink.SubmitPcm` | src/sds200/audio_sinks.py:1519-1541 | Accepted data is queued at the cost of the oldest chunks; the byte law is kept |
| `WavSink.PcmWavSink.Take` | src/sds200/audio_sinks.py:1567-1573 | The worker ends only when a stop is requested and nothing is queued |
| `WavSink.PcmWavSink.Write` | src/sds200/audio_sinks.py:1574 | The recorder gets exactly the chunk in hand, or a failure leaves it and the recorder as they were |
| `WavSink.PcmWavSink.Fail` | src/sds200/audio_sinks.py:1577-1583 | A failed write loses exactly the chunk in hand and the queue |
| `WavSink.PcmWavSink.JoinWorker` | src/sds200/audio_sinks.py:1543-1555 | Once the worker has ended, the recorder holds, in order, what was submitted less what was dropped or lost, with half as many samples; if nothing was, it holds the submissions exactly |
| `WavSink.PcmWavSink.CloseRecorder` | src/sds200/audio_sinks.py:1556-1562 | The recorder is closed whatever failed, and the stop succeeds exactly if neither the worker nor the closing did |
| `WavSink.AnyRun` | src/sds200/audio_sinks.py:1519-1583 | Any interleaving keeps the laws, also when the sink is started again before its recorder is closed, and bytes are lost only when a write failed |
| `WavSink.WorkerEnds` | src/sds200/audio_sinks.py:1543-1583 | Once a stop is requested the worker ends by its own steps with nothing queued, whether or not writes fail |
| `RouterBarrier.NextInv` | src/sds200/audio_sinks.py:497-726 | Every step keeps waited-for subscribers unattached and outside the current submission |
| `RouterBarrier.StopNeverOverlapsSubmit` | src/sds200/audio_sinks.py:567-572 | In every interleaving a stop made by detach or by the router's stop overlaps no submission to that sink, begun or pending |
| `RouterBarrier.NotCalledAfterBarrier` | src/sds200/audio_sinks.py:567-569 | From the barrier on, no run without a new attachment calls the sink |
| `RouterBarrier.MayCallIffCaptured` | src/sds200/audio_sinks.py:576-589 | An unattached sink may be called again exactly when a submission has captured it |
| `RouterBarrier.DetachWaits` | src/sds200/audio_sinks.py:555-642 | A detach that finds the sink attached, and a stop of the running router, go through the barrier for it |
| `RouterBarrier.EarlyDetach` | src/sds200/audio_sinks.py:558-560 | A detach that finds the sink unattached changes nothing, and the sink may be called after it exactly when a submission had captured it |
| `RouterBarrier.EarlyDetachMayCall` | src/sds200/audio_sinks.py:654-676 | Such a run exists: the sink is captured while its failing start is under way |
| `RouterCalls.AttachedInOrder` | src/sds200/audio_sinks.py:579-584 | The records captured are the attached ones, each once, in the order they were made |
| `RouterCalls.SubmissionCallsAttached` | src/sds200/audio_sinks.py:576-616 | A submission calls exactly the sinks attached when it began, once each and in that order, whatever the lifecycle thread does meanwhile |
| `RouterCalls.LifecycleDoesWhatIsDue` | src/sds200/audio_sinks.py:497-642 | A lifecycle call, once it is over, has started and stopped exactly what was due, in order |
| `RouterCalls.DueAfterStart` | src/sds200/audio_sinks.py:497-510 | What is due after a start of the router is to start the attached sinks in the order of the records |
| `RouterCalls.DueAfterStop` | src/sds200/audio_sinks.py:618-642 | What is due after a stop of the running router is to stop the attached sinks, all detached now, in reverse |
| `RouterCalls.DueAfterAttach` | src/sds200/audio_sinks.py:512-553 | What is due after an attachment is to start the sink, if it was not attached and the router runs |
| `RouterCalls.DueAfterDetach` | src/sds200/audio_sinks.py:555-574 | What is due after a detachment is to stop the sink, if it was attached and stopping is asked for |
| `RouterCalls.NeverStuck` | src/sds200/audio_sinks.py:497-642 | Neither thread is ever stuck, but for waiting at the barrier while a submission is under way |
| `RouterTransitions.NextInv` | src/sds200/audio_sinks.py:741-792 | Emitted, in delivery and pending transitions together are always all those made, in order; a pending one always has a call that will emit it |
| `RouterTransitions.EmittedInOrder` | src/sds200/audio_sinks.py:741-792 | Transitions are emitted once each with sequences 1, 2, 3, ..., each starting in the state the subscriber's preceding one set |
| `RouterTransitions.NothingLeftPending` | src/sds200/audio_sinks.py:774-792 | Once every call has returned every transition made has been emitted |
| `RouterTransitions.OneEmitter` | src/sds200/audio_sinks.py:775-778 | At most one call emits at a time |
| `RouterTransitions.ChangeMakesTransition` | src/sds200/audio_sinks.py:741-772 | A change puts exactly its subscriber into the state asked for, by one transition with the next sequence, unless it is in that state already |
| `RouterTransitions.ReachedCallsCanReturn` | src/sds200/audio_sinks.py:774-792 | From every reachable state the calls under way can all return, by emission steps alone, and then every transition made has been emitted |
| `Configuration.NormalisedMeans` | src/sds200/configuration.py:154-227 | A value is accepted and comes out as it does exactly if: an integer at its minimum or above is unchanged, a number keeps its value, a text is the choice it spells in any case with any blanks around it, and a log file is the path of its text |
| `Configuration.ConstructMeans` | src/sds200/configuration.py:154-227 | Construction succeeds exactly with what all values mean, the delays being in order |
| `Configuration.Construct` | src/sds200/configuration.py:154-227 | Construction succeeds exactly on values whose fields are all acceptable with ordered delays, and treats each field on its own |
| `Configuration.DefaultsAreNormal` | src/sds200/configuration.py:140-152 | The built-in defaults are accepted and already normalised |
| `Configuration.NormalisedTwice` | src/sds200/configuration.py:154-227 | Normalising a normalised value changes nothing |
| `Configuration.ConstructTwice` | src/sds200/configuration.py:154-227 | A constructed configuration is accepted again as it is |
| `Configuration.OverlayNormalised` | src/sds200/configuration.py:417-424 | Overlaying a layer on normalised values is accepted, and comes out, as overlaying it on the raw ones does |
| `Configuration.ResolveLayer` | src/sds200/configuration.py:389-433 | One round reports exactly the first fault of its layer, or extends the resolution by it |
| `Configuration.Resolve` | src/sds200/configuration.py:374-435 | Succeeds exactly when no layer has a fault, judged on raw last-writer-wins values, with every field as its last writer means it and with that origin; otherwise reports the fault of the first layer that has one |
| `Configuration.LastWriterWins` | src/sds200/configuration.py:417-433 | Folding the layers gives each field the value and the origin of its last writer |
| `Configuration.LastWriterIsLast` | src/sds200/configuration.py:417-433 | No layer after the last writer sets the field |
| `Configuration.AcceptedIff` | src/sds200/configuration.py:389-429 | No layer has a fault exactly when sources strictly ascend, only known fields are set and every prefix merge is acceptable |
| `Configuration.ResolvedField` | src/sds200/configuration.py:431-435 | Each field resolves to what the value of the highest layer that sets it, or the default, means, with that origin |
| `Configuration.FaultSays` | src/sds200/configuration.py:389-429 | A layer is rejected as duplicate, out of order, with unsupported fields or with invalid values, for the first of these reasons that holds |
| `Configuration.SourcesAreRanked` | src/sds200/configuration.py:39-45 | The command line comes before the environment, that before the user file, and that before the system file |
| `BoundedQueues.EnqueueNewest` | src/sds200/analysis_subscriptions.py:193-203 | Without a checkpoint the queue keeps exactly the newest publications |
| `Analysis.AnalysisSubscription.Get` | src/sds200/analysis_subscriptions.py:159-188 | The delivered sequence is the sequence at subscription + responses delivered + the drop count reported with it, above every earlier delivery and every drop; overflows equal drops |
| `Analysis.AnalysisSubscription.Enqueue` | src/sds200/analysis_subscriptions.py:193-203 | A full queue loses exactly its oldest publication, which is recorded as the last one dropped |
| `Analysis.Distribute` | src/sds200/analysis_subscriptions.py:293-294 | Distributing a publication keeps the law of every open subscription, now of the longer log |
| `Analysis.AnalysisPublisher.Subscribe` | src/sds200/analysis_subscriptions.py:269-281 | A subscription starts at the current sequence, and is refused exactly when closed or full |
| `Analysis.AnalysisPublisher.Publish` | src/sds200/analysis_subscriptions.py:283-295 | Every open subscription gets the publication with the next sequence; a closed publisher changes nothing |
| `Analysis.AnalysisPublisher.Close` | src/sds200/analysis_subscriptions.py:297-305 | Closing empties and closes every subscription |
| `ControlParameters.StripJoined` | src/sds200/daemon_api.py:865-876 | Stripping and the joining of surrogates by JSON commute, so a delimiter check passes on both sides or on neither |
| `ControlParameters.TimeoutAgain` | src/sds200/daemon_client.py:583-600 | A timeout within the advertised maximum is within the server's, as the server reads it |
| `ControlParameters.ServerAcceptsParams` | src/sds200/daemon_api.py:634-682 | For all arguments, the parameters a client agrees to send pass the server's validation after JSON, and make it ask the runtime for exactly what the caller means |
| `ControlParameters.NavigationArrives` | src/sds200/daemon_api.py:778-823 | Target, first, second, count and timeout of a navigation call arrive as they were meant, and are accepted |
| `ApiHello.NamedByItsName` | src/sds200/daemon_api.py:38-56 | Every operation is named by its name and by no other operation's |
| `ApiHello.HelloIsClean` | src/sds200/daemon_api.py:718-751 | The hello of a server is the same after JSON, whatever it offers |
| `ApiHello.HelloIsAccepted` | src/sds200/daemon_client.py:772-887 | The hello of a server passes every check of the client, and advertises exactly the operations and limits of that server |
| `RuntimeSnapshots.SnapshotSurvives` | src/sds200/daemon_client.py:889-930 | A runtime snapshot that passes the client's check passes it after JSON |
| `ControlResults.ResultPasses` | src/sds200/daemon_client.py:704-750 | Every control result the runtime can construct passes the client's check after JSON |
| `ControlMeaning.ClientAgreesIffMeant` | src/sds200/daemon_client.py:197-361 | A client agrees to exactly the advertised calls whose arguments mean something, and asks for what they mean: the target or scope that is spelled, the values, the count and a timeout of the same value |
| `ControlMeaning.ServerAsksIffMeant` | src/sds200/daemon_api.py:634-716 | A server accepts exactly the parameters that mean something, with no others beside them, and asks its runtime for just that, with a default timeout and count for those left out |
| `ApiHello.AcceptedHelloSays` | src/sds200/daemon_client.py:772-887 | A hello that is accepted is of the client's protocol and version and says what the client keeps of it |
| `ControlResults.PassedResultReads` | src/sds200/daemon_client.py:704-750 | A result that passes the check is of the control asked for, with a positive sequence, aware times in order and a checked snapshot |
| `ServerDispatch.RequestIsDispatched` | src/sds200/daemon_api.py:449-539 | Whoever sends it, a frame with a well-formed request for an offered control is answered by what the runtime makes of that control |
| `ServerDispatch.OnlyRequestsAreDispatched` | src/sds200/daemon_api.py:449-539 | No other frame makes the answer depend on the runtime: it is asked for nothing else |
| `ServerDispatch.RefusalSaysWhy` | src/sds200/daemon_api.py:449-539 | A well-formed request of another protocol or version is refused under its own identifier with the code for that |
| `ServerDispatch.CarriedSaysWhy` | src/sds200/daemon_api.py:449-539 | A request of an unknown operation, one not offered or one with invalid parameters is refused with the code for that, and any other control is dispatched |
| `ServerDispatch.ValidIffMeant` | src/sds200/daemon_api.py:778-823 | Parameters are valid exactly if they mean some control |
| `ServerDispatch.MalformedIsInvalid` | src/sds200/daemon_api.py:214-304 | Every payload that is no request is answered as invalid, under its identifier if that is valid |
| `ServerDispatch.CompletedIff` | src/sds200/daemon_client.py:1032-1114 | A client takes a result from exactly the responses to its own request that carry one and no error |
| `ServerDispatch.RequestErrorIff` | src/sds200/daemon_client.py:1032-1114 | A client takes a typed error from exactly the responses to its own request that carry one, with code and message, and no result |
| `ServerDispatch.CodesDiffer` | src/sds200/daemon_api.py:83-101 | Different error codes have different names |
| `ControlContract.FromRequestFields` | src/sds200/daemon_api.py:214-304 | A well-formed envelope gives back the request it was made from |
| `ControlContract.RequestReachesDispatch` | src/sds200/daemon_api.py:449-539 | Any control request within the size limit passes every check, and is answered under its own identifier by what the runtime makes of the control the caller means |
| `ControlContract.DispatchedDecodes` | src/sds200/daemon_client.py:1032-1114 | The response to a dispatched request decodes as its result or its typed error |
| `ControlContract.AnonymousDecodes` | src/sds200/daemon_server.py:372-422 | A response without an identifier is a protocol mismatch to every client |
| `ControlContract.ReplyIffFits` | src/sds200/daemon_server.py:333-422 | A request the server would dispatch gets its own reply exactly when request and response fit the limits, and is otherwise a protocol mismatch |
| `ControlContract.ReplyIsExpectedIffItFits` | src/sds200/daemon_server.py:333-422 | A control request is answered under its identifier by the result, or the typed error, of the control the caller means exactly when request and response fit the limits, and is otherwise a protocol mismatch |
| `ControlContract.LongCallMismatches` | src/sds200/daemon_server.py:408-422 | Whatever the limit, the client agrees to send calls that are too long, and takes the answer for a mismatch |
| `ControlContract.ReadResponse` | src/sds200/daemon_client.py:437-485 | Unless a receive fails, a one-line response is read whole however it is chunked, or refused exactly for its length |
| `ControlContract.HelloIsAcceptedIffItFits` | src/sds200/daemon_client.py:124-143 | A hello sent to the server and read back tells the client exactly what the server offers, if both frames fit the limits, and is otherwise a protocol mismatch |
| `ControlContract.RuntimeResultIsCompleted` | src/sds200/daemon_client.py:322-333 | A result of the runtime for the control asked for is a proper outcome, and completes the call |
| `ControlContract.Exchange` | src/sds200/daemon_client.py:383-485 | An exchange is answered exactly if no operation on the socket fails, and then by what the server makes of the request; failing to connect and losing the connection are told apart |
| `ControlContract.SendHello` | src/sds200/daemon_client.py:124-143 | Unless an operation on the socket fails, a hello ends in an agreement on what the server offers if it fits the limits and in a mismatch if it does not, or is not sent because its identifier is too long |
| `ControlContract.DaemonApiClient.Negotiate` | src/sds200/daemon_client.py:124-143 | A hello is exchanged once per connection and agreed on if it fits, unless the connection fails; an agreement is remembered as long as the connection, and a mismatch or a failure disconnects |
| `ControlContract.DaemonApiClient.Submit` | src/sds200/daemon_client.py:322-435 | With a hello, the client refuses exactly the calls its checks exclude and loses exactly those in which an operation on the socket fails; the reply is the one of the contract, and a result that fails its check is a mismatch |
| `ControlContract.DaemonApiClient.Control` | src/sds200/daemon_client.py:197-361 | Wrong arguments are refused before anything is sent; the call is lost exactly if an operation on the socket fails, else hello and control end as the contract says, the check of the result included; a mismatch or a failure at either stage disconnects |

## Left out

- Sockets, descriptors, threads, clocks and join timeouts: which operations on a client's socket fail
  is an arbitrary pattern, how much a receive or write moves is left open, lock regions are steps,
  and waiting is a step that changes nothing.
- Stop paths in which a worker does not end in time: `StreamSink` closes the descriptor under the
  worker, as `stop` does then, but the error that `stop` raises is not part of the model.
- `BaseException`s other than ordinary exceptions in sinks, publishers and callbacks.
- The coordinator's forwarding of radio state to publishers, its unsubscribing, and its `preview`.
- The field checks of single destinations, apart from their names.
- The log lines of a coordinator, in which alone the failures of a rollback appear.
- Loading configuration files and environment variables into layers; `Path` keeps the text it was
  made from, and reals stand for floats.
- Case folding beyond ASCII, except the characters that fold to ASCII letters.
- Times are ISO 8601 texts in the form Python writes; whether their calendar date exists, and the
  other forms a decoder accepts, are not part of the model.
- Frames that are not ASCII, the literals `NaN` and `Infinity`, and Python's limit on the digits of
  an integer, when decoding JSON; none is ever written by an encoder of the daemon for events. That
  texts which are not JSON are refused is left to the standard library.
- A result that cannot be written as JSON, which the API server answers without an identifier.
- The operations of the API other than hello and controls, and the wording of its error messages.
- The point in time an ISO 8601 text stands for, by which a client compares the two times of a
  control result: it is a parameter (`ControlResults.Instants`), the same for both sides.
- How often the API server asks its runtime for a control it dispatches, and how its frames arrive in
  chunks: the answer to a frame is a function of that frame.
- Two stops of one WAV sink that wait for the same worker at the same time.
- The router's counters, health snapshots and timestamps, and its re-entrant lifecycle calls.
- Command line, terminal and web interfaces, MQTT, PortAudio and FFmpeg adapters, and the mu-law
  table.
- PcmBuffers.BufferedPlaybackSink.Start: does not model the adapter, only whether opening it succeeded.
- StreamSink.PcmStreamSink.CloseDescriptor: does not model when the stop gives up on the worker, so it may happen at any time after a stop request.
