# Radioify: verified models of the audio pipeline, the file commit and the transformations

This project models the parts of Radioify where correctness rests on an argument that spans functions,
threads or whole runs, and proves those arguments in Dafny. `dafny verify dfyconfig.toml` checks everything.

Each module follows one shape. A step or call of the source is a pure function on a state value, `Next` or
`Apply` chooses among the steps, `Executes` says that a list of steps leads from one state to another, and the
main results are lemmas about every such list. Beside them stands a class whose methods update fields and
arrays in place with the loops of the source; each method's postcondition says that its new state is the
function of its old state about which the lemmas speak. The table below names these methods where they have loops
or cut the work into blocks. The straight-line handlers of `PipelineTransition.Pipeline`, `SourceSeek.AudioState`,
`StreamReset.AudioState` and `WorkerTask.Task` have the same contracts and no rows.

## What is modelled

**The queued audio pipeline** (stream writer or decoder worker, decoded ring, DSP thread, processed ring, device
callback).

- `SpscAudioRing`: every copied cell and every store of a shared position is a step. A producer or consumer
  loads both positions in one step: of the two only the other side's can change meanwhile, so this is one
  remote load. One cell stands for one interleaved frame.
- `SpscAudioTimeline`: every single store of an append and every single load of a reader is a step, with any
  number of readers that may be stopped at any point.
- `QueuedAudio`: a chunk write is cut between its anchor and its frames, the DSP thread between reading and
  publishing a chunk, the callback between reading frames and popping anchors. Frames carry, as history, the
  write call they came from. A transport reset is one step and drops a chunk in hand, as the source does on its
  way to the reset.
- `PipelineTransition`, `SourceSeek`, `StreamReset`: the request, fade out, commit, fade in protocol, driven by
  seeks of a decoder worker and by stream resets. One call of the protocol is one step; the worker's
  begin-commit, backend seek and reset request are one step, finishing a commit and clearing the request are one
  step, and a DSP iteration is cut where the receiver runs. Before a replacement the owner of a stream cancels its
  resets, fades out and takes the commit for itself. `SourceSeek.LateFinishDropsRequestIff` says what a
  finer cut of the finish would cost.

**The recoverable multi-file commit** (`FileOutput`): the filesystem is a map from paths to contents, any
inspection, reservation, move or removal may fail, and a snapshot after every step that changes a file records
what a crash would leave.

**The receiver crossfade** (`RadioCrossfade`): the three-phase machine, the block loop, and the frame-by-frame
meaning the block loop is proved to have, with the fade in of the signal the receivers get. Receivers are a
parameter.

**Transformations**: the FLAC padding trim and block writer (`FlacExport`), the MIDI schedule and its playing
and seeking (`MidiSchedule`, `MidiPlayback`), the worker's commit and cancel barrier (`WorkerTask`), UTF-8
(`Utf8`, against section 4 of RFC 3629 and section 2 of RFC 2781) and the shell-open wire format
(`ShellOpenProtocol`). `Arithmetic`, `Options` and `Wrapping` hold what several modules share.

## Where a property fails

- Publishing a group again after a rollback that left a published member in place: it backs the published file up
  as if it were the previous one, and forgets the backup that holds the previous content. `FileOutput.PublishIsSafeIff`
  gives the exact condition under which a publish is safe for every pattern of failures, and
  `FileOutput.RepublishLosesPrevious` a run from begin to a publish that reports all destinations restored with a
  previous content lost. A first publish, a rollback and the retry in the destructor are safe.
- A timeline with 2C + 1 places for a ring of C frames never fills (`QueuedAudio.RunNeverAborts`), but no run started
  by the program needs them all. The processed timeline needs 2T + 1, T being how far the DSP thread works ahead
  (`QueuedAudio.ProcessedPeakIsReached`), so 2C + 1 is exact only if T is the capacity, and both callers ask for less
  (`QueuedAudio.StartedPeaks`). The decoded one needs C + min(2048, C, T) + 1 (`QueuedAudio.DecodedPeakIsReached`).
- A cancellation that a worker task accepts after run() has checked the flag ends as Failed
  (`WorkerTask.LateCancelEndsFailed`); `WorkerTask.EndsCancelledIff` says when a task ends as Cancelled.
- MIDI controller 121 forgets the sustain pedal without releasing the voices it holds; lifting the pedal then
  frees nothing (`MidiPlayback.PedalUpFreesIff`, `MidiPlayback.ResetControllersStrands`, and from a fresh decoder
  `MidiPlayback.NoteIsStranded`). Nothing else does (`MidiPlayback.PedalNeverStrands`).
- A held MIDI note never comes down to its sustain level: attack and decay are both applied in every frame, and the
  attack is always the faster one (`MidiPlayback.HeldNoteNeverDecays`). `MidiPlayback.SustainHoldsIff` says for which
  rates a voice would keep its sustain level.
- One branch of the crossfade is dead: a fade out never reaches dry while its own receiver is wanted again
  (`RadioCrossfade.Ok`, kept by `RadioCrossfade.FrameKeepsOk` and `RadioCrossfade.EnterKeepsOk`).

## Model

| member | source | states |
|---|---|---|
| SpscAudioRing.StepKeepsInv | audio/spsc_audio_ring.cpp:16-79 | each step of either thread keeps the live cells, the history and the occupancy bound, and moves positions forward only |
| SpscAudioRing.RunIsFifo | audio/spsc_audio_ring.cpp:40-79 | over every interleaving, occupancy stays within capacity and every passed position was discarded or delivered exactly the frame published there |
| SpscAudioRing.CopiesAreDisjoint | audio/spsc_audio_ring.cpp:40-79 | a cell being filled and a cell being copied out are never the same cell |
| SpscAudioRing.ConsumedIsPrefixOfProduced | audio/spsc_audio_ring.cpp:40-79 | without discards the consumed stream is a prefix of the produced stream, across wrap-around |
| SpscAudioRing.StepRefinesQueue | audio/spsc_audio_ring.cpp:16-79 | each step is a push, a pop, a clear or nothing of an unbounded queue |
| SpscAudioRing.WriteRuns | audio/spsc_audio_ring.cpp:40-59 | from every reachable state a producer that goes on adds as much of its input as fits, in order, whatever the consumer is in the middle of |
| SpscAudioRing.ReadRuns | audio/spsc_audio_ring.cpp:61-79 | and a consumer that goes on delivers as many of the oldest frames as it may |
| SpscAudioRing.LiveWindowIsQueue | audio/spsc_audio_ring.cpp:21-26 | between the positions the cells hold exactly that queue |
| SpscAudioRing.FilledWindow | audio/spsc_audio_ring.cpp:47-57 | the two-part copy appends the input to the window and spares what is live |
| SpscAudioRing.TwoPartReadIsWindow | audio/spsc_audio_ring.cpp:67-76 | the two-part copy out delivers the oldest frames in order |
| SpscAudioRing.Ring.WriteSome | audio/spsc_audio_ring.cpp:40-59 | queues as many input frames as fit, in order, and says how many |
| SpscAudioRing.Ring.ReadSome | audio/spsc_audio_ring.cpp:61-79 | takes the oldest frames off the queue, touching no other output |
| SpscAudioRing.Ring.BufferedFrames | audio/spsc_audio_ring.cpp:21-26 | the number of queued frames |
| SpscAudioRing.Ring.DiscardBufferedFrames | audio/spsc_audio_ring.cpp:16-19 | empties the queue by moving the read position only |
| SpscAudioTimeline.AnswersAreNeverTorn | audio/spsc_audio_timeline.cpp:25-115 | over every interleaving of single stores and loads, an answer is one appended anchor, and the one its query asks for |
| SpscAudioTimeline.QueryRuns | audio/spsc_audio_timeline.cpp:42-115 | from every reachable state a query during which no position moves finds its answer in the first attempt, even with the writer stopped in the middle of an append, and fails only if there is none |
| SpscAudioTimeline.RetriesOnlyIfOvertaken | audio/spsc_audio_timeline.cpp:42-115 | an attempt is given up only if the consumer has moved on since it began, and a query fails only after four of them or if there is nothing to find |
| SpscAudioTimeline.AppendRuns | audio/spsc_audio_timeline.cpp:25-40 | from every reachable state an append that goes on adds its anchor exactly if there is room |
| SpscAudioTimeline.PopRuns | audio/spsc_audio_timeline.cpp:93-101 | and a pop takes the oldest one |
| SpscAudioTimeline.SnapshotIsWhole | audio/spsc_audio_timeline.cpp:103-115 | equal sequence values around the field loads mean that all three fields are of the anchor at that position |
| SpscAudioTimeline.StoreOk | audio/spsc_audio_timeline.cpp:25-40 | no single store of an append breaks what published sequence values promise |
| SpscAudioTimeline.StoreKeepsReader | audio/spsc_audio_timeline.cpp:25-40 | no single store of an append falsifies what any reader has loaded so far, unless that reader will notice |
| SpscAudioTimeline.LiveAnchorsStayReadable | audio/spsc_audio_timeline.cpp:25-40 | an append never overwrites a live anchor |
| SpscAudioTimeline.ConfirmedAnswerIsLive | audio/spsc_audio_timeline.cpp:43-91 | an answer lies between the positions when its last load confirms it |
| SpscAudioTimeline.StepKeepsInv | audio/spsc_audio_timeline.cpp:13-115 | every step of writer, consumer and readers keeps all of this |
| SpscAudioTimeline.AppendedWindow | audio/spsc_audio_timeline.cpp:25-40 | an append extends the live anchors by one at the end |
| SpscAudioTimeline.AnchorTimeline.Append | audio/spsc_audio_timeline.cpp:25-40 | appends exactly when there is room, and otherwise changes nothing |
| SpscAudioTimeline.AnchorTimeline.Peek | audio/spsc_audio_timeline.cpp:43-61 | the anchor at an offset from the front, or none |
| SpscAudioTimeline.AnchorTimeline.FindAnchorForFramePosition | audio/spsc_audio_timeline.cpp:64-91 | the last anchor that no earlier later-positioned anchor precedes: the one that governs the frame |
| SpscAudioTimeline.AnchorTimeline.PopFront | audio/spsc_audio_timeline.cpp:93-101 | removes the front anchor, or reports that there is none |
| SpscAudioTimeline.AnchorTimeline.ReadSlot | audio/spsc_audio_timeline.cpp:103-115 | reads an anchor exactly when its slot still carries that position |
| SpscAudioTimeline.AnchorTimeline.DiscardAnchors | audio/spsc_audio_timeline.cpp:13-16 | leaves no live anchor |
| QueuedAudio.RunNeverAborts | audio/queued_audio_source.cpp:53-58 | however writer, DSP thread, callback and resets interleave, no timeline with 2C + 1 places for a ring of C frames ever fills, so abort() is unreachable: with a DSP target of T frames the processed one never holds more than 2T + 1 anchors and the decoded one never more than C + min(2048, C, T) + 1 |
| QueuedAudio.DecodedPeakIsReached | audio/queued_audio_source.cpp:304-309 | for every two rings and every target T up to the processed capacity some run holds C + min(2048, C, T) + 1 decoded anchors at once |
| QueuedAudio.ProcessedPeakIsReached | audio/queued_audio_source.cpp:264-309 | for every two rings and every target T up to the processed capacity some run holds 2T + 1 processed anchors at once, whatever the capacity |
| QueuedAudio.StartedPeaks | audio/playback_source_priming.cpp:5-14 | with the rings and targets a file or a stream of any rate is started with, the processed timeline always has places to spare and the decoded one never holds more than 6145 anchors of its 8193 |
| QueuedAudio.AudioState.FramesToProcess | audio/queued_audio_source.cpp:262-309 | the DSP thread reads the most that decoded frames, room, target and its own buffer allow, and waits exactly if that is nothing |
| QueuedAudio.DecodedHasRoom | audio/queued_audio_source.cpp:437-446 | the decoded timeline has room whenever the decoded ring has |
| QueuedAudio.ProcessedHasRoom | audio/queued_audio_source.cpp:193-232 | the processed timeline has room for all anchors one chunk re-issues |
| QueuedAudio.ClockIsWithinTwoMicros | audio/output_callback.cpp:47-72 | less what the device still holds back, the callback's time for a timestamped frame j is p + floor(j * 10^6 / r) or at most two microseconds before it, with that write's serial, however the stream was cut; with the ring drained it is the time at which the last delivered frame ends |
| QueuedAudio.DrainedFrontTells | audio/output_callback.cpp:47-63 | with the ring drained the front anchor is the one that governs the last frame |
| QueuedAudio.MicrosSplit | audio/queued_audio_source.cpp:44-51 | splitting a duration loses at most one microsecond |
| QueuedAudio.RebaseTells | audio/queued_audio_source.cpp:202-223 | re-issuing an anchor at a chunk start costs at most one microsecond |
| QueuedAudio.IssuedCovers | audio/queued_audio_source.cpp:202-223 | after a chunk's anchors are re-issued, each of its frames is still governed by its own write's anchor |
| QueuedAudio.FrontTells | audio/output_callback.cpp:47-63 | after the pops the front anchor is the one that governs the read position |
| QueuedAudio.StepKeepsInv | audio/queued_audio_source.cpp:193-446 | every step keeps the window bound and the governing anchors of all buffered frames |
| QueuedAudio.ChunkStepsQueueChunk | audio/queued_audio_source.cpp:396-446 | the two steps of a chunk write queue one anchor and its frames |
| QueuedAudio.AudioState.RetireDecoded | audio/queued_audio_source.cpp:196-200 | pops exactly the anchors behind the governing one |
| QueuedAudio.AudioState.ReissueAnchors | audio/queued_audio_source.cpp:202-223 | appends the rebased anchors of the chunk in order, and aborts exactly when they do not fit |
| QueuedAudio.AudioState.PublishProcessedAudio | audio/queued_audio_source.cpp:193-232 | performs the publish step of the protocol |
| QueuedAudio.AudioState.UpdateStreamClock | audio/output_callback.cpp:47-76 | pops up to the read position, reads the clock off the front anchor, takes the device delay off it, and announces it only if there was an anchor |
| QueuedAudio.WriteOnQueues | audio/queued_audio_source.cpp:374-457 | whatever others do to the queue between its chunks, a blocking or non-blocking call queues its frames in order without gap or repetition, in room that is there and under its own time stamps; the count it reports is right, all frames if it may block; only a stop, a transition, another serial or a discard threshold ends it otherwise |
| QueuedAudio.TurnComesTo | audio/queued_audio_source.cpp:388-446 | what each turn under the lock comes to, by what it finds: refused, superseded, dropped exactly if a threshold is set and the chunk has no time or an earlier one, waiting or done exactly if there is no room, and otherwise as many frames as fit |
| QueuedAudio.QueuedInTime | audio/queued_audio_source.cpp:410-418 | over a whole call no chunk that starts before the discard threshold of its turn enters the queue |
| QueuedAudio.WriteAnswers | audio/queued_audio_source.cpp:356-457 | what the caller is told, by how the call ended: refusal, acceptance with nothing queued, the frames queued, or all of them if they were dropped |
| QueuedAudio.AudioState.WriteChunk | audio/queued_audio_source.cpp:398-449 | one turn under the queue lock: its tests in their order, the threshold, and one chunk behind its anchor |
| QueuedAudio.AudioState.Write | audio/queued_audio_source.cpp:356-457 | the loop of turns is the run of the lemma, waits included, and tells the caller what its end calls for |
| PipelineTransition.GainAt | audio/pipeline_transition.cpp:129-175 | the gain of any later frame of a fade in depends only on its place in the whole ramp |
| PipelineTransition.RequestSupersedes | audio/pipeline_transition.cpp:51-127 | after a new request no commit can be finished or begun before the callback has faded out for it, and the one that then begins is the newest |
| PipelineTransition.RequestBegins | audio/pipeline_transition.cpp:129-160 | a requested fade in begins anew from silence, whatever was left of an earlier one |
| PipelineTransition.BlocksJoin | audio/pipeline_transition.cpp:129-175 | cutting the frames into blocks does not change the ramp |
| PipelineTransition.FadeInStepsAreEqual | audio/pipeline_transition.cpp:129-175 | a fade in rises to 1 in equal steps and stays there |
| PipelineTransition.FadeOutStepsAreEqual | audio/pipeline_transition.cpp:203-221 | a fade out falls to silence in equal steps and stays there |
| PipelineTransition.FadeOutEndsSilent | audio/pipeline_transition.cpp:203-221 | the last frame of a fade out and every frame after it are silent, whatever the sample |
| PipelineTransition.ApplyFadeIn | audio/pipeline_transition.cpp:129-175 | scales each frame of a block by the ramp's gain for it, and leaves the rest of the ramp for the next block |
| PipelineTransition.FadeOutToSilence | audio/pipeline_transition.cpp:203-221 | scales each sample by the falling gain of its frame |
| SourceSeek.NoStaleAudioSurvivesASeek | audio/queued_audio_source.cpp:115-135 | over every run, idle means no seek is requested and every frame in both rings and in hand was decoded after the newest seek, which went to the frame of the piece nearest to what the user asked for, and at or behind it |
| SourceSeek.SeeksCanBeServed | audio/queued_audio_source.cpp:115-342 | no reachable state is a dead end: without further requests the threads can always come to rest with the newest seek carried out, and with one that has yet to be committed at the frame nearest to what was asked for |
| SourceSeek.AudioFlows | audio/queued_audio_source.cpp:193-446 | at rest, and while a commit is being primed, what the worker decodes passes in order through both rings; the callback takes it once no commit is waited for |
| SourceSeek.ClampedIsNearest | audio/audioplayback.cpp:629-635 | a request is for the frame of the piece nearest to what was asked for |
| SourceSeek.RequestStopsOldAudio | audio/queued_audio_source.cpp:342-354 | from a request to its reset the worker gives up what it has in hand and the DSP thread takes nothing new |
| SourceSeek.RequestsEndServed | audio/queued_audio_source.cpp:166-191 | a request stays pending until a primed finish of a commit that served that very request |
| SourceSeek.PrimedCommitFinishes | audio/queued_audio_source.cpp:166-191 | and a primed iteration does finish it |
| SourceSeek.ResetIsRequestedForCurrentCommit | audio/queued_audio_source.cpp:565-576 | the worker asks for a transport reset only while its commit is of the newest request |
| SourceSeek.LateFinishDropsRequestIff | audio/audioplayback.cpp:60-66 | were the finish cut from its test, a request would be lost exactly when it also faded out in between |
| SourceSeek.StepKeepsInv | audio/queued_audio_source.cpp:706-835 | every step of user, callback, worker and DSP thread keeps this |
| SourceSeek.AudioState.WriteSome | audio/queued_audio_source.cpp:342-354 | writes only while the transition allows it, and otherwise gives up the rest |
| StreamReset.ResetsAreNotLost | audio/queued_audio_source.cpp:137-164 | over every run, idle means that the newest announced reset is the one applied, with its serial, or that the owner has cancelled it |
| StreamReset.CancelledResetsAreNotApplied | audio/queued_audio_source.cpp:635-642 | once the owner has cancelled the resets to replace the playback, no commit, begun or to come, changes the stream |
| StreamReset.ResetsCanBeServed | audio/queued_audio_source.cpp:137-342 | no reachable state is a dead end: unless the playback is being replaced, the threads can always carry out the newest recorded reset and come to rest in its stream |
| StreamReset.AudioFlows | audio/queued_audio_source.cpp:193-446 | at rest, what a writer of the stream writes passes in order through both queues to the callback, and a writer of another stream is turned away |
| StreamReset.OnlyPrimedCommitsFinish | audio/queued_audio_source.cpp:166-191 | a commit ends only in a primed iteration of the DSP thread, as the newest one |
| StreamReset.DrainTakesCommit | audio/audioplayback.cpp:84-110 | before a replacement the owner can always take the commit for itself |
| StreamReset.RequestStopsOldAudio | audio/queued_audio_source.cpp:241-335 | until a reset is committed the DSP thread takes nothing new, and it drops what it has in hand once the reset can begin |
| StreamReset.StreamsAreNotMixed | audio/queued_audio_source.cpp:388-446 | in every reachable state every buffered frame, anchor, chunk in hand and half-done write is of the current stream |
| StreamReset.GenerationsAdvanceByCommit | audio/queued_audio_source.cpp:137-164 | resets are applied in order, and the serial changes only with the commit that carries it |
| StreamReset.StepKeepsInv | audio/queued_audio_source.cpp:137-446 | every step of owner, writer, callback and DSP thread keeps this, the drain before a replacement (audio/audioplayback.cpp:84-110) among them |
| FileOutput.PublishIsSafe | core/file_output.cpp:424-495 | for any pattern of failures, in a first publish or a later one that finds no published member in place of a previous file: after every single step each previous content is at its destination or its recorded backup until all members are published; true means every staged content is in place; a failure reported as restored left every destination as before; no other path changes |
| FileOutput.PublishIsSafeIff | core/file_output.cpp:424-495 | a publish is safe for every pattern of failures if and only if no member that replaces is still published at a destination that exists, which the test at lines 431-441 would show before the call |
| FileOutput.PublishSucceedsIff | core/file_output.cpp:424-495 | a publish that nothing disturbs succeeds if and only if every staging file is there and no destination to be created is; it then leaves nothing but the published files, and otherwise reports everything restored |
| FileOutput.RollbackIsSafe | core/file_output.cpp:390-422 | from any point of a commit, no step of a rollback loses a previous content and success restores every destination |
| FileOutput.BackupIsPutBack | core/file_output.cpp:390-422 | a rollback puts a backup back even over a published file it could not remove |
| FileOutput.DiscardIsSafe | core/file_output.cpp:497-514 | the destructor retries the rollback and deletes only staging files and unused reservations, never the only copy |
| FileOutput.RetryRestores | core/file_output.cpp:497-514 | once failures are over, discarding restores everything |
| FileOutput.DiscardLeavesNothing | core/file_output.cpp:497-514 | with nothing failing, giving up leaves no staging file, backup or reservation behind |
| FileOutput.BeginIsSafe | core/file_output.cpp:293-350 | a group begins only with distinct destinations, a staging file each and none in place for CreateNew, and touches no caller-visible file either way |
| FileOutput.BeginSucceedsIff | core/file_output.cpp:293-350 | with nothing failing, a group begins if and only if its destinations are some, distinct and, where they are to be created, not there; if it does not, no file is left behind |
| FileOutput.RepublishLosesPrevious | core/file_output.cpp:293-495 | a run from an empty group: begin, write, a publish whose failures leave a member in place, and a publish that reports every destination restored with the previous content gone |
| FileOutput.BackUpFromOk | core/file_output.cpp:431-468 | the backup phase keeps every previous content recoverable after each step |
| FileOutput.StageFromOk | core/file_output.cpp:470-483 | the publishing phase does too, and publishes members in order |
| FileOutput.CleanFromOk | core/file_output.cpp:485-494 | backups are deleted only with every member published, and the published contents stay |
| FileOutput.ReserveIsFresh | core/file_output.cpp:83-110 | a reservation creates an empty file under a name that did not exist and touches nothing else |
| FileOutput.OneHundredNames | core/file_output.cpp:83-110 | with nothing failing, a reservation gives up exactly when one hundred names in a row are taken |
| FileOutput.TransactionGroup.MovePath | core/file_output.cpp:130-154 | moves a content, refusing an existing destination unless it replaces, or changes nothing |
| FileOutput.TransactionGroup.ReserveTemporarySibling | core/file_output.cpp:83-110 | tries one hundred names before it gives up |
| FileOutput.TransactionGroup.RollbackAll | core/file_output.cpp:390-422 | the loop from the last member to the first is the rollback of the lemmas |
| FileOutput.TransactionGroup.PublishAll | core/file_output.cpp:424-495 | the three loops are the publish of the lemmas |
| FileOutput.TransactionGroup.DiscardAll | core/file_output.cpp:497-514 | the destructor's loop is the discard of the lemmas |
| FileOutput.TransactionGroup.BeginAll | core/file_output.cpp:293-350 | the loop over the destinations is the begin of the lemmas |
| RadioCrossfade.RunIsClickFree | audio/radio_playback.cpp:103-162 | over any calls and mode requests, neighbouring frames differ by at most 1/N of the mix, and a receiver not heard before enters at mix 0 and freshly reset |
| RadioCrossfade.SplitsDoNotMatter | audio/radio_playback.cpp:124-161 | one call of n + m frames leaves the state, receivers, mixes and resets of calls of n and of m |
| RadioCrossfade.RequestIsMet | audio/radio_filter_transition.cpp:18-65 | within two fade lengths of a request, whatever came before, the crossfade rests on it |
| RadioCrossfade.SampleIsLinear | audio/radio_filter_transition.cpp:90-122 | a frame lies on the line from the dry signal at mix 0 to the receiver's at full mix |
| RadioCrossfade.NewReceiverEntersUnheard | audio/radio_filter_transition.cpp:90-122 | the first frame of a receiver not heard before is the dry signal |
| RadioCrossfade.FirstFrameResetIff | audio/radio_playback.cpp:108-122 | the first frame of a call is reset exactly for a new reset generation or a receiver that was not active |
| RadioCrossfade.NewGenerationResets | audio/radio_playback.cpp:108-128 | over any run, from the call that sees a new reset generation on no receiver is heard before it has been reset, however long the signal stays dry |
| RadioCrossfade.ProcessKeepsBetween | audio/radio_playback.cpp:103-162 | no call leaves a fade at full wet |
| RadioCrossfade.BlockIsPositive | audio/radio_playback.cpp:133-142 | the block assertion holds, by that invariant |
| RadioCrossfade.EnterKeepsOk | audio/radio_filter_transition.cpp:18-65 | retargeting and committing keep the machine's invariant and aim at the requested mode |
| RadioCrossfade.FrameKeepsOk | audio/radio_filter_transition.cpp:90-122 | so does every frame |
| RadioCrossfade.ProcessSmooth | audio/radio_playback.cpp:103-162 | one call is smooth and joins whatever frame came before it |
| RadioCrossfade.BlockFrames | audio/radio_filter_transition.cpp:75-122 | up to its boundary a fade is a straight line |
| RadioCrossfade.RadioPlayback.Blend | audio/radio_filter_transition.cpp:90-122 | mixes each frame of the block by the line and leaves the rest of the buffer |
| RadioCrossfade.RadioPlayback.ProcessBlock | audio/radio_playback.cpp:131-160 | one positive block of at most the scratch size fades its input in and renders exactly the frames it stands for |
| RadioCrossfade.RadioPlayback.ProcessBlocks | audio/radio_playback.cpp:124-161 | the block loop has the frame-by-frame meaning, receiver resets and the input's fade in included |
| RadioCrossfade.RadioPlayback.ProcessAll | audio/radio_playback.cpp:103-162 | so has a whole call, with the reset generation it applies and the ramp it leaves |
| RadioCrossfade.FadeInDoesNotSeeSplits | audio/radio_playback.cpp:113-146 | cutting a call in two changes neither the ramp left over nor the gain of any frame that reaches a receiver |
| FlacExport.ExportDelivers | audio/audio_export.cpp:92-135 | a successful export wrote decoded[initialPadding .. n - trailingPadding], quantised, in blocks of the encoder's frame size but for the last, with running time stamps |
| FlacExport.ExportSucceedsIff | audio/audio_export.cpp:146-153 | with nothing failing, there is output exactly when something is left between the paddings |
| FlacExport.ExportedIff | audio/audio_export.cpp:92-153 | for any pattern of encoder failures, an export succeeds if and only if the source was decoded to its end, nobody cancelled, something is left between the paddings, and neither one of the blocks it takes nor the encoder's end nor the trailer fails |
| FlacExport.ResultTells | audio/audio_export.cpp:98-150 | with an encoder that never fails, the result tells which event ended the export |
| FlacExport.ReadSizesDoNotMatter | audio/audio_export.cpp:92-135 | the blocks do not depend on how the decoder cut the stream |
| FlacExport.FileIsUnique | audio/flac_writer.cpp:126-147 | frames and block size leave no freedom in the blocks |
| FlacExport.WriteAccepts | audio/flac_writer.cpp:231-242 | whatever is written in whatever pieces, blocks and waiting frames together are all of it, despite compaction |
| FlacExport.FinishCompletes | audio/flac_writer.cpp:244-275 | finishing adds the short last block, completes the file and empties the buffer |
| FlacExport.BufferIsBounded | audio/flac_writer.cpp:126-147 | however much is written, fewer than five blocks stay in the buffer |
| FlacExport.QuantisedIsFaithful | audio/flac_writer.cpp:113-121 | every sample becomes a 32-bit value off by at most half a step, halves away from zero; out-of-range saturates, not-finite is silence, sign is symmetric |
| FlacExport.FlacWriter.EncodeBlock | audio/flac_writer.cpp:92-124 | stamps and quantises one block, and moves the stamp on even when the encoder refuses it |
| FlacExport.FlacWriter.DrainCompleteFrames | audio/flac_writer.cpp:126-147 | encodes every whole block and compacts what is left |
| FlacExport.FlacWriter.Write | audio/flac_writer.cpp:231-242 | refuses a finished file, and queues and drains otherwise |
| FlacExport.FlacWriter.FinishFile | audio/flac_writer.cpp:244-275 | encodes what is left, ends the encoder and writes the trailer, or fails |
| FlacExport.AudioExport.ConsumeFrames | audio/audio_export.cpp:109-135 | one read through the trim |
| FlacExport.AudioExport.DecodeAll | audio/audio_export.cpp:98-145 | the decode loop up to its end, a failure or a cancellation |
| FlacExport.AudioExport.Run | audio/audio_export.cpp:92-153 | the whole export is the one of the lemmas |
| MidiSchedule.BuildSchedule | audio/midiaudio.cpp:442-533 | the single pass places every event at the rounded tempo integral of the unsorted event list up to its tick, and ends no earlier than the last note and its tail |
| MidiSchedule.ScheduleIsOrdered | audio/midiaudio.cpp:452-515 | all events but tempo changes, each once, in (tick, order) order with non-decreasing frames |
| MidiSchedule.NotesLieInside | audio/midiaudio.cpp:517-530 | the piece ends where its last tick does or the tail after its last note on or off, whichever is later |
| MidiSchedule.TailIsNineTenths | audio/midiaudio.cpp:524-530 | the tail is 0.9 seconds to half a frame, up to the precision of the constant |
| MidiSchedule.TempoInForce | audio/midiaudio.cpp:452-482 | the tempo is 500000 until told; what the last event says holds as it is between 1000 and 10000000, and is limited to them |
| MidiSchedule.FramesAreNearest | audio/midiaudio.cpp:431-440 | rounding costs at most half a frame |
| MidiSchedule.LatestOfPermutation | audio/midiaudio.cpp:452-457 | the tempo in force does not depend on the order of the list |
| MidiSchedule.WalkOn | audio/midiaudio.cpp:465-482 | the running sum and tempo agree with the tempo map before and after each event |
| MidiPlayback.SeekAgreesWithPlaying | audio/midiaudio.cpp:635-647 | for every target, seeking and playing up to it in any reads agree on position, next event and all channels |
| MidiPlayback.SeekThenPlayAgrees | audio/midiaudio.cpp:592-647 | and they go on agreeing |
| MidiPlayback.PartitionDoesNotMatter | audio/midiaudio.cpp:592-633 | however a stretch is cut into reads, the whole state, voices included, is the same |
| MidiPlayback.AppliedInItsFrame | audio/midiaudio.cpp:602-607 | an event has been applied after n frames exactly if its own frame is one of them |
| MidiPlayback.NotesArePlayed | audio/midiaudio.cpp:524-633 | reads of any sizes over a schedule have applied exactly the events of the frames they rendered, and with the whole piece read, every note event |
| MidiPlayback.KeysHoldOneVoice | audio/midiaudio.cpp:725-780 | in every state reads and seeks can reach, at most one voice is held by the key of a note of a channel, and every sounding voice is held by its key, held by the pedal or dying away |
| MidiPlayback.KeyIsHeldBySlot | audio/midiaudio.cpp:725-780 | a struck key is held by exactly one voice and a released one by none |
| MidiPlayback.SlotIsBest | audio/midiaudio.cpp:685-704 | the first idle voice is taken, and only if there is none the first of the least audible ones, releasing voices counting half |
| MidiPlayback.EventStaysInItsChannel | audio/midiaudio.cpp:664-683 | an event changes no other channel, and no other channel's voice but for one taken over |
| MidiPlayback.PedalUpFreesIff | audio/midiaudio.cpp:815-825 | lifting the pedal frees the voices it holds exactly when the channel counted it as down, or there are none |
| MidiPlayback.ResetControllersStrands | audio/midiaudio.cpp:830-837 | after controller 121 the pedal's voices stay held when it is lifted |
| MidiPlayback.NoteIsStranded | audio/midiaudio.cpp:664-841 | five events after which a fresh decoder has the pedal up and the key lifted, and the note sounds for the rest of the piece |
| MidiPlayback.PedalNeverStrands | audio/midiaudio.cpp:767-837 | in every state reads and seeks can reach without a controller 121 of the channel among the events applied, the pedal holds voices only while it is down, and lifting it frees them all |
| MidiPlayback.NoteOffEndsNote | audio/midiaudio.cpp:767-780 | a note off, or a note on of velocity 0, silences what the key held after the frames its level needs if the pedal is up, and hands it to the pedal if it is down |
| MidiPlayback.HeldNoteNeverDecays | audio/midiaudio.cpp:853-862 | a note that has risen stays one decay below full level for as long as it is held, at every rate and on every channel |
| MidiPlayback.SustainHoldsIff | audio/midiaudio.cpp:853-862 | a held voice keeps its sustain level exactly if it does not attack faster than it decays |
| MidiPlayback.NoteShape | audio/midiaudio.cpp:740-764 | the rates of a struck note: 4 ms and 130 ms, for percussion 1 ms and 80 ms |
| MidiPlayback.ControllersSet | audio/midiaudio.cpp:802-841 | each plain controller sets one value of its channel and nothing else anywhere |
| MidiPlayback.AllOffReleases | audio/midiaudio.cpp:826-841 | controllers 120 and 123 release every voice of the channel and no other |
| MidiPlayback.PedalSets | audio/midiaudio.cpp:815-825 | the pedal counts as down from 64 on, and only voices it held change |
| MidiPlayback.ReleasedVoiceEnds | audio/midiaudio.cpp:843-853 | a released voice is silent after the frames its level needs |
| MidiPlayback.UnreleasedVoiceSounds | audio/midiaudio.cpp:853-862 | nothing but a release ends a voice |
| MidiPlayback.MidiDecoder.FindSlot | audio/midiaudio.cpp:685-704 | the two loops choose the slot of the lemmas |
| MidiPlayback.MidiDecoder.StartKey | audio/midiaudio.cpp:731-764 | takes the key off the voices that held it and starts one voice |
| MidiPlayback.MidiDecoder.LiftKey | audio/midiaudio.cpp:767-780 | hands held voices to the pedal, or releases them |
| MidiPlayback.MidiDecoder.ApplyControlChange | audio/midiaudio.cpp:802-841 | changes one controller of one channel, with the releases it entails |
| MidiPlayback.MidiDecoder.ApplyEvent | audio/midiaudio.cpp:664-683 | applies one event in place |
| MidiPlayback.MidiDecoder.ReadFrames | audio/midiaudio.cpp:592-633 | plays the frames that are left and says how many |
| MidiPlayback.MidiDecoder.SeekToFrame | audio/midiaudio.cpp:635-647 | resets and applies the events before the clamped target |
| WorkerTask.CancelAndCommitExclude | app/media_processing_coordinator.cpp:172-230 | over every interleaving, no task both accepts a cancellation and claims the commit |
| WorkerTask.SuccessWasCommitted | app/media_processing_coordinator.cpp:267-278 | the completions the owner takes are those of the tasks in the order they ended; it is told of success exactly when the operation succeeded and, where output was due, the barrier was claimed |
| WorkerTask.EachTaskCompletesOnce | app/media_processing_coordinator.cpp:92-166 | every started task is completed once under its own id, in order, or is the one running, even if its thread could not start |
| WorkerTask.EndsCancelledIff | app/media_processing_coordinator.cpp:267-287 | under either contract the owner is told Cancelled exactly when the operation gave up itself, or the late check saw the request and there was no success to let stand |
| WorkerTask.ThrownIsNoSuccess | app/media_processing_coordinator.cpp:232-266 | an exception is never told as success, under either contract and whatever the owner does, and is told under the task's own id |
| WorkerTask.StartsIff | app/media_processing_coordinator.cpp:92-135 | exactly an idle task whose completion has been taken starts, and it starts afresh |
| WorkerTask.CancelsIff | app/media_processing_coordinator.cpp:172-184 | a cancellation is accepted once, exactly while the task may be cancelled, and shuts the barrier |
| WorkerTask.ClaimsIff | app/media_processing_coordinator.cpp:217-230 | the barrier is claimed exactly if no cancellation came first, and shuts out any later one |
| WorkerTask.LateCancelEndsFailed | app/media_processing_coordinator.cpp:280-296 | a run in which the owner is told Failed |
| WorkerTask.StepKeepsInv | app/media_processing_coordinator.cpp:92-298 | every locked region and flag read keeps this |
| WorkerTask.UndisturbedIsRun | app/media_processing_coordinator.cpp:232-298 | run() with no step of the owner in between is its four steps in a row |
| Utf8.StrictAcceptsExactlyUtf8 | core/utf8.cpp:14-91 | the strict decoder accepts exactly UTF8-octets of section 4 of RFC 3629 |
| Utf8.StrictAcceptsExactlyWideText | core/utf8.cpp:93-113 | the strict encoder accepts exactly UTF-16 as section 2 of RFC 2781 defines it, or scalar values in 32-bit units |
| Utf8.WideAndBack | core/utf8.cpp:153-163 | strict decoding and encoding give well-formed bytes back |
| Utf8.Utf8AndBack | core/utf8.cpp:153-163 | strict encoding and decoding give well-formed wide text back |
| Utf8.LossyToWideIsWellFormed | core/utf8.cpp:157-159 | lossy decoding is always well formed, and the strict one on valid bytes |
| Utf8.LossyReplaces | core/utf8.cpp:73-91 | a byte at which no character can be decoded becomes U+FFFD by itself, and nothing around it changes |
| Utf8.LossyToUtf8IsWellFormed | core/utf8.cpp:165-167 | lossy encoding is always well formed, and the strict one on valid text |
| Utf8.LossyWideReplaces | core/utf8.cpp:133-149 | the same for a wide unit |
| Utf8.DecodedIsEncoded | core/utf8.cpp:14-56 | a decoded code point is a scalar value with exactly these bytes as its encoding |
| Utf8.EncodedIsDecoded | core/utf8.cpp:115-131 | the bytes of a scalar value decode to it, wherever they stand |
| Utf8.DecodeUtf8 | core/utf8.cpp:73-91 | the loop is the decoding of the lemmas, strict or lossy |
| Utf8.EncodeWide | core/utf8.cpp:133-149 | the loop is the encoding of the lemmas, strict or lossy |
| Utf8.IsValidUtf8 | core/utf8.cpp:169-171 | tells exactly UTF8-octets |
| ShellOpenProtocol.RequestRoundTrip | core/shell_open_protocol.cpp:184-274 | decoding an encoded request gives it back, within 64 KiB |
| ShellOpenProtocol.AcceptedReencodes | core/shell_open_protocol.cpp:184-274 | every accepted request can be encoded again, to the same bytes if its header is 32 bytes and minor version 0 |
| ShellOpenProtocol.EncoderAcceptsIff | core/shell_open_protocol.cpp:184-219 | the encoder accepts exactly non-zero ids with 1 to 64 non-empty, NUL-free UTF-8 paths that fit |
| ShellOpenProtocol.AcceptedPathsAreUtf8 | core/shell_open_protocol.cpp:248-269 | every accepted path is non-empty, NUL-free UTF-8 |
| ShellOpenProtocol.ResponseRoundTrip | core/shell_open_protocol.cpp:276-299 | decoding an encoded response gives it back |
| ShellOpenProtocol.AcceptedResponseReencodes | core/shell_open_protocol.cpp:276-299 | the converse for responses |
| ShellOpenProtocol.WrongLengthIsRejected | core/shell_open_protocol.cpp:148-154 | a message cut short or with bytes after its end is refused |
| ShellOpenProtocol.KindsAreDistinct | core/shell_open_protocol.cpp:145-147 | requests and responses are never taken for each other |
| ShellOpenProtocol.HeaderSlices | core/shell_open_protocol.cpp:159-170 | where each header field stands |
| ShellOpenProtocol.RequestLayout | core/shell_open_protocol.cpp:159-219 | the bytes of a request: RSHO, version 1.0, kind 1, a header of 32 bytes, how it is to be shown, the number of files, and the files |
| ShellOpenProtocol.ResponseLayout | core/shell_open_protocol.cpp:159-282 | and of a response, with its status code |
| ShellOpenProtocol.LittleByte | core/shell_open_protocol.cpp:28-45 | byte k of a number has the weight of 256 to the k |
| ShellOpenProtocol.HeaderDecodes | core/shell_open_protocol.cpp:122-157 | an encoded header is accepted with its sizes and id |
| ShellOpenProtocol.HeaderReencodes | core/shell_open_protocol.cpp:122-170 | an accepted plain header is the encoded one, byte for byte |
| ShellOpenProtocol.Writer.WriteUint | core/shell_open_protocol.cpp:28-45 | appends a value little-endian, cut to its width |
| ShellOpenProtocol.Writer.WriteHeader | core/shell_open_protocol.cpp:159-170 | appends the header |
| ShellOpenProtocol.Reader.ReadNumber | core/shell_open_protocol.cpp:65-98 | reads the little-endian value under the cursor, or fails at the end |
| ShellOpenProtocol.Reader.ReadString | core/shell_open_protocol.cpp:100-105 | takes bytes exactly when that many are left |
| ShellOpenProtocol.EncodeRequestMessage | core/shell_open_protocol.cpp:184-219 | the encoder's loop is the encoding of the lemmas |
| ShellOpenProtocol.DecodeFileList | core/shell_open_protocol.cpp:248-269 | the file loop is the decoding of the lemmas |
| ShellOpenProtocol.DecodeRequestMessage | core/shell_open_protocol.cpp:221-274 | so is the whole decoder, errors included |
| ShellOpenProtocol.EncodeResponseMessage | core/shell_open_protocol.cpp:276-282 | the response encoder |
| ShellOpenProtocol.DecodeResponseMessage | core/shell_open_protocol.cpp:284-299 | the response decoder |

## Left out

- Devices, backends and decoders: starting, stopping and recovering devices, FFmpeg, Media Foundation and the emulators are foreign code; a decoder is any sequence of frames.
- The m4a decoder thread: its source is not part of this model; seeks are modelled for the decoder worker only.
- Fairness: that the threads go on is not modelled. What is proved is that whatever has happened, going on leads to the end; the `finished`, `processedAtEnd` and starvation flags, separate relaxed atomics, are left out.
- Memory ordering weaker than sequential consistency, and overflow of 64-bit positions, serials and generations.
- Channel interleaving: one cell, array element or pending entry stands for all samples of one frame.
- Floating-point rounding: gains, mixes, envelopes, sample scaling and the MIDI time integral are exact; the radio receivers, oscillators, peak meters and mixed MIDI samples are left out.
- SpscAudioRing.Ring.DiscardBufferedFrames: does not model a discard that races an active consumer, because the pipeline discards only from the consuming thread.
- SpscAudioTimeline.AnchorTimeline.Peek: the sequential method has no retry, because nothing interferes with it; the four attempts are in the concurrent reader.
- QueuedAudio.AudioState.Write: the looks it takes without the lock before each turn are not listed: one that passes changes nothing, and one that does not ends the call as the next turn would.
- QueuedAudio.RunNeverAborts: a chunk the DSP thread drops is dropped as part of the reset that follows it, because between the two the processed ring only drains.
- SourceSeek.NoStaleAudioSurvivesASeek: begin-commit, backend seek and reset request of the worker are one step, because finer interleavings of these relaxed accesses are not defended by the code.
- StreamReset.ResetsAreNotLost: a run ends with the replacement of the playback, so what starting the next one sets up is left out.
- FileOutput.PublishIsSafe: other processes do not touch the files meanwhile.
- FileOutput.PublishIsSafeIff: assumes in addition that no foreign file has a name the group has yet to reserve, because with every name taken an unsafe publish would fail before it does harm.
- FileOutput.BeginIsSafe: paths are opaque identities, so canonicalisation, empty names and the check of the parent directory are left out.
- RadioCrossfade.RunIsClickFree: changes of source, which reset the crossfade, are not part of a run.
- RadioCrossfade.RadioPlayback.ProcessBlocks: a fade in requested while a call is under way is taken up by the next call.
- FlacExport.AudioExport.Run: ends with the finished file; progress reports, the output transaction and its commit hook are left out, as is the limit of the encoder's int frame count, which no block reaches.
- MidiSchedule.BuildSchedule: takes the event orders as distinct, as the parser numbers them; parsing the file and frame counts beyond 64 bits are left out.
- MidiPlayback.SeekAgreesWithPlaying: says nothing of the voices, because seeking does not run their envelopes.
- WorkerTask.EachTaskCompletesOnce: joining the thread and the wake-up notifications are left out.
- ShellOpenProtocol.RequestRoundTrip: a path is its UTF-8 byte string, as on POSIX; the conversion on Windows is left out.
- Errors as text, logging, progress, the user interface, the command line, downloads, routing over other jobs, and small gates, mailboxes and clocks are outside the model.
