# Verification model of the media processor

A Dafny model of the parts of the media processor that hold hard state or arithmetic, with
proofs about every run of them. `dafny verify dfyconfig.toml` checks the project.

## What is modelled

| module | component |
|---|---|
| `Timestamps`, `Rebase`, `DtsRepair`, `Remux`, `Wire` | the output timestamp pipeline: the shared shift, libav's rescaling, the monotonic-DTS repair, the packet loop that interleaves all streams, and what a packet on the wire says in real time |
| `Limiter` | transcode admission: permits that are granted, marked and released by concurrent clients, and the blocking reservation |
| `Sampler`, `Ewma` | the load probe's lifecycle protocol and its smoothed value |
| `Resampler`, `AudioFifo` | a sample's way from the decoder to the encoder: the resampler's delay line, and re-chunking into fixed-size encoder frames |
| `CropDetect` | the two-phase crop detection loop with its convergence counter |
| `Filesystem`, `OutputPaths` | the file tree, pruning, sentinels, and how output and import paths mirror the watch root |
| `Workflow`, `Success` | one media workflow run with retries, partial attempts and the deferred failure notification; when it succeeds and what it leaves then |
| `Dispatch`, `Scan` | several watchers against the workflow server, and one scan tick |
| `StreamSelection` | which streams reach the output and which are default |
| `SubtitleBuffer`, `Idle` | the subtitle encode buffer, and idle exit |

Code that updates objects is modelled by classes (`Limiter.Limiter`, `Remux.CopyStream`,
`Sampler.LoadSampler`, `AudioFifo.AudioStream`, `Resampler.AudioTrack`, `CropDetect.Detector`, `Filesystem.Disk`, `Scan.Walker`,
`SubtitleBuffer.SubtitleConverter`, `Idle.IdleTracker`, `Idle.IdlePoller`, `Rebase.Packet`). Their methods are proved
equal to functions on values, and the promises are proved of those functions for all inputs
and all runs. The sampler's lifecycle, the watchers and the limiter with its clients are
transition systems in which any interleaving of atomic steps is a run.

Integers of the source that can overflow are explicit: timestamps are `int64` with the
sentinel -2^63 for "none", additions wrap where the source adds, and the results that need
room say exactly how much. Times and durations elsewhere are unbounded. The load average is
over `real`.

## Where a promise fails, and exactly when it holds

- The static cap is documented as a hard ceiling on transcodes in flight and the cooldown as
  the minimum interval between admissions (`docs/configuration.md`). A reservation records
  nothing until it is marked, so both hold of every run if and only if at most one granted
  permit is unmarked at a time (`Limiter.CapHoldsIffOneOutstanding`,
  `Limiter.SpacingHoldsIffOneOutstanding`). The bound that always holds, and is reached, is
  `Limiter.AdmissionBound`.
- DTS repair follows its least envelope if and only if that stays within int64, and the same
  condition decides whether a second repair counts no clamp
  (`DtsRepair.RepairFollowsEnvelopeIffFits`, `DtsRepair.RepairedCountsNoClampIffFits`). A second
  repair changes nothing in any case (`DtsRepair.RepairIsIdempotent`). The clamp counter is the
  number of packets changed if and only if no packet without a DTS comes right after a written
  DTS of 2^63 - 1 (`DtsRepair.ClampsCountChangesIff`).
- Rebasing keeps distances and order within a stream if and only if both sums overflow or
  neither does, and turns a timestamp into "none" only for the two sums that land on the
  sentinel, -2^63 and 2^63 (`Rebase.ShiftKeepsDifferences`, `Rebase.ShiftKeepsPresence`).
- Audio samples can be lost in two places. When the decoder changes format mid-stream the
  resampler is replaced together with what it still holds, and an encoder without a fixed frame
  size never gets the last delay line. Nothing is lost if and only if the delay line was empty at
  every change of format, and there is a FIFO or it is empty at the end
  (`Resampler.NothingLostIff`). PTS sent to the encoder increase unless the
  first timestamp comes between two complete frames and lies before the count from zero
  (`AudioFifo.PtsIncreaseIffSeedIsLate`).
- A source may only vanish once it was judged not to be media or transcode and notify have
  succeeded. That holds of every run if and only if the output is not the source itself: an
  output directory equal to the watch root together with a source named `*.mkv` breaks it, and
  also defeats PreserveSource (`Workflow.SourceIsSafeIffNotMkvInPlace`).
- Deleting a source does not keep a watcher from starting its workflow once more: the walk lists a
  directory and later checks only for markers. Once a file is marked, n further runs of it can
  start if and only if n watchers are past their check; once it is gone unmarked, if and only if n
  watchers are past their check or still have it listed (`Dispatch.StaleStartsIff`). Such a run
  removes and changes no file (`Workflow.StaleRunIsHarmless`).
- A run can fail although its transcode worked: with PreserveSource, when the marker's path is a directory,
  or is one of the directories the output needs (`Success.MediaRunSucceedsIff`).
- Two sources share one output if and only if they share directory and stem
  (`OutputPaths.OutputsCollideIff`).
- A second Close of the sampler returns at once, possibly before the last Sample call
  (`Sampler.RedundantCloseMayPrecedeSampling`). A Sample call may still follow if and only if the
  loop is inside one, at its top, waiting, or back from one without a reason to end
  (`Sampler.ClosedSamplesAgainIff`), so none follows if the sampler never started, has failed, or
  the first Close has returned (`Sampler.RedundantCloseIsSafe`).
- A prune that dies part-way is not resumed by a retry: the two together do the whole prune if and
  only if the first had removed nothing or everything (`Filesystem.InterruptedPruneIsResumedIff`).
  What retries do restore is the set of files (`Workflow.RetriedCleanupLeavesCleanedFiles`).
- A run on a source that is gone fails, although it has nothing to do, if the source was to be
  preserved and its directory is gone too: the marker cannot be written
  (`Workflow.StaleRunIsHarmless` has the exact condition).
- A run that succeeds can take its own output away again: if the output is the source, cleanup
  deletes it unless the source is preserved (`Workflow.OutputStaysIffLeftByLibrary`).
- The output has exactly one default audio track if and only if some audio is English, or one
  input track was default, or none was and a downmix is needed
  (`StreamSelection.OneDefaultAudioIff`).

## Model

| member | source | states |
|---|---|---|
| `DtsRepair.RepairFollowsEnvelopeIffFits` | pkg/ffmpeg/stream.go:263-362 | the i-th written DTS is the envelope max over j <= i of d_j + (i - j), each written PTS is max(PTS, written DTS), nothing is stamped before the anchor and nothing missing after it, exactly when the envelope fits int64 |
| `DtsRepair.RepairIsIdempotent` | pkg/ffmpeg/stream.go:263-287 | repairing a repaired stream changes no timestamp, for every stream and every DTS written before it |
| `DtsRepair.RepairedCountsNoClampIffFits` | pkg/ffmpeg/stream.go:263-287 | that second repair also counts no clamp exactly when the envelope fits int64 |
| `DtsRepair.EnvelopeIsMaximum` | pkg/ffmpeg/stream.go:335-362 | the envelope is the maximum over the stamped packets so far, attained by one of them |
| `DtsRepair.EnvelopeIsLeast` | pkg/ffmpeg/stream.go:335-362 | the envelope lies below every strictly increasing sequence above the demuxed DTS |
| `DtsRepair.NoClampIffWellFormed` | pkg/ffmpeg/stream.go:263-287 | a stream is left without a clamp exactly when every packet is acceptable after its predecessor |
| `DtsRepair.ClampsCountChangesIff` | pkg/ffmpeg/stream.go:263-287 | the clamp counter is the number of packets whose timestamps changed exactly when no missing DTS comes right after a written DTS of 2^63 - 1 |
| `DtsRepair.StreamClampsCountChangesIff` | pkg/ffmpeg/stream.go:263-287 | the same read off the input: for a stream from its start, exactly when no packet at which the envelope leaves int64, counted afresh after each such packet, lacks a DTS |
| `DtsRepair.FittingClampsCountChanges` | pkg/ffmpeg/stream.go:263-287 | hence it is in every stream whose envelope fits |
| `DtsRepair.BoundedStampsFit` | pkg/ffmpeg/stream.go:335-362 | timestamps within [-B, B] and B + n < 2^63 keep n packets clear of overflow and of the sentinel |
| `DtsRepair.ClampFiresIffUnacceptable` | pkg/ffmpeg/stream.go:335-362 | the clamp reports true exactly for a packet that violates the muxer's ordering |
| `DtsRepair.ClampReportsChange` | pkg/ffmpeg/stream.go:335-362 | the clamp reports every change, and reports one that is none only for a missing DTS after a written DTS of 2^63 - 1 |
| `DtsRepair.RepairAt` | pkg/ffmpeg/stream.go:263-287 | each written packet is the clamp of its packet after the previously written DTS |
| `Remux.InterleavedStreamIsRepaired` | pkg/ffmpeg/transcode.go:941-1014 | for every interleaving, a stream's output carries the repair of its own rebased and rescaled packets (in real time: `Wire.WireKeepsTime`) with their payloads, written + dropped = received, and ADTS outputs start with the syncword |
| `Wire.WireKeepsTime` | pkg/ffmpeg/stream.go:101-127 | for every interleaving, a copied stream puts on the wire exactly its own packets, less those without a required ADTS header, in order and with their payloads; its timestamps are the repair of stamps that, where the timebases can represent it, stand for the demuxed instant plus the shared offset within half a tick of the input and half a tick of the output timebase; missing stays missing |
| `Wire.EncodedWireKeepsTime` | pkg/ffmpeg/stream.go:145-177 | for every interleaving, a re-encoded stream puts on the wire exactly the packets its encoder released, in order and with their payloads; its timestamps are the repair of theirs to the nearest tick of the output timebase; missing stays missing, and an instant beyond int64 goes missing |
| `Wire.DownmixWireKeepsTime` | pkg/ffmpeg/transcode.go:965-1012 | the downmix likewise, with what its encoder released for the packets of the source stream |
| `Wire.FeedKeepsInstants` | pkg/ffmpeg/stream.go:101-177 | the same of one stream alone, for any packets offered to it |
| `Wire.Rescale64IsNearest` | pkg/ffmpeg/stream.go:106 | a rescaled timestamp is the old instant to the nearest tick of the new timebase if that can represent it, and missing if it is beyond |
| `Remux.WireFollowsEnvelopeIffFits` | pkg/ffmpeg/transcode.go:941-1014 | for every interleaving the output of a stream follows the least envelope of its own rebased and rescaled packets (in real time: `Wire.WireKeepsTime`) exactly when that fits int64 |
| `Remux.BoundedWireIsRegular` | pkg/ffmpeg/transcode.go:941-1014 | with timestamps in [-B, B] and B + n < 2^63 the output follows the envelope, every packet is acceptable after the one before, and the clamp counter is the number of packets changed |
| `Remux.StreamsDoNotInterfere` | pkg/ffmpeg/transcode.go:941-1014 | what an output stream writes and counts in an interleaved run is what it does alone on its own packets |
| `Remux.DownmixDoesNotInterfere` | pkg/ffmpeg/transcode.go:965-1012 | the downmix likewise, although it reads the packets of its source stream |
| `Remux.ReadAllPackets` | pkg/ffmpeg/transcode.go:941-1014 | the packet loop over shared packet objects ends in the state and log of the whole run, or stops part-way through one packet when a write fails |
| `Remux.ProcessDemuxed` | pkg/ffmpeg/transcode.go:965-1012 | one packet: rebase, then downmix clone, then the packet's own stream |
| `Remux.FeedRepairs` | pkg/ffmpeg/stream.go:101-127 | a stream alone writes the repair of the packets it keeps and counts its clamps |
| `Remux.FeedConserves` | pkg/ffmpeg/stream.go:222-238 | payloads pass unchanged and in order; written + dropped = received; only ADTS frames on an ADTS stream |
| `Remux.ADTSFrameIffSyncword` | pkg/ffmpeg/stream.go:188-190 | a payload counts as an ADTS frame exactly when it has a full header starting with the 12-bit syncword of section 6.2 of ISO/IEC 13818-7 |
| `Remux.CopyStream.DropMalformedADTS` | pkg/ffmpeg/stream.go:222-238 | drops and counts exactly the payloads that need ADTS framing and lack it |
| `Remux.CopyStream.RepairNonMonotonicDts` | pkg/ffmpeg/stream.go:263-287 | clamps the packet in place, counts, and remembers the DTS it leaves |
| `Remux.CopyStream.ProcessPacket` | pkg/ffmpeg/stream.go:101-127 | a remuxed packet: drop, rescale both timestamps, repair, write, with the frame counter |
| `Remux.CopyStream.ReceiveAndWritePackets` | pkg/ffmpeg/stream.go:145-177 | drains an encoder: the packets of the whole queue, or a prefix when a write fails |
| `Rebase.RebaseKeepsSkew` | pkg/ffmpeg/timestamps.go:79-111 | the real-time skew between two streams changes by at most half the sum of their timebases |
| `Rebase.RebaseMovesByOffset` | pkg/ffmpeg/timestamps.go:92-111 | every stream moves by the shared offset, up to half a tick of its timebase |
| `Wire.RebasedMoves` | pkg/ffmpeg/timestamps.go:92-111 | rebasing moves DTS and PTS of a packet by the shared offset, within half a tick of its timebase, whenever that can represent the offset and the moved instant; missing stays missing |
| `Rebase.TimestampRebase.Rebased` | pkg/ffmpeg/timestamps.go:92-111 | without an offset, or for a stream with no known timebase, a packet keeps its timestamps |
| `Rebase.ShiftKeepsDifferences` | pkg/ffmpeg/timestamps.go:92-111 | distances within a stream survive exactly when both sums overflow int64 or neither does, and so does order |
| `Rebase.ShiftKeepsPresence` | pkg/ffmpeg/timestamps.go:92-111 | a missing timestamp stays missing; a present one gets lost only when the sum lands on the sentinel |
| `Rebase.RebaseOffset` | pkg/ffmpeg/timestamps.go:79-85 | the offset takes the container's start time to zero, and is zero when there is no start time |
| `Rebase.TimestampRebase.Apply` | pkg/ffmpeg/timestamps.go:92-111 | rewrites the packet's timestamps in place by its stream's share of the offset, unless there is none |
| `Timestamps.RescaleWithinHalfTick` | pkg/ffmpeg/timestamps.go:92-111 | a rescaled time is within half a target tick of the original time |
| `Timestamps.DivRoundNearest` | pkg/ffmpeg/timestamps.go:92-111 | libav's rounding: nearest, halves away from zero |
| `Timestamps.RescaleSameTimebase` | pkg/ffmpeg/stream.go:101-127 | rescaling to the same timebase changes nothing |
| `Limiter.AdmissionBound` | pkg/transcodelimiter/limiter.go:223-300 | in every run with at most k unmarked permits, inFlight is the number of marked permits and inFlight + outstanding <= StaticCap + k - 1 |
| `Limiter.AdmissionBoundIsReached` | pkg/transcodelimiter/limiter.go:248-300 | some run reaches that bound |
| `Limiter.CapHoldsIffOneOutstanding` | pkg/transcodelimiter/limiter.go:223-243 | StaticCap bounds inFlight in every run exactly when one permit at a time is out |
| `Limiter.CooldownWindows` | pkg/transcodelimiter/limiter.go:223-243 | in probe mode every window shorter than the cooldown holds at most k marks |
| `Limiter.GrantableIff` | pkg/transcodelimiter/limiter.go:223-243 | after any run, a permit can be granted exactly when fewer than k permits are out, fewer than StaticCap marked permits are in flight, and the sampler either has failed or reports a load below the threshold with every mark at least a cooldown ago |
| `Limiter.EveryGrantIsJustified` | pkg/transcodelimiter/limiter.go:223-243 | so every grant in every run had a free slot and, before the sampler failed, a load below the threshold and no mark within the cooldown |
| `Limiter.CooldownWindowIsReached` | pkg/transcodelimiter/limiter.go:248-300 | for every k some probe-mode run marks k permits at one instant |
| `Limiter.SpacingHoldsIffOneOutstanding` | pkg/transcodelimiter/limiter.go:334-348 | successive marks are a cooldown apart in every probe-mode run exactly when one permit at a time is out |
| `Limiter.RunsKeepInvariants` | pkg/transcodelimiter/limiter.go:223-377 | every run of grants, marks, releases, ticks and sampler failure keeps the permit bookkeeping and the open-window accounting |
| `Limiter.UnusedReleaseChangesNothing` | pkg/transcodelimiter/limiter.go:354-377 | releasing a permit that was never marked leaves the limiter as it was |
| `Limiter.ReleaseUndoesMark` | pkg/transcodelimiter/limiter.go:334-377 | a mark counts one more, and the release of that permit, or of a nil one, undoes it but for the cooldown; no release takes the count below zero |
| `Limiter.CooldownWaitIsExact` | pkg/transcodelimiter/limiter.go:248-286 | a reservation blocked only by r of cooldown is granted after ceil(r / poll) sleeps adding up to exactly r |
| `Limiter.ReserveGrantsIff` | pkg/transcodelimiter/limiter.go:248-286 | a reservation is granted exactly when some turn sees a free slot and either fallback or a load below the threshold with the cooldown over, and every earlier turn was refused and ended by its timer; it ends in an error exactly when the context or the limiter interrupts the first refused turn that is not slept through |
| `Limiter.ReserveEnds` | pkg/transcodelimiter/limiter.go:223-286 | which turn ends a reservation, with what result, and the timer of every turn: the rest of the cooldown where only that blocks and it is shorter, else the poll interval |
| `Limiter.OneEnd` | pkg/transcodelimiter/limiter.go:248-286 | the turn and the whole outcome are settled by that description |
| `Limiter.RetryAfterIsExact` | pkg/transcodelimiter/limiter.go:223-243 | a refused request is admitted later, all else equal, exactly when the wait it was told has passed; without a wait, never |
| `Limiter.ReserveSlot` | pkg/transcodelimiter/limiter.go:248-286 | the polling loop ends in the turn, with the result and after the timers that the fields of its observations determine, and sleeps a positive time of at most the poll interval per turn |
| `Limiter.Limiter.TryReserveSlot` | pkg/transcodelimiter/limiter.go:290-300 | hands out a fresh permit exactly when a slot is free and either the limiter is in fallback or the load is below the threshold and the last mark a cooldown ago |
| `Limiter.Limiter.MarkUsed` | pkg/transcodelimiter/limiter.go:334-348 | counts a permit once and starts the cooldown; marking it again changes nothing |
| `Limiter.Limiter.Release` | pkg/transcodelimiter/limiter.go:354-377 | uncounts a marked permit, ignores an unmarked one, never goes below zero |
| `Limiter.Limiter.WatchFallback` | pkg/transcodelimiter/limiter.go:192-209 | enters fallback and changes nothing else |
| `Limiter.Limiter.New` | pkg/transcodelimiter/limiter.go:140-184 | starts empty, in fallback if the sampler had already failed |
| `Limiter.Config.Normalized` | pkg/transcodelimiter/limiter.go:145-155 | each usable field stays as it is and each other one takes its default, 5, 0.8 or three seconds; the result is usable |
| `Sampler.EveryLifecycleIsOrderly` | pkg/loadprobe/sampler.go:86-250 | for every interleaving: done, failed and the probe are closed at most once, the reason precedes failed, and no Sample call follows the closing of the probe or of done, or the return of the Close that closed the sampler |
| `Sampler.FailsIffSampleFailed` | pkg/loadprobe/sampler.go:177-250 | in every run from the constructor whose loop has ended, `failed` was closed exactly when the loop looked at a failed sample before anything had cancelled its context; and at any time it is closed only then |
| `Sampler.CloseCanReturn` | pkg/loadprobe/sampler.go:150-239 | from every reachable closed state, wherever loop and closers are, at most 20 steps bring the closing call back: it never waits for something that cannot happen |
| `Sampler.RedundantCloseMayPrecedeSampling` | pkg/loadprobe/sampler.go:150-175 | a run from the constructor in which a redundant Close returns before a Sample call |
| `Sampler.ClosedSamplesAgainIff` | pkg/loadprobe/sampler.go:150-239 | from any reachable closed state, and after a redundant Close in it, some continuation samples again exactly when the loop is ready, sampling, waiting, back with a reading, or back from a timeout uncancelled |
| `Sampler.RedundantCloseIsSafe` | pkg/loadprobe/sampler.go:150-175 | no Sample call follows a redundant Close if the sampler never started, has failed, or the closing call has returned |
| `Sampler.BornFailedNeverSamples` | pkg/loadprobe/sampler.go:86-106 | a sampler from Failed never samples and never closes a probe |
| `Sampler.StepKeepsInvariant` | pkg/loadprobe/sampler.go:111-250 | every step keeps the log in agreement with where the loop and the closers are |
| `Sampler.LoadSampler.StartLoop` | pkg/loadprobe/sampler.go:111-124 | starts the loop once, never after Close and never without a probe |
| `Sampler.LoadSampler.BeginClose` | pkg/loadprobe/sampler.go:150-164 | the first call closes the sampler, any other returns at once |
| `Sampler.LoadSampler.EndClose` | pkg/loadprobe/sampler.go:166-175 | closes the probe if there is one, then returns |
| `Sampler.LoadSampler.AfterSample` | pkg/loadprobe/sampler.go:201-236 | cancellation ends the loop, a timeout skips the round, any other error fails the sampler (over whole runs: `Sampler.FailsIffSampleFailed`) |
| `Sampler.LoadSampler.MarkFailed` | pkg/loadprobe/sampler.go:241-250 | stores the reason and closes the channel, in this order and only once |
| `Ewma.Loop` | pkg/loadprobe/sampler.go:177-239 | the published value is the average of the clamped readings before the loop ends; it fails exactly at the first failing round not preceded by cancellation |
| `Ewma.AverageIsWeightedSum` | pkg/loadprobe/sampler.go:177-239 | the recurrence equals a weighted sum of all readings, and the weights add up to 1 |
| `Ewma.ReadingMovesAverage` | pkg/loadprobe/sampler.go:177-239 | a further reading moves the average by exactly 2 / (window + 1) of its distance to it |
| `Ewma.Window` | pkg/loadprobe/sampler.go:264-277 | a positive window is the one configured, any other is five |
| `Ewma.WeightsNonNegative` | pkg/loadprobe/sampler.go:177-239 | the weights are not negative, so the sum is a convex combination |
| `Ewma.AverageStaysBetween` | pkg/loadprobe/sampler.go:177-239 | the average stays between any bounds of the readings |
| `Ewma.PublishedValueInUnit` | pkg/loadprobe/sampler.go:177-262 | whatever the probe reports and whatever window is configured, the value is in [0, 1] |
| `Ewma.SkippedRoundsChangeNothing` | pkg/loadprobe/sampler.go:177-239 | a timed-out round leaves the readings, hence the value, unchanged |
| `Ewma.ConstantLoadConverges` | pkg/loadprobe/sampler.go:177-239 | m further readings of c shrink the distance to c by exactly (1 - alpha)^m |
| `Ewma.DefaultCrossesThresholdInFour` | pkg/loadprobe/sampler.go:29-50 | at the defaults full load takes a value of 0 to 0.8 at the fourth reading and not before, or at the first when there was no reading yet |
| `Ewma.Clamp01` | pkg/loadprobe/sampler.go:252-262 | any reading ends in [0, 1]: one in there is kept, not-a-number and anything lower become 0, anything higher 1 |
| `Resampler.NothingLostIff` | pkg/ffmpeg/stream_audio.go:276-493 | every decoded sample reaches the encoder in order, before any padding, exactly when the delay line was empty at every change of format and is flushed into a FIFO or empty at the end |
| `Resampler.LostCount` | pkg/ffmpeg/stream_audio.go:276-493 | how many samples are lost: those in delay lines given up, and the last one where there is no FIFO |
| `Resampler.TrackKeepsTime` | pkg/ffmpeg/stream_audio.go:312-400 | if the first decoded frame has a PTS, the k-th frame sent to a fixed-frame-size encoder starts, within half an encoder tick, as long after it as k frames of samples last |
| `Resampler.OutputsKeepPts` | pkg/ffmpeg/stream_audio.go:312-372 | one frame leaves the resampler for each decoded one, and it goes on under that frame's PTS |
| `Resampler.KeptOrDiscarded` | pkg/ffmpeg/stream_audio.go:287-309 | every sample given to the resampler comes out, is still in it, or was in a delay line given up; if none was given up all come out or are left in order |
| `Resampler.DiscardsNothingIff` | pkg/ffmpeg/stream_audio.go:287-309 | nothing is given up exactly when the delay line is empty at every change of format |
| `Resampler.AudioTrack.ResampleFrame` | pkg/ffmpeg/stream_audio.go:287-309 | converts, and on a refused format reallocates and converts again |
| `Resampler.AudioTrack.EncodeRaw` | pkg/ffmpeg/stream_audio.go:312-372 | resampling, then the FIFO or the encoder, of one decoded frame |
| `Resampler.AudioTrack.Flush` | pkg/ffmpeg/stream_audio.go:404-493 | decoder tail, delay line, padded last frame: the state of the whole track |
| `AudioFifo.SessionConserves` | pkg/ffmpeg/stream_audio.go:312-493 | over any frames and flush the encoder gets the resampled samples in order, the resampler's last delay line, and less than a frame of silence, in frames of exactly frameSize |
| `AudioFifo.EncodingConserves` | pkg/ffmpeg/stream_audio.go:312-400 | between calls, sent + buffered is the input so far and less than a frame is buffered |
| `AudioFifo.NothingLostIffFlushed` | pkg/ffmpeg/stream_audio.go:404-493 | every sample that came out of the resampler or is left in it at the end reaches the encoder exactly when there is a FIFO or nothing is left |
| `AudioFifo.SessionNumbers` | pkg/ffmpeg/stream_audio.go:312-400 | frames complete before the first stamped frame count from zero, later ones from its PTS |
| `AudioFifo.SessionKeepsTime` | pkg/ffmpeg/stream_audio.go:312-400 | in real time: from the first stamped frame on, every frame sent starts, within half an encoder tick, as long after that frame's PTS as the samples sent in between last; earlier ones count from zero |
| `AudioFifo.FirstFrameSeedsAll` | pkg/ffmpeg/stream_audio.go:312-400 | with a PTS on the first frame, frame k carries seed + k * frameSize |
| `AudioFifo.PtsIncreaseIffSeedIsLate` | pkg/ffmpeg/stream_audio.go:312-372 | for an encoder with a fixed frame size, the exact condition on the input under which the PTS sent are strictly increasing; without any timestamp they always are |
| `AudioFifo.SessionFrames` | pkg/ffmpeg/stream_audio.go:312-493 | a whole stream gives the encoder the ceiling of the samples, delay line included, divided by the frame size |
| `AudioFifo.FramesSent` | pkg/ffmpeg/stream_audio.go:376-400 | the number of whole frames sent before the flush is the input length divided by the frame size |
| `AudioFifo.PassThrough` | pkg/ffmpeg/stream_audio.go:312-372 | without a fixed frame size frames pass one by one with their own PTS |
| `AudioFifo.AudioStream.DrainFifo` | pkg/ffmpeg/stream_audio.go:376-400 | sends whole frames until less than one is left |
| `AudioFifo.AudioStream.EncodeAudioFrame` | pkg/ffmpeg/stream_audio.go:312-372 | seeds the counter once, buffers, drains; or passes the frame on |
| `AudioFifo.AudioStream.Flush` | pkg/ffmpeg/stream_audio.go:404-493 | decoder tail, delay line, padded last frame: the state of the whole session |
| `CropDetect.DetectReturnsLastMeasurement` | pkg/ffmpeg/cropdetect.go:289-486 | a region is returned exactly when some filter output that the run consumed has a positive width and height, and then its width, height, x and y are those of the last such output; the stability counter is the longest constant suffix of the phase-2 measurements; forwarding follows the schedule |
| `CropDetect.MeasurementsAreConserved` | pkg/ffmpeg/cropdetect.go:313-480 | of the accepted frames the decoded ones are taken in order; the outputs consumed followed by those the filter still holds are exactly what it emitted for the sampled ones and then on its flush; and the consumed ones with a positive area were measured one by one, field by field, each in the phase of its frame |
| `CropDetect.EarlyExitIffConverged` | pkg/ffmpeg/cropdetect.go:330-456 | reading stops early exactly when the phase-2 measurements end in five equal ones |
| `CropDetect.EarlyExitNeedsConvergence` | pkg/ffmpeg/cropdetect.go:408-486 | when reading stops early there were more than 200 decoded frames and the last five phase-2 measurements are the result; otherwise nothing stays queued; the flushes only add measurements |
| `CropDetect.LeftoversNeedStableRun` | pkg/ffmpeg/cropdetect.go:408-486 | unless five phase-2 measurements in a row agreed, all packets are read and neither decoder nor filter holds anything in the end |
| `CropDetect.ForwardedClosedForm` | pkg/ffmpeg/cropdetect.go:358-406 | n <= 200 decoded frames forward min(n, 3) + floor((n - 1) / 20) of them, later ones all |
| `CropDetect.ConstantSuffixIsLongest` | pkg/ffmpeg/cropdetect.go:330-350 | the counter's specification is the longest constant suffix |
| `CropDetect.Detector.DrainFilterQueue` | pkg/ffmpeg/cropdetect.go:313-357 | the filter loop with its convergence counter |
| `CropDetect.Detector.DrainDecoderQueue` | pkg/ffmpeg/cropdetect.go:358-406 | the decoder loop with the sampling schedule and the phase switch |
| `CropDetect.Detector.ReadAll` | pkg/ffmpeg/cropdetect.go:408-456 | the packet loop with its skips, stopping when the crop converges |
| `CropDetect.Detector.Run` | pkg/ffmpeg/cropdetect.go:408-486 | packets, decoder flush and filter flush: the state of the whole detection, and the region of the last output with a positive area, if there is one |
| `Filesystem.PruneRemovesChain` | workflows/media/cleanup.go:81-135 | pruning removes exactly the chain of directories strictly below the root that held nothing but the chain, and the tree stays well formed |
| `Filesystem.PruneIsIdempotent` | workflows/media/cleanup.go:81-135 | pruning twice is pruning once |
| `Filesystem.InterruptedPruneIsResumedIff` | workflows/media/cleanup.go:110-125 | a prune cut short and a retry do the whole prune exactly when the first had not begun or was through |
| `Filesystem.RetriedPruneRemovesNothing` | workflows/media/cleanup.go:110-125 | a retry after a prune that had begun changes nothing |
| `Filesystem.PruneWithinKeepsFiles` | workflows/media/cleanup.go:81-135 | a prune, finished or not, keeps every file and a well-formed tree |
| `Filesystem.PruneKeepsFiles` | workflows/media/cleanup.go:58-79 | a finished prune keeps every file |
| `Filesystem.SentinelsAreSkipped` | workflows/media/cleanup.go:16-23 | the marker of a file is one the watcher skips, and is not the file itself |
| `Filesystem.SentinelsAreDistinct` | workflows/media/cleanup.go:16-23 | two files never share a marker |
| `Filesystem.Disk.PruneEmptyParents` | workflows/media/cleanup.go:81-135 | the loop over directories, with every way it stops, is the prune |
| `Filesystem.Disk.RunCleanup` | workflows/media/cleanup.go:47-57 | deletes the file, tolerating its absence, then prunes; an error leaves the tree alone |
| `Filesystem.Disk.RemoveOutputFile` | workflows/media/cleanup.go:32-42 | deletes the output, tolerating its absence and a blank path |
| `Filesystem.Disk.WriteSentinel` | workflows/media/cleanup.go:16-23 | writes the empty marker beside the file when that is possible |
| `Filesystem.Disk.PruneOutputDirs` | workflows/media/cleanup.go:68-74 | prunes above the output, if there is one |
| `OutputPaths.ImportMirrorsSource` | workflows/media/activities.go:397-415 | the imported path sits below the remote prefix where the source sits below the watch root, as stem.mkv |
| `OutputPaths.OutputMirrorsSource` | workflows/media/transcode.go:311-369 | exactly the files under the watch root get an output, at their own place below the output directory |
| `OutputPaths.OutputIsSourceIff` | workflows/media/transcode.go:311-369 | the output is its own source exactly when the output directory is the watch root and the source is *.mkv |
| `OutputPaths.OutputsCollideIff` | workflows/media/transcode.go:366-369 | two sources share an output exactly when they share directory and stem |
| `OutputPaths.OutputIsNotSentinel` | workflows/media/transcode.go:366-369 | an output is never the source's marker, whatever the directories |
| `OutputPaths.MkvNameIsOwnIff` | workflows/media/transcode.go:366-369 | a name is its own output name exactly when it ends in .mkv |
| `OutputPaths.TempIsNotSource` | workflows/media/transcode.go:366-369 | the temporary file is never the source |
| `Workflow.SourceRemovedOnlyWhenJustified` | workflows/media/workflow.go:61-151 | whatever fails, is retried or dies, the source is intact after every attempt unless it may be removed and was judged not media, or transcode and notify had succeeded |
| `Workflow.SourceIsSafeIffOutputElsewhere` | workflows/media/workflow.go:61-151 | that holds of every run exactly when the output is not the source |
| `Workflow.SourceIsSafeIffNotMkvInPlace` | workflows/media/workflow.go:61-151 | the same in terms of the configuration: not a *.mkv written back into the watch root |
| `Workflow.RetriedCleanupLeavesCleanedFiles` | workflows/media/activities.go:468-493 | any number of partial cleanups ending in success leave the same files as one |
| `Workflow.AttemptOnFiles` | workflows/media/activities.go:468-493 | a cleanup attempt that dies anywhere leaves one of three sets of files, and a successful one the last |
| `Workflow.FailureIsNotifiedOnce` | workflows/media/workflow.go:65-96 | the failure webhook is scheduled exactly once when the run fails and never otherwise |
| `Workflow.SuccessLeavesNothingToDo` | workflows/media/workflow.go:61-151 | after a successful run the source is gone, or its marker is there |
| `Success.MediaRunSucceedsIff` | workflows/media/workflow.go:61-151 | a run on a media file ends without error exactly when probe and crop detection report, the transcode can produce its output or finds it, an import attempt settles within the limit and before a refusal, one of the first three cleanup attempts finishes, and a marker to be written is no directory and none the output needs |
| `Success.NotMediaRunSucceedsIff` | workflows/media/workflow.go:98-148 | a run on a file that is not media ends without error exactly when the probe and one of the first three cleanup attempts finish, and a marker to be written is no directory |
| `Success.CancelledProbeFails` | workflows/media/probe.go:68-90 | a probe cut short by its context fails the run, and nothing is touched |
| `Success.SuccessLeavesNewContent` | workflows/media/workflow.go:61-151 | an output that is there after a successful run that encoded it is the whole new one |
| `Success.CleanupSucceedsIff` | workflows/media/activities.go:468-493 | where nothing is in the way, cleanup under its retry policy succeeds exactly when one of its attempts finishes |
| `Success.CleanupLeavesExactly` | workflows/media/activities.go:468-493 | a finished cleanup takes out the skipped output and the source, or marks the source, then the chain of directories that held only a deleted source, then the chain above the output, and nothing else |
| `Success.UnfinishedCleanupLeaves` | workflows/media/activities.go:468-493 | a cleanup that dies before it handles the source, or cannot mark it, has removed the skipped output only |
| `Workflow.StaleRunIsHarmless` | workflows/media/probe.go:68-90 | a run on a source already deleted changes no file whatever happens in it, but may leave the marker of a preserved one; it ends without error exactly when the probe finds nothing to read, the probe and one cleanup attempt finish, and a marker to be written can be |
| `Workflow.MediaWorkflow` | workflows/media/workflow.go:61-151 | the straight-line steps with the deferred handler produce the specified trace, tree and error |
| `Workflow.TranscodeAndNotify` | workflows/media/workflow.go:126-142 | transcode and notify end the run or hand over to cleanup |
| `Workflow.ExecuteCleanup` | workflows/media/workflow.go:144-148 | the retry loop of cleanup stops at the first recorded success or after its attempts |
| `Workflow.ExecuteNotify` | workflows/media/workflow.go:32-44 | the retry loop of notify stops at a recorded success, a permanent refusal, or after its attempts |
| `Workflow.Cleanup` | workflows/media/activities.go:468-493 | orphaned output, source or marker, prunes, in that order, stopping at an error |
| `Workflow.Probe` | workflows/media/probe.go:68-151 | deletes a file that is not media, unless it is to be preserved, and reports validity |
| `Workflow.Transcode` | workflows/media/transcode.go:311-611 | directories, reuse, temporary file, rename: the tree and path a finished attempt leaves (when it reports one: `Success.EncodeSucceedsIff`, `Success.ReuseSucceedsIff`) |
| `Workflow.RunTouchesOnlyItsFiles` | workflows/media/workflow.go:61-151 | after every attempt of any run and at its end, every file other than source, marker, output and temporary file is as it was, and no other has appeared |
| `Workflow.TranscodeKeeps` | workflows/media/transcode.go:311-611 | an attempt, dead or finished, changes nothing but its output, its temporary file and missing directories above them |
| `Workflow.OutputIsAtomic` | workflows/media/transcode.go:248-252 | whenever an attempt dies, the output path holds what it held before or the whole new content |
| `Success.EncodeSucceedsIff` | workflows/media/transcode.go:311-620 | an encode reports its path, with exactly the new content there, no temporary file and otherwise only directories added, exactly when it gets through and is recorded, the source is a file with an output path, no file is in the way of the output's directories, and neither output nor temporary path is a directory |
| `Success.ReuseSucceedsIff` | workflows/media/transcode.go:311-611 | an output that is there already is reported exactly when source and output are files, and nothing changes; an encode that fails reports nothing |
| `Success.NoTempIsLeft` | workflows/media/transcode.go:587-611 | however a full attempt to encode ends, its temporary file is gone |
| `Success.MakeDirsSucceedsIff` | workflows/media/transcode.go:362-364 | making directories fails exactly when a file is in the way |
| `Workflow.NotifySucceedsIff` | workflows/media/activities.go:420-459 | notify succeeds exactly when an attempt settles before one is refused for good, and the skip flag is that attempt's outcome |
| `Workflow.OutputStaysIffLeftByLibrary` | workflows/media/workflow.go:124-148 | after a successful run on media the output is there exactly when the settling notify attempt imported it, no attempt moved it, and it is not a source that has to go |
| `Workflow.OutputStaysIffNotSkipped` | workflows/media/activities.go:468-476 | the part of that from a finished transcode on, from any tree |
| `Workflow.MkdirAll` | workflows/media/transcode.go:362-364 | makes the missing directories, or changes nothing when a file is in the way |
| `Dispatch.EveryStartIsCountedOnce` | cmd/watcher/watcher.go:300-333 | for every interleaving of watchers and workers, runs started are exactly what the watchers counted as dispatched; that no file has two open runs is the server's own guard, kept through all steps |
| `Dispatch.OneStaleStartPerWatcher` | cmd/watcher/watcher.go:465-505 | in every reachable world, once a file is marked or gone each watcher starts at most one further run of it: of a marked one only from an earlier check, of one that is gone also from an earlier listing |
| `Dispatch.StaleStartsIff` | cmd/watcher/watcher.go:465-505 | n further runs can start exactly when n watchers are past their check or, for a file that is gone and not marked, have it listed |
| `Dispatch.HandlingBoundsStarts` | cmd/watcher/watcher.go:465-505 | after a run has marked its source, n further runs of it can start exactly when n watchers are past their check; after it has deleted it, exactly when n watchers are past it or have it listed |
| `Dispatch.StepKeepsInv` | cmd/watcher/watcher.go:300-333 | every step keeps the counters equal to the starts, and the server's one open run per file |
| `Scan.DispatchesExactlySelected` | cmd/watcher/watcher.go:439-521 | an uncancelled walk dispatches, in order, exactly the unmarked files that are no markers and lie below nothing ignored |
| `Scan.CancelledWalkIsPrefix` | cmd/watcher/watcher.go:439-443 | a cancelled walk has discovered a prefix of what the whole one does |
| `Scan.OutcomesAreCounted` | cmd/watcher/watcher.go:501-515 | submitted files are the discovered ones that started a run, duplicates those that found one running, dispatch errors the rest, in order |
| `Scan.CountersBalance` | cmd/watcher/watcher.go:482-518 | hence every discovered file is counted once: submitted, already running, or a dispatch error |
| `Scan.SuccessIffNothingFailed` | cmd/watcher/watcher.go:520-540 | a scan counts as a success exactly when nothing failed to list, check or dispatch |
| `Scan.ReportsExactlyTroubles` | cmd/watcher/watcher.go:439-521 | an uncancelled walk reports exactly the unreadable entries, the directories not listed in full and the files not checked or not dispatched that lie below nothing ignored |
| `Scan.ReportIsExact` | cmd/watcher/watcher.go:391-540 | the report of a watch: rejected exactly when misconfigured, otherwise the selected files by outcome and those troubles |
| `Scan.FinishedFileIsNotDispatched` | cmd/watcher/watcher.go:465-480 | a scan begun on what a successful workflow leaves does not dispatch its file |
| `Scan.ScanAll` | cmd/watcher/watcher.go:391-540 | every reported watch gets the report it would get alone; a pass is cancelled, having reported a proper prefix, exactly when the callbacks run out before the last watch begins or before it ends |
| `Scan.ScanOne` | cmd/watcher/watcher.go:402-535 | one watch: rejected configuration, completed walk, or cancellation |
| `Scan.Walker.Walk` | cmd/watcher/watcher.go:439-521 | the recursive walk visits what it should, as far as the context allows |
| `Scan.Walker.Callback` | cmd/watcher/watcher.go:439-521 | one callback: cancellation, skipped directory, or the visit's effect on the tally |
| `StreamSelection.OneDefaultAudioIff` | pkg/ffmpeg/transcode.go:778-890 | exactly one default audio track, downmix included, if and only if some audio is English, or one input track was default, or none was and the input needs a downmix; with English it is the first English track and the downmix is not default |
| `StreamSelection.AudioSurvives` | workflows/media/transcode.go:36-61 | the output has audio exactly when the input has |
| `StreamSelection.VideoSurvivesIff` | pkg/ffmpeg/transcode.go:473-540 | for any exclusions a video track reaches the output exactly when some remaining video stream is not an attached picture |
| `StreamSelection.DownmixIff` | workflows/media/transcode.go:63-83 | a downmix is added exactly when the input has audio and every track of it, or every English one if there are any, reports at least four channels or none at all; its source is in the output |
| `StreamSelection.AudioStaysIff` | workflows/media/transcode.go:289-309 | the audio in the output is all of the input's, or its English tracks when there are some |
| `StreamSelection.OutputTracksIff` | pkg/ffmpeg/transcode.go:473-632 | the output's tracks are, in input order, exactly: video but no cover art, stills only without other video, the English audio or all when none is, English subtitles, attachments unless new cover art is given, and nothing else |
| `StreamSelection.DownmixIsDefaultIff` | pkg/ffmpeg/transcode.go:778-890 | a downmix is added as default exactly when one is needed, no audio is English and no audio was default |
| `StreamSelection.SubtitlesAreEnglish` | workflows/media/transcode.go:85-110 | only English subtitles reach the output, and the first of them alone is default |
| `StreamSelection.WithoutEnglishFlagsAreCopied` | pkg/ffmpeg/transcode.go:866-887 | without English audio all audio stays with its own default flags |
| `StreamSelection.FirstEnglishIsOnlyDefault` | pkg/ffmpeg/transcode.go:866-887 | with English tracks of a kind the first of them is the only default one |
| `StreamSelection.ExcludedIff` | workflows/media/transcode.go:289-299 | with distinct indices, exclusion by index is exclusion by kind and language |
| `StreamSelection.RunProbe` | workflows/media/probe.go:90-140 | the audio and subtitle lists of a valid file; valid exactly with a video stream in a video format |
| `StreamSelection.NonEnglishAudioIndices` | workflows/media/transcode.go:36-61 | the non-English indices, or none without English audio |
| `StreamSelection.NonEnglishSubtitleIndices` | workflows/media/transcode.go:85-97 | the non-English indices |
| `StreamSelection.DownmixSourceIndex` | workflows/media/transcode.go:63-83 | the first surround stream, unless some stream is stereo-compatible |
| `StreamSelection.FirstEnglishIndex` | workflows/media/transcode.go:99-110 | the first English stream |
| `StreamSelection.ChooseStreams` | workflows/media/transcode.go:289-309 | exclusions, defaults and downmix source of the transcode |
| `StreamSelection.BuildStreamStates` | pkg/ffmpeg/transcode.go:473-632 | a stream is processed exactly when it is not excluded, no cover art, no still beside a real video, and writable |
| `StreamSelection.SetupOutput` | pkg/ffmpeg/transcode.go:651-801 | the tracks in input order with their default flags, and the downmix flag |
| `SubtitleBuffer.TotalGrowthsBound` | pkg/ffmpeg/subtitle_codec.go:168-202 | over any packets the buffer grows at most ceil(log2(limit / initial)) times in all, and that often when some payload needs the limit |
| `SubtitleBuffer.AtMostSixGrowths` | pkg/ffmpeg/subtitle_codec.go:20-35 | from 64 KiB at most six times |
| `SubtitleBuffer.OnlyLargestMatters` | pkg/ffmpeg/subtitle_codec.go:132-202 | packets in any order grow the buffer as their largest payload alone would |
| `SubtitleBuffer.FitTwice` | pkg/ffmpeg/subtitle_codec.go:191-202 | growing for one payload and then another is growing for the larger |
| `SubtitleBuffer.Fit` | pkg/ffmpeg/subtitle_codec.go:191-202 | the grown buffer holds the payload exactly when it is at most max(initial, 4 MiB) |
| `SubtitleBuffer.BytesArePayload` | pkg/ffmpeg/subtitle_codec.go:132-202 | bytes come out exactly for a text that is not empty and fits, and they are the codec's, whole; the other results likewise |
| `SubtitleBuffer.SubtitleConverter.Convert` | pkg/ffmpeg/subtitle_codec.go:132-166 | terminates from a positive size, returns exactly the payload when it fits the limit, and fails when it does not, independent of the buffer's history |
| `SubtitleBuffer.SubtitleConverter.ConvertAll` | pkg/ffmpeg/subtitle_codec.go:132-166 | each packet converts as it would alone; size and growths are those of the whole sequence |
| `SubtitleBuffer.SubtitleConverter.GrowEncodeBuffer` | pkg/ffmpeg/subtitle_codec.go:168-202 | doubles up to the limit, fails exactly at the limit |
| `Idle.FiresIffQuiet` | cmd/worker/idle.go:194-221 | a tick drains exactly when no task is in flight and no task event fell within the window before it |
| `Idle.NothingInFlightDuringWindow` | cmd/worker/idle.go:194-221 | throughout the window before a drain no task was in flight |
| `Idle.FirstTickAfterQuietFires` | cmd/worker/idle.go:177-221 | once idle for long enough the next tick drains |
| `Idle.DrainIsPrompt` | cmd/worker/idle.go:177-221 | the drain is late by less than the time between two ticks |
| `Idle.IdlePoller.Run` | cmd/worker/idle.go:177-190 | stops at the first tick that drains, and cancels exactly then |
| `Idle.IdlePoller.Evaluate` | cmd/worker/idle.go:194-221 | drains when idle for long enough; the countdown is zero exactly then, is held while tasks run, and otherwise is the time until a drain |
| `Idle.IdleTracker.MarkStart` | cmd/worker/idle.go:52-58 | a start counts and stamps |
| `Idle.IdleTracker.MarkEnd` | cmd/worker/idle.go:60-66 | an end uncounts and stamps |

## Left out

- libav: demuxer, decoders, encoders, filters, resampler and muxer are sequences of packets, frames and measurements given as inputs; the muxer is an append-only log whose writes may start to fail.
- Read, decode and encode errors and cancellation inside the packet, audio and crop loops; only a failing write ends the modelled packet loop early.
- Video encoding and hardware planning (`pkg/ffmpeg/stream_video.go`, `hwdetect.go`, `hw_profiles.go`).
- Encoder flushing at the end of a transcode and subtitle conversion inside the packet loop; `SubtitleBuffer` models the converter on its own.
- Remux.DownmixDoesNotInterfere: the downmix encoder's own output is given per packet, so what the encoder makes of its samples is not modelled there.
- Wire.WireKeepsTime: says nothing of the real time of a timestamp whose shift or moved instant the timebases cannot represent; the repair then works on what int64 arithmetic leaves.
- AudioFifo.SessionNumbers: the encoder's frame counter is an unbounded integer, so int64 wrap-around of the audio PTS is not modelled.
- Resampler.NothingLostIff: the resampler is a delay line that gives samples out in order, counted at the encoder's rate; the arithmetic of format, layout and rate conversion is not modelled.
- Ewma.AverageIsWeightedSum: over real numbers, so float rounding is not modelled.
- Sampler.EveryLifecycleIsOrderly: stated on the transition system, where goroutines interleave; the methods of `Sampler.LoadSampler` are its uninterruptible steps. Ticker timing is any schedule of ticks.
- Limiter.AdmissionBound: every run has one bound on unmarked permits as a parameter; how many the Temporal SDK leaves unmarked is not modelled, and clients in a run hold real permits, never nil ones (the methods handle both). Metrics and logging are absent.
- Workflow.SourceRemovedOnlyWhenJustified: activity timeouts appear as attempts that die or go unrecorded; backoff intervals, heartbeats and workflow cancellation do not appear. Attempts that die inside a step of the file system, and activities that go on after the server gave them up, are not modelled.
- Filesystem.PruneRemovesChain: for a tree nobody else changes meanwhile, without permissions or symbolic links.
- Dispatch.EveryStartIsCountedOnce: relies on the server accepting a start exactly when no run with that ID is open and on an accepted start being reported; a lost reply would be counted as an error. Workflow ID construction, hashing and sanitising are not modelled, so one file is taken to be one ID.
- Scan.DispatchesExactlySelected: ignore patterns, marker checks and dispatch outcomes are oracles; the ticker around the scan, the metrics and path normalisation are not modelled.
- StreamSelection.RunProbe: the file deletion of the probe is in `Workflow.Probe`; `StreamSelection` has the stream lists only. Stream titles and language tables are not modelled.
- OutputPaths.FinalPath: paths are absolute, clean and already split into components.
- SubtitleBuffer.SubtitleConverter.Convert: memory allocation always succeeds, and the initial size must be positive (a zero size would never grow).
- HTTP and library clients, artwork, webhooks, health and metrics servers, configuration parsing, load-probe file formats: input and output plumbing.
