# VBAN plugin: a verified model of its engines

The plugin receives and sends VBAN audio, video and mouse streams over UDP from inside OBS. This project models its
stateful engines in Dafny and proves what they keep over whole runs: whatever the order of packets, calls, clock readings
and thread steps. `dafny verify dfyconfig.toml` checks everything.

| Part | Files |
|---|---|
| Words, byte order, floor arithmetic | `Words.dfy` |
| Audio packets: decoder, encoder, per-destination patching | `VbanProtocol.dfy`, `PcmTransmitter.dfy` |
| Jitter buffer: one call | `StreamBuffer.dfy` (specification), `JitterBuffer.dfy` (the object), `DriftBlock.dfy` (drift correction) |
| Jitter buffer: whole runs | `StreamEpochs.dfy` (one step), `StreamRuns.dfy` (any interleaving of calls), `StreamLaws.dfy` (what each call does in a run), `StreamOutput.dfy` (output times), `StreamTimes.dfy` (when a block is due) |
| Return mixing | `AudioRing.dfy`, `MonitorClock.dfy`, `StereoRetimer.dfy`, `StereoTimeline.dfy`, `TimelineHistory.dfy`, `MonitorWorker.dfy` and `WorkerTurns.dfy` (what a turn comes to), `ReturnWorker.dfy`, `MonitorTap.dfy` and `MonitorStream.dfy` (the pieces together), `TapService.dfy` (when a tap is reset), `TapDelivery.dfy` (which captured blocks it serves), `WorkerStream.dfy` (over whole runs of the worker), `SourceTap.dfy` |
| VBAN-Frame video | `FrameProtocol.dfy` (assembler), `FrameSender.dfy`, `FrameTransfer.dfy` (both ends and a network), `CaptureGate.dfy`, `CaptureSession.dfy`, `CaptureDelivery.dfy` (a capture on its way to the network) |
| Reconfiguration while packets arrive | `Routing.dfy` (the threads' steps), `RoutingSafety.dfy` (isolation), `RoutingDelivery.dfy` (delivery), `RoutingWindow.dfy` (a concrete run) |
| Mouse return | `MouseReturn.dfy` |

An object that the program updates in place is a class whose methods do the same updates; each method is proved equal to a
step function on values (`Model() == Push(old(Model()), ...)`), and the run theorems are about those functions. Threads are
interleaved steps, one for every atomic access and every passage under a lock; a run is any sequence of steps, and a step
that its thread cannot take changes nothing. Sequence numbers are 32-bit words in the code and unbounded numbers in the
histories. Samples are exact numbers. What the environment decides (whether a send succeeds, how long a wait takes, what a
clock reads, what a library returns) is a parameter or an arbitrary choice.

## What the proofs found

- **Timeline slots tagged -1.** A slot of the circular timeline is empty when its tag is -1, which is also a time. A window
  of times is served faithfully exactly if it does not contain -1 (`TimelineHistory.WindowServedIffSafe`). The worker's
  cursor stays clear of negative times exactly if, each time it is anchored anew, the clock has run for at least the latency
  (`MonitorWorker.CursorNonNegativeIff`, `MonitorWorker.EveryTapIsSafe`). In a run that is anchored
  earlier, a later turn serves a window that contains -1 and a frame is lost (`MonitorWorker.EarlyClockLosesFrame`).
- **Blocks of the previous configuration.** The audio worker drops a block when the generation has changed since the start
  of its round. A block of the old configuration still passes exactly when the round began after the new generation was
  announced and the pull came before the slot was reset (`RoutingSafety.DeliveredExactlyUnlessEarly`, and the run in
  `RoutingWindow.PreviousBlockPasses`). The stored packets themselves are never mixed up.
- **Clock readings that are a little old.** The jitter buffer's stall test subtracts unsigned readings, so a pull whose
  reading is older than the last push stops the stream (`StreamOutput.StallStopsExactly`) and loses everything that waits
  (`StreamOutput.OldReadingEmptiesTheBuffer`, and the run in `StreamOutput.OnePacketIsLost`); the audio worker reads its clock
  before it takes the slot's lock (src/receiver.cpp:268-275). The order of samples and of output times does not depend on it.

## Model

| member | source | states |
|---|---|---|
| `StreamRuns.EpochIsAccounted` | src/stream-buffer.cpp:29-90 | in every run of pushes, pulls and resets, counter wrap included: numbers are played in strictly ascending order, each accepted packet once; a concealed number has silence of exactly the size of the packet before its gap and of one accepted at most eight numbers behind it, a skipped one has nothing; the samples handed out and queued are the sound of the numbers passed, and the expected number is the epoch's start plus packets played plus losses counted; once the epoch has ended, what was handed out is the beginning of that sound or, after an underrun, all of it and silence, every accepted packet played, and the losses are those counted |
| `StreamLaws.PushInRun` | src/stream-buffer.cpp:29-56 | in every run a push begins a new epoch if and only if there is no stream, the format differs, nothing was stored for 250 ms, or its new number, not late, finds itself more than 512 ahead, 512 packets waiting or more than a quarter of a second buffered; then the packet waits alone. Any other push keeps every waiting packet, the queue and the clock, and stores exactly this packet if its number is new and not late; each outcome moves its own counters |
| `StreamLaws.OthersKeepEpoch` | src/stream-buffer.cpp:91-144 | no pull and no reset begins an epoch: accepted packets, log and samples handed out only go on |
| `StreamTimes.PullInRun` | src/stream-buffer.cpp:91-144 | in every run, told by the readings of the calls alone: a pull gives a block if and only if there is a stream that stored a packet in the last 250 ms, the target delay has passed since the push that began its epoch, and the block is due, by at most 100 ms; its timestamp is the time it was due, at or after opening plus target delay and never after the reading; otherwise it gives none, and what waits is lost only when the stream is given up, which happens exactly on a stall or a backlog |
| `StreamTimes.TimesAreKept` | src/stream-buffer.cpp:98-105 | in every run the buffer keeps just these times: the opening push, the last push that stored, the end of the last block, and when the next block is due |
| `StreamLaws.PullWithoutBlock` | src/stream-buffer.cpp:92-112 | a pull that gives nothing waits with the stream untouched, or drops all of it after a stall or a backlog |
| `StreamLaws.PullGivesBlock` | src/stream-buffer.cpp:113-143 | a block that is due is ten milliseconds of the stream in its format, made of the samples taken from the queue: as they are, or stretched or shrunk by the one frame the depth asks for; the stream goes on from the block's end, or stops after an underrun, which is counted |
| `StreamLaws.CorrectionFollowsDepth` | src/stream-buffer.cpp:113-122 | one frame more is consumed if and only if the depth is above the target by more than the margin, one less if and only if it is as far below and a block is still there |
| `StreamRuns.RecentAreLastPlayed` | src/stream-buffer.cpp:84-85 | in every run the list of recent numbers holds the last 128 played |
| `StreamRuns.Run` | src/stream-buffer.cpp:8-144 | every state any run reaches satisfies the buffer's whole invariant |
| `StreamRuns.PlayedInOrder` | src/stream-buffer.cpp:82-87 | the numbers played ascend strictly, and each number passed was either played or counted as lost |
| `StreamRuns.MemoryIsBounded` | src/stream-buffer.cpp:36-90 | in every run: at most 512 packets wait, all within 512 of the expected number; the queue is shorter than one packet; both together stay below a quarter of a second and 511 frames |
| `StreamRuns.RecentIsLate` | src/stream-buffer.cpp:36-45 | the list of 128 recent numbers only ever turns away numbers that the half-range window test would turn away as late |
| `StreamRuns.MakeIsGood` | src/stream-buffer.cpp:113-144 | a block is made of the queue's next samples; when the queue runs dry, every accepted packet had been played and only silence is added |
| `StreamRuns.PushIsGood` | src/stream-buffer.cpp:29-56 | a push keeps the invariant whether it is counted as a duplicate, counted as late, stored, or starts a new epoch; which of these happens is told by `StreamLaws.PushInRun` |
| `StreamRuns.InsertIsGood` | src/stream-buffer.cpp:41-55 | a packet that is stored is the first one for its unwrapped number |
| `StreamRuns.PullIsGood` | src/stream-buffer.cpp:91-144 | a pull keeps the invariant on every path, for any clock reading |
| `StreamEpochs.FillKeeps` | src/stream-buffer.cpp:57-90 | filling plays accepted packets in order until there is enough, or until none waits |
| `StreamBuffer.Advance` | src/stream-buffer.cpp:59-88 | filling ends: each turn takes a waiting packet away or narrows the gap to the next one |
| `StreamEpochs.ConcealKeeps` | src/stream-buffer.cpp:69-76 | silence replaces a number only inside a gap of at most eight between packets of the same size |
| `StreamEpochs.JumpKeeps` | src/stream-buffer.cpp:77-87 | a gap given up skips no packet that was ever accepted |
| `StreamEpochs.JumpIsGivenUp` | src/stream-buffer.cpp:69-81 | a gap is given up only if it is longer than eight numbers or the packets around it differ in size |
| `StreamEpochs.NearestIsNext` | src/stream-buffer.cpp:63-69 | the search over the unordered map finds the first accepted packet not yet played, also across counter wrap |
| `StreamOutput.TimestampsNeverGoBack` | src/stream-buffer.cpp:91-144 | over the buffer's whole life, for arbitrary clock readings: a block starts no earlier than the end of every earlier one, exactly at the end of the one before it within a playing run, and lasts its frames to the nanosecond |
| `StreamOutput.MakeInTime` | src/stream-buffer.cpp:104-141 | a block begins where the playing run's clock stands and moves that clock by its own length |
| `StreamOutput.FloorsDiffer` | src/vban-protocol.cpp:97-100 | durations cut to nanoseconds never accumulate their rounding |
| `StreamOutput.StallStopsExactly` | src/stream-buffer.cpp:93-97 | the stall test stops a stream exactly after a quarter of a second without progress or on a reading older than the last push |
| `StreamOutput.OldReadingEmptiesTheBuffer` | src/stream-buffer.cpp:91-97 | in any run, a pull whose reading is older than the last push empties the buffer, whatever waited in it |
| `StreamOutput.OnePacketIsLost` | src/receiver.cpp:266-275 | two calls suffice: the first packet of a stream is stored, and a pull with a reading one nanosecond older loses it |
| `DriftBlock.FrameIsBlend` | src/stream-buffer.cpp:131-139 | each frame of a drift-corrected block is the blend of two neighbouring input frames at its position |
| `DriftBlock.EndsAreKept` | src/stream-buffer.cpp:131-139 | such a block begins and ends exactly on the first and last frame it consumes |
| `DriftBlock.SamplesStayInRange` | src/stream-buffer.cpp:136-137 | no sample of it leaves the range of the samples consumed |
| `JitterBuffer.JitterBuffer.constructor` | src/stream-buffer.hpp:23 | a new buffer is one from which every run of the model may start |
| `JitterBuffer.JitterBuffer.Reset` | src/stream-buffer.cpp:8-14 | everything is cleared except the end of the last block, so that later blocks cannot go back before it |
| `JitterBuffer.JitterBuffer.Begin` | src/stream-buffer.cpp:15-23 | a new epoch expects the packet's own number, and drops queue, waiting packets and recent numbers |
| `JitterBuffer.JitterBuffer.BufferedFrames` | src/stream-buffer.cpp:24-28 | the loop over the unordered map computes the sum of the waiting frames and the queue |
| `JitterBuffer.JitterBuffer.Push` | src/stream-buffer.cpp:29-56 | counters, window and map after a push are those of the specified push, for a duplicate, a late, an overrunning and a stored packet: the run theorems, and `StreamLaws.PushInRun` with them, hold of the object |
| `JitterBuffer.JitterBuffer.FindNearest` | src/stream-buffer.cpp:63-69 | the search finds the nearest waiting number, whatever the map's order |
| `JitterBuffer.JitterBuffer.AdvanceOnce` | src/stream-buffer.cpp:60-87 | one turn consumes the expected packet, conceals its number, jumps over a gap or gives up, in exactly the cases of the specified turn |
| `JitterBuffer.JitterBuffer.Fill` | src/stream-buffer.cpp:57-90 | the loop in place, with its early exits, reaches the state and result of the specified filling |
| `JitterBuffer.JitterBuffer.Due` | src/stream-buffer.cpp:92-112 | when no block is due, when a stall or a backlog stops the stream, and at which time the block is due otherwise: with `StreamLaws.PullWithoutBlock`, not before the target delay has passed since the opening push |
| `JitterBuffer.JitterBuffer.Correct` | src/stream-buffer.cpp:113-122 | a block consumes one frame more or less exactly outside the margins around the target depth, and each such block is counted once |
| `JitterBuffer.JitterBuffer.Resample` | src/stream-buffer.cpp:131-139 | the loop over frames yields the block whose ends, range and frames are proved in `DriftBlock` |
| `JitterBuffer.JitterBuffer.EmitBlock` | src/stream-buffer.cpp:124-143 | the queue loses exactly what the block consumes, the clock moves by the block's length, and an underrun stops the stream |
| `JitterBuffer.JitterBuffer.Pull` | src/stream-buffer.cpp:91-144 | block and state after a pull are those of the specified pull: the run and output theorems, and `StreamTimes.PullInRun` with them, hold of the object |
| `AudioRing.PoppedIsPrefixOfPublished` | src/return-audio.hpp:11-32 | in every interleaving of single loads, stores and slot accesses, what is popped is a prefix of what is published, and at most the capacity lies between |
| `AudioRing.SlotsNeverShared` | src/return-audio.hpp:13-27 | no slot is written while the consumer may read it, so each look sees the published value |
| `AudioRing.RoomIsUsed` | src/return-audio.hpp:13-18 | in every interleaving the callback gets a slot if and only if there was room when it looked, and what it stores is then published |
| `AudioRing.DataIsUsed` | src/return-audio.hpp:19-27 | in every interleaving the worker gets a block if and only if one was published when it looked: the first not yet popped, and popping it moves on to the next |
| `MonitorClock.DriftIsAbsorbed` | src/return-audio.hpp:53-87 | for any number of blocks of a source that drifts by at most a frame per block: no discontinuity, each start is the previous start plus the previous adjusted length, and within two frames of the timestamp |
| `MonitorClock.BlocksAreContiguous` | src/return-audio.hpp:53-87 | for every source, a block that is no discontinuity starts where its predecessor ended, and changes length and a foreign clock's offset by at most one |
| `MonitorClock.AnchoringBlock` | src/return-audio.hpp:58-64 | the first block, and one more than half a second off, goes where its timestamp says if that is within two seconds of its arrival, else where it arrives; a discontinuity exactly if it is not the first |
| `MonitorClock.FollowingBlock` | src/return-audio.hpp:77-86 | any other block follows its predecessor, unless it is due more than a hundredth of a second from there; it is lengthened or shortened by a frame towards where it is due, and a source on the shared clock stays on it |
| `MonitorClock.OffsetFollowsArrivals` | src/return-audio.hpp:69-76 | a foreign clock is pulled towards its arrivals: the estimate moves by the block's share of a second towards the arrival error, and the offset by one frame against an estimate above a two-hundredth of a second |
| `MonitorClock.IdealSourceIsUntouched` | src/return-audio.hpp:53-87 | a perfect sample clock, its callbacks split in any way, is passed through for ever: no correction, each start exact |
| `MonitorClock.IdealTimestampWithinOne` | src/monitor-return.cpp:80-85 | both truncations of a split callback's timestamp cost less than a frame together |
| `MonitorClock.NsToFramesTruncates` | src/return-audio.hpp:36-38 | for every duration, the negative ones of a sync offset included, the split division is the exact quotient cut toward zero |
| `MonitorClock.MonitorClock.PositionBlock` | src/return-audio.hpp:53-87 | start position and state after a block are those the drift theorems are about |
| `MonitorClock.MonitorClock.Reset` | src/return-audio.hpp:90-93 | nothing of the old source survives a reset |
| `VbanProtocol.FramesToNsIsFloor` | src/vban-protocol.cpp:97-100 | the split multiplication is the floor of the exact duration |
| `StereoRetimer.StreamIsSmooth` | src/return-audio.hpp:104-126 | over a whole stream of blocks, each one frame longer or shorter or unchanged: no output leaves the input's range, and neighbouring outputs differ by at most twice the largest input step, across block edges too |
| `StereoRetimer.BlockIsSmooth` | src/return-audio.hpp:112-121 | within a block and across its left edge neighbouring outputs differ by at most frames/adjusted times the largest step |
| `StereoRetimer.BlockEndsOnInput` | src/return-audio.hpp:112-124 | a block's last output is its last input |
| `StereoRetimer.LineStaysLine` | src/return-audio.hpp:112-121 | output samples lie evenly over the block, from one step after the previous block's last sample on: a straight line comes out as the same line |
| `StereoRetimer.SlopeBound` | src/return-audio.hpp:113-119 | between any two positions the interpolation changes no faster than its steepest input step |
| `StereoRetimer.InterpolationInHull` | src/return-audio.hpp:116-119 | every interpolated value lies between the samples it is drawn from |
| `StereoRetimer.StereoRetimer.Process` | src/return-audio.hpp:104-126 | both channels of the block are retimed from the carried sample, and the last input frame is carried on |
| `StereoTimeline.StereoTimeline.Put` | src/return-audio.hpp:140-152 | the loop over the array stores the block frame by frame, each channel of a frame scaled by the gain in its own place, and counts the late frames |
| `StereoTimeline.StereoTimeline.Mix` | src/return-audio.hpp:153-161 | the output gains what the slots hold for its times, and those slots are emptied |
| `StereoTimeline.StereoTimeline.Clear` | src/return-audio.hpp:139 | every slot becomes empty |
| `StereoTimeline.StereoTimeline.Resize` | src/return-audio.hpp:138 | another size starts with empty slots; the same size changes nothing |
| `TimelineHistory.TimelineRepresentsMap` | src/return-audio.hpp:135-164 | in every life in which the cursor only advances between clears, the slots hold from the cursor on exactly the map from times to the first sample put for them |
| `TimelineHistory.MixEmitsFirstPut` | src/return-audio.hpp:140-161 | a mix adds at each time exactly gain times the first sample put for it in its window, or silence |
| `TimelineHistory.MixByPuts` | src/return-audio.hpp:140-161 | told by the puts alone, and by channel: if a put is the first since the timeline was last emptied whose window contains the time, the mix adds its left sample times its gain on the left and its right one on the right; if there is none it adds nothing |
| `TimelineHistory.SlotInjective` | src/return-audio.hpp:147-157 | two times of one window never share a slot |
| `TimelineHistory.WindowServedIffSafe` | src/return-audio.hpp:136-158 | a window is served faithfully in every life that may lead up to it, if and only if it does not contain the time -1 |
| `TimelineHistory.FrameAtMinusOne` | src/return-audio.hpp:136-158 | in any window that contains -1, a frame put for that time into empty slots is lost |
| `TimelineHistory.NoFrameTwice` | src/return-audio.hpp:153-161 | no frame is emitted twice: while the timeline is not cleared, a later mix begins no earlier than an earlier one ends |
| `MonitorWorker.CursorNeverReturns` | src/monitor-return.cpp:219-263 | sources may come and go and clock, rate and latency may change: no timeline ever sees its cursor go back without having been cleared |
| `MonitorWorker.EveryTapEmitsFirstPut` | src/monitor-return.cpp:219-263 | from the worker to the samples, in every run whose windows do not contain the time -1: every mix of every tap adds at each time exactly the first sample put for it |
| `MonitorWorker.EveryTapIsSafe` | src/monitor-return.cpp:219-263 | as long as the clock has run for at least the latency each time the cursor is anchored anew, no window of any tap contains -1 |
| `MonitorWorker.CursorNonNegativeIff` | src/monitor-return.cpp:247-261 | the cursor is never negative in a run if and only if, each time it is anchored anew, the clock has run for at least the latency; the test can be made before the turn |
| `MonitorWorker.NextCursor` | src/monitor-return.cpp:247-261 | a turn that anchors the cursor anew sends nothing, and any other only advances it |
| `WorkerTurns.TurnSends` | src/monitor-return.cpp:231-261 | a turn anchors the cursor anew exactly at first, on a change of rate or latency, or more than a second behind; every other turn sends each block that is due, 32 at most, serving every live tap for each at that block's cursor, and ends less than a block behind unless it sent 32; dead taps are gone |
| `WorkerTurns.LiveAreTracked` | src/monitor-return.cpp:189-206 | in every run the live taps are those of the sources tracked and not destroyed since |
| `MonitorWorker.NoTapEmitsTwice` | src/monitor-return.cpp:253-261 | no tap emits a frame twice, in any run, unless a clear lies between |
| `MonitorWorker.EarlyClockLosesFrame` | src/monitor-return.cpp:247-261 | a run on the shortest buffer, anchored before the clock has run for the latency: its second turn attaches a source, mixes a window that contains -1, and the frame put for that time is lost |
| `MonitorWorker.EarlyFrames` | src/monitor-return.cpp:228-246 | the clock readings of that run, its rate and its 20 ms of latency in frames |
| `MonitorTap.EarlyBlockIsServed` | src/monitor-return.cpp:155-163 | what the worker does in that run is two resets and the serving of a block, captured while the source is attached, whose resampler is one frame late |
| `TapService.EarlyService` | src/monitor-return.cpp:116-170 | servicing that source comes to exactly these two resets and this block: attaching it, and the first sight of its format |
| `MonitorWorker.ServiceInOrder` | src/monitor-return.cpp:116-170 | servicing a tap, whatever it resets, resizes or puts, leaves its timeline ready for the next cursor |
| `ReturnWorker.ReturnWorker.Turn` | src/monitor-return.cpp:225-261 | one turn of the loop is the turn the cursor theorems are about: dead taps go, the cursor is re-anchored if it must be, at most 32 blocks follow |
| `ReturnWorker.ReturnWorker.Anchor` | src/monitor-return.cpp:231-252 | a cursor that jumps is preceded by clearing all live timelines |
| `ReturnWorker.ReturnWorker.ServeTaps` | src/monitor-return.cpp:256-258 | each live tap is served exactly once for a block |
| `MonitorTap.BlocksTileTheTimeline` | src/monitor-return.cpp:132-167 | clock, retimer and timeline together, for every source whatsoever: as long as blocks come on time, the timeline holds exactly the retimed stream since it was last emptied, each block laid down where its predecessor ended |
| `MonitorTap.MixPlaysTheStretch` | src/monitor-return.cpp:132-170 | a mix adds at each time the next sample of that stream, with no gap and no overlap |
| `MonitorTap.ServingIsWork` | src/monitor-return.cpp:155-163 | serving a block is one of the series of works the cursor theorems quantify over |
| `MonitorStream.DriftingSourceIsOneStretch` | src/monitor-return.cpp:155-163 | a drifting source on its own clock is not interrupted by its blocks: what the tap has to play is the retimed stream of all of them |
| `MonitorStream.ResetForgets` | src/monitor-return.cpp:112-115 | after a reset, clock, carried frame and stretch are those of a tap that has only seen what came since |
| `MonitorStream.ChannelsAreInputs` | src/monitor-return.cpp:149-164 | what is retimed for each channel is the resampler's output for that channel, block by block |
| `MonitorStream.DriftingSourceIsPlayed` | src/monitor-return.cpp:132-170 | from a drifting source to the mix: the retimed stream of all its blocks since the tap was last reset, one frame for every frame of time, the left channel's sample times the volume on the left and the right one's on the right, and silence before and after it |
| `WorkerStream.WorkerPlaysSource` | src/monitor-return.cpp:219-263 | over whole runs of the worker, from a source's ring to the mix, with the tap reset wherever the worker resets it, at any changes of rate, epoch, format and settings: as long as the source's blocks are punctual, every mix of its tap adds at each time the next sample of the retimed stream since the tap was last emptied |
| `WorkerStream.WorkerPlaysDriftingSource` | src/monitor-return.cpp:219-263 | if moreover the source has drifted without interruption since its tap was last reset, that is the retimed stream of all its blocks since then, scaled by the volume |
| `WorkerStream.PunctualIsOnTime` | src/monitor-return.cpp:132-163 | a block due no earlier than a hundredth of a second after the cursor, and no further ahead than the timeline is long, falls into the window wherever its clock places it |
| `WorkerStream.WithinLatency` | src/monitor-return.cpp:241-259 | by the clock: a captured block due no earlier than the latency less a hundredth of a second ago is punctual, on a worker no further behind than the timeline is long |
| `WorkerStream.TapFollows` | src/monitor-return.cpp:219-263 | in every run the worker's tap has gone through exactly the resets, servings and mixes that its re-anchors and its services come to |
| `WorkerStream.SomeServiceServes` | src/monitor-return.cpp:132-166 | for every series of resets and blocks there is a service of the worker that does exactly these |
| `TapService.OneKindBetweenResets` | src/monitor-return.cpp:112-166 | in every life of a tap, whatever the signals, the ring and the settings do: the blocks it serves between two resets were all captured under one epoch and one layout and resampled to one rate; which blocks they are is `TapDelivery.ServedByIndex` |
| `TapDelivery.ServedByIndex` | src/monitor-return.cpp:116-170 | by ring index: of the first 128 blocks of a ring exactly those are served that were captured under the present epoch of an active source and for which there is a resampler that gives output, in ring order, each once, with its own mark, timestamp, arrival, gain and samples; the tap is emptied before the first of them if it was just attached or its epoch or rate changed, and else before a block exactly if there was no resampler for its layout and rate |
| `TapDelivery.ResamplerByIndex` | src/monitor-return.cpp:140-147 | before each block there is a resampler for its layout and the rate exactly if one was left over or was created for a block since which the layout has not changed |
| `TapDelivery.BeginningIsPrepared` | src/monitor-return.cpp:126-135 | before the ring is looked at, the tap is reset once if the source is attached now or the epoch or the output rate has changed, and not otherwise |
| `TapDelivery.ServiceWithoutBlocks` | src/monitor-return.cpp:116-125 | an unwanted source is reset and serves nothing, one that cannot be had is left alone; a tap is mixed exactly if its source is wanted and stays active, monitored and in its epoch |
| `TapDelivery.CapacityIsEnough` | src/monitor-return.cpp:156-158 | the timeline is resized to more than the sync delay and the look-behind together |
| `TapService.ServedBlocksAreCurrent` | src/monitor-return.cpp:134-139 | no block is served that was captured before the last epoch the worker has seen; that current ones are is `TapDelivery.ServedByIndex` |
| `TapService.AttachingResets` | src/monitor-return.cpp:126-131 | a source is reset when it is attached, before any of its blocks |
| `TapService.ServiceIsValid` | src/monitor-return.cpp:116-170 | what a service comes to is one of the series of resets and blocks that the worker's runs are about |
| `MonitorTap.PlacedNearDue` | src/return-audio.hpp:77-83 | every block of every source is placed within a hundredth of a second of the time it is due |
| `SourceTap.SourceTap.ServeBlock` | src/monitor-return.cpp:155-163 | resizing, placing, clearing after a discontinuity, retiming and putting, in place and in this order, reach the tap state those theorems are about |
| `SourceTap.SourceTap.Retime` | src/return-audio.hpp:104-126 | the interleaved block is retimed from the frame carried over, and its last frame is carried on |
| `SourceTap.SourceTap.ResetAudio` | src/monitor-return.cpp:112-115 | a reset empties timeline, clock and retimer together |
| `SourceTap.SourceTap.Mix` | src/monitor-return.cpp:168-170 | the output gains exactly the tap's contribution |
| `FrameTransfer.NeverMixedNeverPartial` | src/frame-protocol.cpp:13-62 | over any network that loses, repeats and reorders the fragments of many pictures and injects other bytes, what the assembler returns is byte for byte one whole picture that was sent |
| `FrameTransfer.PicturesAscend` | src/frame-protocol.cpp:28-31 | over any such network and for one sender's numbered pictures: within two seconds of a picture only a later one is returned, so none twice and none out of order |
| `FrameProtocol.NewerFollowsWithinTimeout` | src/frame-protocol.cpp:28-60 | whatever arrives: within two seconds of an image only one with a newer number is returned |
| `FrameProtocol.ImageInProgress` | src/frame-protocol.cpp:10-62 | an image in progress is given up if and only if two seconds have passed or a datagram shows a loss; it grows by its next fragment alone, is returned with the last, and nothing else touches it |
| `FrameTransfer.FragmentStaysFaithful` | src/frame-protocol.cpp:28-61 | while a picture is in progress, the bytes are its first fragments |
| `FrameTransfer.FragmentParsed` | src/frame-sender.cpp:111-147 | the assembler reads in each fragment what the sender wrote |
| `FrameTransfer.FragmentIsNamed` | src/frame-sender.cpp:114-118 | the receiver finds the stream's name in every fragment, so it can tell whose slot it is for |
| `FrameTransfer.InOrderIsReassembled` | src/frame-protocol.cpp:13-62 | fragments in order within the timeout, with lulls, repetitions and older pictures between them, return the picture at the last one and nothing before |
| `FrameTransfer.SentPictureIsReceived` | src/frame-sender.cpp:106-148 | from end to end: a picture sent within its deadline comes out at its last datagram although delivery times vary by half a second |
| `FrameProtocol.ImagesConserved` | src/frame-protocol.cpp:5-62 | pictures started = completed + incomplete + the one in progress, in every run |
| `FrameProtocol.FrameAssembler.PushDatagram` | src/frame-protocol.cpp:13-62 | the returned picture and the state are those of the specified push, whatever the moved-out byte buffer holds |
| `FrameProtocol.FrameAssembler.ExpireImage` | src/frame-protocol.cpp:10-12 | only a picture in progress for more than two seconds, by unsigned difference, is given up and counted |
| `FrameProtocol.FrameAssembler.DiscardImage` | src/frame-protocol.cpp:5-9 | a picture given up is counted once |
| `FrameSender.Session.SendImage` | src/frame-sender.cpp:106-159 | what is written is a prefix of the picture's fragments, each after the gap its predecessor owes and before the deadline; unless the session stops, the gap of the last one written has passed on return, also after a failure; a return of true means all of them, and that the pause for decoding has passed; a picture within budget that is not sent in full was stopped, missed its 1.5 s or met a datagram the socket refused; a picture over budget uses no number and sends nothing |
| `FrameSender.Session.SendFragment` | src/frame-sender.cpp:129-147 | one datagram is the picture's fragment with that index; none is sent exactly on a stop request, after the deadline or when the socket refuses it |
| `FrameSender.PacingBound` | src/frame-sender.cpp:106-155 | between any two writes of a picture the wire rate keeps to the configured bit rate, up to a nanosecond per gap and one more |
| `FrameSender.PictureKeepsRate` | src/frame-sender.cpp:106-160 | from its start to the end of its pause, a whole picture keeps to the configured bit rate, up to a nanosecond per datagram and one more |
| `FrameSender.PartKeepsRate` | src/frame-sender.cpp:129-147 | the part of a picture that was sent keeps to the rate too, from its start to its end |
| `FrameSender.SuccessionKeepsRate` | src/frame-sender.cpp:106-174 | however many pictures follow one another, some of them cut short by a failed send or a missed deadline, all their bytes keep to the rate over the whole time |
| `FrameSender.Session.SendFragments` | src/frame-sender.cpp:129-147 | the loop writes the fragments in order and stops short only on a stop request, a missed deadline or a failed send |
| `FrameSender.Session.Rest` | src/frame-sender.cpp:152-159 | the last datagram is paced like the others, and the pause for decoding follows, unless the session stops |
| `FrameSender.WireSizeIsSum` | src/frame-sender.cpp:85-88 | the sizes charged for the fragments add up to exactly the size the budget was checked with |
| `FrameSender.PictureIsSpread` | src/frame-sender.cpp:119-159 | from its first datagram to the end of its pause, a whole picture takes at least 85% of its frame interval and 2 ms, and at least its transfer time and the decoding pause of an eighth of it, within 2 and 25 ms, up to a nanosecond per datagram |
| `FrameSender.BytesAreSpread` | src/frame-sender.cpp:122-147 | between any two of its datagrams a picture takes at least its bytes' share of that duration: no burst at the start |
| `FrameSender.PacingFitsInWords` | src/frame-sender.cpp:122-154 | no product of the pacing leaves 64 bits |
| `CaptureGate.CaptureGate.Capture` | src/frame-sender.cpp:66-73 | the gate's two timestamps and its answer are those the rate theorems are about |
| `CaptureGate.RateIsLimited` | src/frame-sender.cpp:66-73 | with timestamps that never go back, the (k+1)-th passed frame is at least k periods after the first |
| `CaptureGate.WindowIsLimited` | src/frame-sender.cpp:66-73 | a window of length T passes at most T/period + 2 frames |
| `CaptureGate.RateDoesNotDrift` | src/frame-sender.cpp:66-73 | if the source never pauses for more than a period, the (k+1)-th passed frame falls in the k-th period after the first |
| `CaptureGate.GateOpens` | src/frame-sender.cpp:66-73 | for arbitrary timestamps: the first frame passes, one that goes back passes, one a period or more after the last passed passes, and none passes between going on and the last passed |
| `CaptureSession.BufferAlwaysFree` | src/frame-sender.cpp:74-83 | in every interleaving the callback finds a buffer, and never one the encoder reads |
| `CaptureSession.ImagesEncodeTheirCaptures` | src/frame-sender.cpp:188-236 | every image queued, a refresh for an unchanged picture included, encodes exactly the picture captured |
| `CaptureSession.KeptBytesMatchKeptPicture` | src/frame-sender.cpp:200-235 | whenever they may be compared or repeated, the bytes kept for a refresh encode the picture kept for comparison: always but between keeping new bytes and giving their buffer the old one's place |
| `CaptureSession.TransmissionsInCaptureOrder` | src/frame-sender.cpp:161-174 | images are transmitted in strict capture order, each at most once |
| `CaptureDelivery.CaptureIsTransmitted` | src/frame-sender.cpp:74-236 | whatever the other threads do in between: a captured picture that differs from the one encoded last is encoded, queued and transmitted under its own capture |
| `CaptureDelivery.CaptureWaits` | src/frame-sender.cpp:74-83 | a capture is copied whole and waits for the encoder as the newest picture, whatever happens during the copy |
| `CaptureDelivery.PendingIsTaken` | src/frame-sender.cpp:191-196 | the encoder takes exactly the picture that waits |
| `CaptureDelivery.ChangedIsQueued` | src/frame-sender.cpp:200-232 | a changed picture is queued once, with its encoding, under its own capture |
| `CaptureDelivery.QueuedIsKept` | src/frame-sender.cpp:231-235 | the queued picture and its bytes are kept for the next comparison |
| `CaptureDelivery.UnchangedIsRefreshed` | src/frame-sender.cpp:202-207 | an unchanged picture is queued again with the kept bytes or not at all, and what is kept stays |
| `CaptureDelivery.ReadyIsTransmitted` | src/frame-sender.cpp:163-174 | the image queued last is the next one transmitted, once |
| `CaptureDelivery.OthersLeave` | src/frame-sender.cpp:74-84 | neither the callback nor the transmitter touches the buffers the encoder works with |
| `RoutingSafety.BuffersMatchThePublishedRoute` | src/receiver.cpp:135-151 | for every interleaving: once a route is published, every packet in a slot's buffer matches that slot's enabled flag, sender, name and port; that matching packets do arrive there is `RoutingDelivery.AudioIsDelivered` |
| `RoutingSafety.PicturesMatchTheirSlot` | src/video-receiver.cpp:14-36 | at any moment the picture of a slot was put together only from fragments queued under the slot's present generation, all from its configured sender, name and port; that completed pictures are shown is `RoutingDelivery.PictureIsShown` |
| `RoutingSafety.DeliveredExactlyUnlessEarly` | src/receiver.cpp:266-287 | a delivered block belongs to its generation's route if and only if it was not pulled between that generation's announcement and its slot's reset; otherwise all of it belongs to the route published before |
| `RoutingSafety.RunIsSafe` | src/receiver.cpp:90-291 | the invariant behind these three, over all steps of the four threads |
| `RoutingDelivery.AudioIsDelivered` | src/receiver.cpp:187-263 | from any state of any run: a datagram read from the published route's socket, with no settings being applied, is pushed into each of the eight slots whose flag, sender, name and port match it, and every other buffer stays |
| `RoutingDelivery.VideoIsQueued` | src/receiver.cpp:217-227 | such a video datagram is queued for exactly the video slots it matches, under their present generations, if there is room |
| `RoutingDelivery.PictureIsShown` | src/video-receiver.cpp:53-107 | a fragment of the slot's present generation, young enough, that completes a picture that can be decoded makes that picture the one shown, and changes no other slot |
| `RoutingDelivery.BlockIsHandedOn` | src/receiver.cpp:266-287 | a block pulled under the current generation is delivered to the consumers of its slot |
| `RoutingDelivery.SettingsComeIntoForce` | src/receiver.cpp:135-151 | settings come into force, and exactly the slots they concern are emptied or reconfigured; all others keep packets, picture and generation |
| `RoutingDelivery.NetworkHasOneWay` | src/receiver.cpp:187-263 | the network thread goes through these steps in this order only: any other step changes nothing |
| `RoutingDelivery.VideoHasOneWay` | src/video-receiver.cpp:53-107 | the video worker takes, assembles and stores in this order only |
| `RoutingDelivery.SettingsHaveOneWay` | src/receiver.cpp:135-151 | settings are applied slot by slot and then published, in this order only |
| `RoutingSafety.SettingsKeepIsolated` | src/receiver.cpp:135-151 | applying settings, slot by slot under each slot's lock, keeps every buffer to the route its slot follows |
| `RoutingSafety.SettingsKeepCarried` | src/receiver.cpp:137-149 | a packet whose generation was checked under the slot's lock still fits the slot when settings are applied meanwhile |
| `RoutingSafety.NetworkKeepsCarried` | src/receiver.cpp:187-241 | a route the network thread holds may be out of date, but its generation then tells |
| `RoutingSafety.EnqueuedIsCurrent` | src/receiver.cpp:217-226 | a fragment is queued only for a slot whose present configuration accepts it |
| `RoutingSafety.VideoKeepsPictures` | src/video-receiver.cpp:53-115 | taking, assembling and storing never mix fragments of two generations |
| `RoutingSafety.ConfigureKeepsPictures` | src/video-receiver.cpp:14-25 | reconfiguring a video slot leaves no picture, queued fragment or half-assembled image that passes for the new configuration |
| `RoutingWindow.PreviousBlockPasses` | src/receiver.cpp:266-287 | a run in which a block of the previous configuration is delivered under the new generation |
| `VbanProtocol.AcceptedPacketIsValid` | src/vban-protocol.cpp:25-75 | an accepted packet has what the jitter buffer relies on: a table rate, 1 to 8 channels, 1 to 256 frames and all their samples |
| `VbanProtocol.AcceptedIff` | src/vban-protocol.cpp:25-75 | a datagram is accepted if and only if its header bytes are those of VBAN audio with a table rate, at most eight channels and a known sample type, its length is exactly what they ask for, its name is printable and every sample is a number |
| `VbanProtocol.SampleValues` | src/vban-protocol.cpp:51-59 | bytes are unsigned around 128, and two, three and four bytes little-endian two's complement, all in proportion to negative full scale |
| `VbanProtocol.AllReadable` | src/vban-protocol.cpp:49-72 | sample k of an accepted datagram is the one at place k of its payload |
| `VbanProtocol.EighthIsSilent` | src/vban-protocol.cpp:47-70 | of seven channels each keeps its place in every frame, and an eighth is silent |
| `VbanProtocol.DecodeInto` | src/vban-protocol.cpp:25-75 | the decoder with its loops computes the specified packet, and a rejected datagram leaves the result untouched |
| `VbanProtocol.ReadSamples` | src/vban-protocol.cpp:47-72 | the nested loops deliver the samples in wire order, with a silent eighth channel after seven |
| `VbanProtocol.NameField` | src/vban-protocol.cpp:18-24 | the loop finds the length of the stream name |
| `PcmTransmitter.EncodedPacketDecodes` | src/vban-transmitter.cpp:25-48 | every packet the encoder builds is accepted by the decoder with the same header fields and the clamped, rounded samples |
| `PcmTransmitter.WithinHalfStep` | src/vban-transmitter.cpp:25-48 | a sample in range comes back within half a quantization step |
| `PcmTransmitter.ClippedAtFullScale` | src/vban-transmitter.cpp:39-42 | full scale and beyond is clipped to the largest and smallest value, and a sample that is not finite is zero |
| `PcmTransmitter.QuantizedIsMonotone` | src/vban-transmitter.cpp:39-42 | a larger sample never gives a smaller value, clipping included |
| `PcmTransmitter.HalvesGoAway` | src/vban-transmitter.cpp:39-42 | a sample halfway between two values gives the one further from zero |
| `PcmTransmitter.ReencodingIsIdentical` | src/vban-transmitter.cpp:25-48 | encoding what was decoded gives the same bytes |
| `PcmTransmitter.EncodeStereoPcm` | src/vban-transmitter.cpp:25-48 | for any name and depth asked for: the byte buffer is filled with exactly the specified packet, or zero is returned and the buffer left as it was, the latter exactly for an unsupported name, depth, rate or size |
| `PcmTransmitter.PatchingIsEncoding` | src/vban-transmitter.cpp:230-233 | patching name and number into an encoded packet gives the packet encoded for that destination |
| `PcmTransmitter.Transmitter.Send` | src/vban-transmitter.cpp:206-251 | although encodings are shared and patched, every enabled destination gets exactly the packet encoded for it alone, under its own number, and a disabled one, whatever its name, gets nothing |
| `MouseReturn.EveryPressIsReleased` | src/mouse-return.cpp:93-137 | for every series of commands and every pattern of failing sends, the datagrams keep the button discipline, and a held button's slot can always be sent to |
| `MouseReturn.EveryDownIsLetGo` | src/mouse-return.cpp:93-138 | when a run ends with a release or a change of route, every button-down ever sent was followed by three button-ups for its slot, destination and button |
| `MouseReturn.DownIsFollowedByThreeUps` | src/mouse-return.cpp:131-137 | between a button-down and its three button-ups there are only moves of the same slot |
| `MouseReturn.ReleaseDisciplined` | src/mouse-return.cpp:131-137 | letting go takes exactly three attempts, whatever their outcome |
| `MouseReturn.PressSends` | src/mouse-return.cpp:116-124 | a press puts exactly this on the wire after its release: a move to the caller's position on the caller's slot, and, if that is delivered, the caller's button down there; three button-ups follow exactly if the button-down fails |
| `MouseReturn.MoveSends` | src/mouse-return.cpp:125-130 | a move puts the caller's position on the wire and lets go if it fails; with the button held in another slot nothing is sent |
| `MouseReturn.ReleaseSends` | src/mouse-return.cpp:131-137 | a release is three button-ups for the slot, position and button that were held, or nothing |
| `MouseReturn.ActivateSends` | src/mouse-return.cpp:93-104 | the button-ups of a change of route go over the old one; the new one is in use afterwards |
| `MouseReturn.MouseReturn.PressButton` | src/mouse-return.cpp:116-124 | whatever was held is let go first; a press whose move fails holds nothing, and one whose button-down fails is let go |
| `MouseReturn.MouseReturn.MoveMouse` | src/mouse-return.cpp:125-130 | a move on another slot than the held one is refused, and a failed move lets go |
| `MouseReturn.MouseReturn.ReleaseLocked` | src/mouse-return.cpp:131-137 | a held button is let go by three attempts on its own slot, and no other state changes |
| `MouseReturn.MouseReturn.ActivateRouting` | src/mouse-return.cpp:93-104 | a held button is released on the old route before the sockets change |
| `MouseReturn.MouseReturn.SendAction` | src/mouse-return.cpp:105-115 | a number is used up even when no packet can be built; one attempt per packet |

## Left out

- Sockets, adapters, binding, timers and thread start and stop: a send succeeds or fails as the environment decides, and time is an input.
- JPEG and PNG coding, Qt images, the OBS resampler and the adaptive quality search: libraries outside the repository; encoding is an arbitrary function of picture and quality.
- Settings dialog, stored settings, OBS sources and signals, status texts, logs and the counters that only feed them (bytes, errors, ages, queue peaks, clipped samples).
- Scene hit-testing and the mapping of Program coordinates (src/program-mouse.cpp), and the text of mouse packets.
- Floating-point rounding, and the reading of 32- and 64-bit floating-point payloads, which is a parameter of the decoder; a value that is not finite is None.
- The foreign-clock low-pass filter: each step is proved, but not how fast many of them converge.
- Memory orders weaker than interleaved atomic accesses, and the 64-bit wrap of the ring's counters.
- 64-bit overflow of times, except in the pacing products: clock readings of the jitter buffer are 64-bit words and their difference wraps, but output times are unbounded, and the monitor's frame times are assumed to fit.
- Null arguments, and a transmitter that has no routing yet.
- AudioRing, CaptureSession and Routing are machines of thread steps on values, not classes: the source's classes are shared between threads there, and a method proved on its own would not show the interleavings.
- In Routing a buffer or picture is the set of datagrams that went into it (what is kept of it is arbitrary), a sender's address and its text are one thing, and a video slot remembers the port it was configured for where the source has one port for both.
- In CaptureSession a step that copies part of a picture may leave anything in the buffer until the copy ends.
- In FrameSender.Session a clock that never reaches a deadline is not modelled, and a timer may be short by its step of 100 ns.
- In MonitorTap the resampler is outside: its blocks are the input. In WorkerStream a sync delay does not change in the middle of a stretch, and in MonitorStream volume and capacity are constant since the last reset too.
- In TapService a view has the epoch as it is read before and after the blocks; a bump between the reads before them is seen by the next service.
- In ReturnWorker what a tap does between two mixes (its source, ring, clock and resampler) is any series of resets, resizes and puts.
