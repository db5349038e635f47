# Verified models of LPMS

LPMS wraps FFmpeg for live video. Most of it is glue, but some parts are algorithms of its own. This
project models those parts in Dafny, branch by branch, and proves what they promise over all inputs
and all runs. `dafny verify dfyconfig.toml` checks everything.

Where the program updates state, the model is a method or a class proved against a function on values,
and the results are lemmas about that function. Where threads interleave, the model is a step relation
and the results hold in every reachable state. FFmpeg, the transport stream parsers, the demuxer, the
decoders and the writers are not modelled: what they answer is an input, and a lemma that needs
something of them says so in its `requires`.

| files | part of LPMS |
|---|---|
| `AnnexB`, `Reframing`, `SeiOrder`, `SeiFixup`, `SeiRewrite`, `SeiStable`, `SeiRanges` | moving late SEI units in a transport stream |
| `WaitQueue`, `WaitQueueSteps`, `WaitQueueRuns`, `WaitQueueOutcomes` | the blocking queue and its lock handoff |
| `Rescale`, `Lift`, `Timeline`, `Mux` | timestamp repair from decoder to muxer |
| `Drain`, `DrainRuns` | feeding and draining the decoders |
| `TranscodeLoop`, `Transmux` | the transcode loop and its re-basing of copied streams |
| `Fanout` | the RTMP listener cache |
| `Segmenter`, `HashMatch`, `ScaleRule` | the HLS segmenter, the audio hash comparison, the scale rule |
| `Common` | definitions shared by the others |

## Main results

- **SEI reordering.** The ranges found are exactly the video payload bytes. Each access unit keeps its units, its delimiter and the order of SEI and of non-SEI
  units; no SEI follows a picture. The bytes inside the payload ranges are permuted, all others kept,
  and the length guard passes exactly when the units leave no gap. Running the fix again never reports a
  change, for every byte string. The rewritten stream is read back as the rearranged units exactly when
  no junction hides a start code; a condition on the input alone is given, and an input that fails it.
- **Queue.** In every interleaving the items put are the items taken, then the items queued. A woken
  `Poll` edits the items while the `Put` that woke it holds the lock, and always finds one. The handoff
  gets exactly one `Done` for each token, as long as the `Poll` it serves is still there. A `Poll` that leaves through its context,
  at any time, leaves its semaphore behind among the waiters, and the `Put` that serves it never returns.
  A run that gets there is given.
- **Timestamps.** The repairs of `fix_video_pts`, of the encoder tick and of `mux` are one function: the
  least strictly increasing sequence above the input. Its closed form is the maximum over j <= n of
  x[j] + (n - j). The chain from decoder to encoder keeps it; a good input is not changed.
- **Decoders.** Every packet read is accepted once and in order, every drain starts with none held, and
  the frame debt is exact. Draining takes at most nine calls per owed frame, one per audio frame, and the
  sterile calls, in which the decoder is full and returns no frame or only a flush frame. This holds for
  any decoder. A sterile call changes no field, and no other call of the video phase is like that; a
  decoder that answers so for ever is asked for ever.
- **Transcode loop.** The encode stage gets packet, non-empty frame and code of every result once and in
  order, whatever opens the outputs. The stream index is **not** always kept: audio frames drained
  before the outputs are open come back under index 0. The exact condition and an example are given.
  One kind of run sends the end of input itself into the encode stage: all outputs opened by an earlier
  call, and an input that ends at once. With nothing to drain its stream index is then -1, with which the
  program goes on to look up the stream.
- **Transmuxing.** DTS strictly increase across discontinuities, one shift holds in between, and
  well-formed segments join without a gap, from a fresh handle on. The first packet after a discontinuity
  is skipped exactly when something was sent before and no positive duration is known; an example is given.
- **Fan-out cache.** In every interleaving each listener gets exactly the packets refreshed between its
  adding and its deleting; the cache cannot be told from writing to the map itself.
- **Filters and sizes.** The segmenter writes the strict DTS maxima of each stream from the first
  keyframe, and the durations it fills in add up. The hash comparison accepts every list with at most 10
  deletions and 9 alterations; the order of its arguments never matters if and only if the lengths differ
  or are below 10. Output sizes are even and at least the minimum, and pass the maximum exactly for inputs
  of extreme shape.

Where comments and code differ, the code is followed. The comments in `flush_in`
say that it gives up after `SENTINEL_MAX` attempts; the code makes one more (`DrainRuns.VideoPhaseEnds`). The
comment on the audio clamp in `mux` speaks of the last DTS plus one for muxers that do not need strictly
increasing timestamps; the code adds the one for those that do.

## Model

| member | source | states |
|---|---|---|
| AnnexB.FindStartCode | ffmpeg/sei_fixup.go:328-341 | the first start code from a position on with its length, or none; a bare start code at the end is never found |
| AnnexB.ScanNALs | ffmpeg/sei_fixup.go:301-326 | the units reported are those of the specification: from each start code to the next, empty ones skipped |
| Reframing.ReadBack | ffmpeg/sei_fixup.go:223-326 | units put together after a lead are scanned back as those units if and only if no unit before the last hides a start code at its end and no zero precedes a three-byte start code |
| Reframing.LateJoin | ffmpeg/sei_fixup.go:223-326 | for any units at all, scanning them put together finds a late SEI exactly when the list of units has one |
| SeiOrder.ArrangeIsStable | ffmpeg/sei_fixup.go:223-271 | the order among the SEI units and the order among the other units of an access unit are both kept |
| SeiOrder.ArrangeKeepsAll | ffmpeg/sei_fixup.go:223-271 | an access unit keeps exactly its units |
| SeiOrder.ArrangeKeepsLead | ffmpeg/sei_fixup.go:247-270 | what stands before the first picture unit stays in place, so moved SEI units come directly before that picture |
| SeiOrder.ArrangedNotLate | ffmpeg/sei_fixup.go:223-281 | after the move no SEI follows a picture unit in its access unit |
| SeiOrder.ArrangedKeepsGoodOrder | ffmpeg/sei_fixup.go:223-281 | the order changes if and only if some SEI was late |
| SeiOrder.LateIff | ffmpeg/sei_fixup.go:234-244 | late means: after a picture unit with no delimiter between the two |
| SeiOrder.UnitLateIff | ffmpeg/sei_fixup.go:223-244 | inside one access unit that is an SEI after the first picture unit |
| SeiOrder.AccessUnitsKept | ffmpeg/sei_fixup.go:223-281 | cutting the new order at delimiters gives the old access units, each rearranged in itself |
| SeiFixup.UnitIs | ffmpeg/sei_fixup.go:304-324 | a unit begins with a three- or four-byte start code, and its type is the five low bits of the byte behind it |
| SeiFixup.LengthGuard | ffmpeg/sei_fixup.go:282-287 | the new stream has the old length exactly when the scanned units leave no gap |
| SeiFixup.FixedNotLate | ffmpeg/sei_fixup.go:195-299 | scanning the rewritten stream finds no late SEI, for every input |
| SeiFixup.FixedReadBack | ffmpeg/sei_fixup.go:195-341 | the rewritten stream scans to the rearranged units if and only if lead and units join cleanly |
| SeiFixup.CleanReadBack | ffmpeg/sei_fixup.go:195-341 | it does when lead and units end in non-zero bytes and the last one does not end in a bare start code |
| SeiFixup.TrailingZeroNotReadBack | ffmpeg/sei_fixup.go:195-341 | an input with one trailing zero that is rewritten and then scans differently |
| SeiRewrite.AppendSegment | ffmpeg/sei_fixup.go:223-271 | the closure appends the rearranged bytes of one access unit and sets the change flag exactly when an SEI was late in it |
| SeiRewrite.FixPES | ffmpeg/sei_fixup.go:195-299 | in place, also on one buffer: reports a change exactly for sound ranges, a late SEI and gapless units; then the ranges hold the rearranged stream, otherwise nothing changes |
| SeiRewrite.WriteBack | ffmpeg/sei_fixup.go:289-298 | the reordered bytes are laid over the ranges in order and used up |
| SeiRewrite.RewrittenOutside | ffmpeg/sei_fixup.go:289-298 | bytes outside the ranges are unchanged |
| SeiRewrite.RewrittenInside | ffmpeg/sei_fixup.go:195-299 | gathering the ranges again yields the rearranged stream, a permutation of the bytes |
| SeiRewrite.FixedKeepsBytes | ffmpeg/sei_fixup.go:223-287 | the rewrite neither loses nor invents a byte |
| SeiRewrite.GatherIs | ffmpeg/sei_fixup.go:206-218 | the elementary stream is the bytes of the ranges, one range after the other |
| SeiRewrite.RewrittenInOrder | ffmpeg/sei_fixup.go:195-299 | whether or not a change is reported, no SEI of a gapless stream follows a picture unit afterwards |
| SeiRewrite.RewriteOnce | ffmpeg/sei_fixup.go:195-299 | with the same ranges, a second run reports no change, for every input |
| SeiRewrite.PayloadRanges | ffmpeg/sei_fixup.go:69-108 | the ranges collected lie inside the data, are non-empty, ascending and disjoint |
| SeiRewrite.CollectRanges | ffmpeg/sei_fixup.go:69-108 | the packet loop collects the ranges of the specification |
| SeiRewrite.CollectPacket | ffmpeg/sei_fixup.go:72-107 | what one packet adds: nothing for other PIDs and broken headers, else its payload after both headers while inside a video packet |
| SeiRanges.CoversIff | ffmpeg/sei_fixup.go:69-108 | a byte is in a range if and only if its packet parses with the PID and room for payload, the latest start packet up to it opens a video packet whose header it holds, and the byte is behind the headers |
| SeiRewrite.FixSEIOrder | ffmpeg/sei_fixup.go:58-113 | length kept; changed exactly when there is a video PID and the rewrite applies; otherwise the data is returned as it was |
| SeiStable.RangesStable | ffmpeg/sei_fixup.go:69-108 | data changed only inside its ranges has the same ranges, for parsers that judge by the header alone |
| SeiStable.FixedOnce | ffmpeg/sei_fixup.go:58-113 | the whole function run on its own output reports no change and returns it, if the same video PID is found in it |
| SeiStable.FixedInOrder | ffmpeg/sei_fixup.go:58-113 | in the data returned no SEI of the gapless video stream follows a picture unit |
| WaitQueue.Items.Get | stream/queue.go:61-76 | hands out the first items, as many as asked for or else all of them, and keeps the rest in order |
| WaitQueue.Items.GetUntil | stream/queue.go:88-111 | hands out the longest prefix of items that all satisfy the given predicate |
| WaitQueue.Waiters.Get | stream/queue.go:28-38 | takes the waiter that has waited longest |
| WaitQueue.Waiters.Put | stream/queue.go:40-42 | adds a waiter at the end |
| WaitQueue.Waiters.Remove | stream/queue.go:44-57 | removes every entry of one waiter and keeps the order |
| WaitQueueRuns.StepInv | stream/queue.go:135-326 | every single step of every call keeps the invariant of locks, semaphores, waiters and items |
| WaitQueueRuns.RunInv | stream/queue.go:135-326 | the invariant holds in every state of every interleaving |
| WaitQueueRuns.NothingLost | stream/queue.go:135-326 | all items put, in lock order, are all items handed out, in order, followed by those queued |
| WaitQueueRuns.NoLostWakeup | stream/queue.go:147-163 | with the lock free there are no items or no waiters |
| WaitQueueRuns.OneAtATime | stream/queue.go:147-227 | never do two threads work on the items, although a woken Poll does so without the lock |
| WaitQueueRuns.WokenPollFindsItems | stream/queue.go:206-214 | it does so only while the Put waits for it under the lock, and gets at least one item and at most as many as it asked for |
| WaitQueueRuns.DoneIsBalanced | stream/queue.go:153-228 | a Done is only called with the counter at one, so the counter never goes negative |
| WaitQueueRuns.HandoffProgress | stream/queue.go:153-228 | while the served Poll has not left, it can always step, each step brings its Done nearer, no step of another thread sets it back, another Poll's leaving included, and then the Put goes on |
| WaitQueueRuns.AwaitStartsAtOne | stream/queue.go:153-157 | a Put that finds room for its token delivers it and waits with the counter at one |
| WaitQueueRuns.OneDonePerToken | stream/queue.go:153-228 | from then on, along any moves of other threads without the served Poll's leaving: at most one Done, exactly one and a counter of zero after at most four moves of that Poll, and then the Put can go on |
| WaitQueueRuns.StuckForever | stream/queue.go:229-231 | a Put that serves a Poll which has left by its context, and every caller that wants the lock, are blocked for good |
| WaitQueueRuns.StuckReachable | stream/queue.go:229-231 | such a state is reached by one Poll and one Put |
| WaitQueueOutcomes.PollGetsAsMany | stream/queue.go:61-76 | a Poll for n items, woken or not, gets the first n of the queue, or all if there are fewer, and never none |
| WaitQueueOutcomes.TakeUntilStopsAtRefusal | stream/queue.go:260-275 | TakeUntil gets the items up to the first one refused |
| WaitQueueOutcomes.DisposeGetsAll | stream/queue.go:305-326 | Dispose gets all items and leaves neither items nor waiters |
| WaitQueueOutcomes.PutAppendsAll | stream/queue.go:147-147 | Put appends all its items at the end |
| WaitQueueOutcomes.ServesLongestWaiting | stream/queue.go:148-152 | the waiter served is the one that began to wait first |
| WaitQueueOutcomes.LineKeepsOrder | stream/queue.go:40-57 | waiters join at the end, exactly when the queue is empty and not disposed, and leave without changing the order of the rest |
| WaitQueueOutcomes.EntryDecides | stream/queue.go:140-326 | with the lock in hand a disposed queue refuses Put, Poll and TakeUntil; otherwise each goes on to its own work |
| WaitQueueOutcomes.WokenByDispose | stream/queue.go:207-211 | a woken Poll returns without items exactly when the queue is disposed |
| WaitQueueOutcomes.DisposedIsFinal | stream/queue.go:135-326 | in every run a disposed queue stays so and no Put succeeds any more |
| Rescale.RoundIff | ffmpeg/decoder.c:18-20 | rounding is to the nearest integer, halves away from zero, and nothing else satisfies that |
| Rescale.RescaleInOrder | ffmpeg/encoder.c:652-653 | conversion keeps order and keeps instants a tick of the new base apart distinct |
| Rescale.RescaleSameRate | ffmpeg/encoder.c:470-472 | bases of equal value convert without change |
| Lift.LiftedClimbs | ffmpeg/encoder.c:655-664 | the clamp's output strictly increases and lies above its input |
| Lift.LiftedLeast | ffmpeg/encoder.c:655-664 | no strictly increasing sequence above the input is lower at any place |
| Lift.LiftedSameIff | ffmpeg/encoder.c:655-664 | the clamp changes nothing if and only if the input already increases |
| Lift.LiftedPeak | ffmpeg/encoder.c:655-664 | the n-th output is the maximum over j <= n of x[j] + (n - j) |
| Timeline.InputCtx.FixVideoPts | ffmpeg/decoder.c:27-43 | PTS, or without one the best effort timestamp, raised above the last; or without both the last plus the frame distance; always defined and above the last |
| Timeline.StepIs | ffmpeg/decoder.c:14-23 | the frame distance is the frame's duration, else the ticks nearest to one frame of the rate but at least one, else one |
| Timeline.DecodedClimbs | ffmpeg/decoder.c:25-43 | any mix of missing, repeated and regressing timestamps comes out defined and strictly increasing |
| Timeline.DecodedIsLifted | ffmpeg/decoder.c:27-43 | with all timestamps given, the repair is the least increasing sequence above them |
| Timeline.DecodedBridgesGaps | ffmpeg/decoder.c:31-36 | frames without timestamps follow the last one at multiples of the known distance |
| Timeline.DecodedStaysNonNegative | ffmpeg/decoder.c:27-43 | non-negative timestamps never turn into the sentinel -1 |
| Timeline.EncoderCtx.SetEncoderPts | ffmpeg/encoder.c:648-665 | converts if the bases differ, then for video raises above the last encoder tick and sets the opaque field to the raised tick in the filter's base |
| Timeline.DecoderToEncoder | ffmpeg/encoder.c:648-665 | the encoder's timeline is defined, strictly increasing, the peak of the converted one, and equal to it for frames one tick apart |
| Mux.Repair | ffmpeg/encoder.c:515-533 | median and clamp together are: keep, or raise DTS to the floor and PTS to DTS |
| Mux.OutputCtx.Mux | ffmpeg/encoder.c:468-537 | per kind of stream: what is written, what is dropped, and which of the three memories changes |
| Mux.ClocksConverted | ffmpeg/encoder.c:470-473 | each defined clock becomes the nearest tick of the output's base, undefined ones stay so |
| Mux.StrictDts | ffmpeg/encoder.c:515-533 | over a run with DTS the DTS written are the least increasing sequence above min(pts, dts), or above DTS where there is no PTS |
| Mux.StrictRun | ffmpeg/encoder.c:515-533 | DTS is the maximum over j <= n of low[j] + (n - j), PTS the larger of its input and DTS or still undefined |
| Mux.RunRestarts | ffmpeg/encoder.c:526-533 | a packet without DTS is written unchanged and the run starts afresh after it |
| Mux.UnchangedIff | ffmpeg/encoder.c:515-533 | a run with DTS is left alone if and only if DTS climb and none exceeds its PTS |
| Mux.RunIsIdempotent | ffmpeg/encoder.c:515-533 | a second pass changes nothing |
| Mux.NonStrictRun | ffmpeg/encoder.c:500-534 | for non-strict muxers DTS never falls and never exceeds PTS; the DTS of a packet in order is raised to the last one, that of one out of order is the median rule's value, exactly |
| Mux.MedianSurvivesWrap | ffmpeg/encoder.c:518-522 | the sum form of the median is right for all 64-bit values under wrap-around |
| Mux.KeptFromPadding | ffmpeg/encoder.c:488-493 | with initial padding: dropped are packets before the first PTS and all with that PTS, unless it is zero |
| Mux.KeptWithoutPadding | ffmpeg/encoder.c:491-493 | without initial padding nothing is dropped |
| Mux.AudioRunRepairsKept | ffmpeg/encoder.c:488-511 | dropping and repair do not interfere |
| Drain.DecoderInput.LpmsSendPacket | ffmpeg/decoder.c:7-12 | an accepted video packet, and only that, adds one to the frame debt |
| Drain.DecoderInput.LpmsReceiveFrame | ffmpeg/decoder.c:45-55 | a real video frame is repaired, pays one frame and clears the sentinel count while flushing; a sentinel frame changes nothing |
| Drain.DecoderInput.SendFlushPkt | ffmpeg/decoder.c:57-70 | nothing when flushed; else no keyframe is an error, EAGAIN is not counted, anything else is |
| Drain.DecoderInput.DecodeIn | ffmpeg/decoder.c:77-136 | state, code, frame and index after one packet, for all answers of the decoder |
| Drain.DecoderInput.FlushIn | ffmpeg/decoder.c:138-177 | the same for one call of the drain, video first, then audio |
| Drain.DecoderInput.ProcessIn | ffmpeg/decoder.c:179-202 | a held packet goes before the demuxer; its end starts the drain |
| DrainRuns.InvKept | ffmpeg/decoder.c:77-202 | every call without an error keeps feeding, counting, timeline, keyframe and sentinel invariants |
| DrainRuns.Accounting | ffmpeg/decoder.c:7-202 | over a run packets are accepted once and in order, only the newest may be held, the debt is accepted video packets less frames, and the frames' timeline climbs |
| DrainRuns.DrainStartsEmpty | ffmpeg/decoder.c:186-199 | every call that drains, video or audio, finds no packet held and all packets read accepted; every other call leaves the drain's fields alone |
| DrainRuns.FrameHasItsIndex | ffmpeg/decoder.c:77-177 | a frame is reported with the stream index of the decoder that returned it |
| DrainRuns.DecodingHandsOut | ffmpeg/decoder.c:77-136 | a packet's call hands out exactly the frame its decoder answered with, video repaired and all else untouched, with the code and index that go with it |
| DrainRuns.FlushingHandsOut | ffmpeg/decoder.c:138-177 | so does a call of the drain, for the video answer or else the audio answer it goes on to |
| DrainRuns.FramesCarryTheTimeline | ffmpeg/decoder.c:45-55 | each new entry of the timeline is the timestamp of the frame handed out by that call |
| DrainRuns.ReadErrorFails | ffmpeg/decoder.c:195-197 | a read error is reported and changes nothing |
| DrainRuns.NeverTwoBlocked | ffmpeg/decoder.c:114-121 | the error for a second held packet is unreachable, for all answers |
| DrainRuns.NoKeyframeIff | ffmpeg/decoder.c:59-60 | the drain reports a missing keyframe exactly when frames are owed and no video keyframe was ever read |
| DrainRuns.DrainTerminates | ffmpeg/decoder.c:138-177 | for any decoder, the calls that ask for another are at most nine per owed frame less the sentinels tried, plus the sterile calls, plus the audio frames |
| DrainRuns.VideoPhaseBound | ffmpeg/decoder.c:138-168 | the same for the calls of the video phase, whatever they report |
| DrainRuns.NineCallsPerFrame | ffmpeg/decoder.c:138-168 | if no sentinel meets EAGAIN, nine video calls per owed frame are enough |
| DrainRuns.StuckIff | ffmpeg/decoder.c:138-168 | a call of the video phase leaves every field as it was if and only if the sentinel met EAGAIN and no frame but a flush frame came |
| DrainRuns.StuckForever | ffmpeg/decoder.c:138-168 | after any number of such calls the next one is asked for and no field has moved |
| DrainRuns.StuckReachable | ffmpeg/decoder.c:104-168 | two calls reach such a state: a keyframe read, then the end of input met by a full decoder |
| DrainRuns.EofWithoutIndexIff | ffmpeg/decoder.c:138-177 | the end of the drain is reported without a stream index if and only if there is neither a video phase nor an audio decoder |
| DrainRuns.VideoPhaseEnds | ffmpeg/decoder.c:161-167 | without errors it ends with all frames back or with nine sentinels unanswered |
| DrainRuns.CountsUnanswered | ffmpeg/decoder.c:45-70 | the sentinel count is the number of sentinels taken in a row without a frame |
| TranscodeLoop.FrameQueue.Write | ffmpeg/queue.c:38-63 | appends one entry |
| TranscodeLoop.FrameQueue.Read | ffmpeg/queue.c:65-88 | moves the oldest entry out; what the entry lacks stays as the caller had it |
| TranscodeLoop.OpenOutputs | ffmpeg/transcoder.c:375-399 | opens exactly the unopened outputs that the result triggers, fails exactly at one that cannot open, and says whether all are ready |
| TranscodeLoop.Transcode | ffmpeg/transcoder.c:340-549 | finishes exactly without error codes and with openable outputs; then everything was delivered and the queue is empty |
| TranscodeLoop.OnceInOrder | ffmpeg/transcoder.c:340-413 | the k-th result is the k-th input of the encode stage, with its packet and code, and with its frame if that has both sides, or samples, as its stream asks; a buffered frame without comes back blank; its index is kept if and only if it was not buffered or its packet carries it |
| TranscodeLoop.BufferedMeaning | ffmpeg/transcoder.c:378-411 | buffering lasts up to the first video result or end of input if an output waits for video, else one result |
| TranscodeLoop.DrainedAudioLosesIndex | ffmpeg/transcoder.c:340-413 | a run in which a drained audio frame comes back as video and is not encoded |
| TranscodeLoop.EndEntersEncodeStage | ffmpeg/transcoder.c:357-422 | with outputs opened before and an input that ends at once, the end of input enters the encode stage with the index it carries |
| TranscodeLoop.OtherwiseNoEnd | ffmpeg/transcoder.c:357-422 | in every other finished run it does not |
| Transmux.InputCtx.Transmux | ffmpeg/transcoder.c:455-481 | only the packet's own stream changes; what is forwarded or skipped, and the new memory |
| Transmux.InputCtx.Discontinuity | ffmpeg/transcoder.c:678-684 | marks every stream and changes nothing else |
| Transmux.InputCtx.constructor | ffmpeg/transcoder.c:652-656 | streams start with DTS -1, no shift, no duration |
| Transmux.OutClimbs | ffmpeg/transcoder.c:455-481 | across all discontinuities forwarded DTS strictly increase once non-negative |
| Transmux.StreamsApart | ffmpeg/transcoder.c:455-481 | for any interleaving of packets and discontinuities, what each stream of the table is forwarded depends on its own packets and the discontinuities alone |
| Transmux.OneShift | ffmpeg/transcoder.c:455-481 | until the next discontinuity PTS and DTS move by one shift; a broken stream's first packet lands at last DTS plus last duration |
| Transmux.RemembersLastNonZero | ffmpeg/transcoder.c:476-479 | the duration remembered is the last non-zero one of the packets forwarded |
| Transmux.SkippedIff | ffmpeg/transcoder.c:472-475 | between discontinuities a packet is skipped if and only if a non-negative last DTS is not passed |
| Transmux.ForwardKeepsDistance | ffmpeg/transcoder.c:466-467 | what is forwarded keeps the distance of its clocks, its duration and its stream |
| Transmux.FirstAfterBreakIff | ffmpeg/transcoder.c:461-475 | that packet is forwarded if and only if nothing was sent before or a positive duration is known |
| Transmux.FirstAfterBreakLost | ffmpeg/transcoder.c:461-475 | a run from a fresh handle in which it is skipped |
| Transmux.Seamless | ffmpeg/transcoder.c:455-481 | well-formed segments are forwarded whole, each starting where the one before ends, from any stream that can go on |
| Transmux.SeamlessFromFresh | ffmpeg/transcoder.c:455-481 | the same from a fresh handle, the first segment keeping its own timestamps |
| Fanout.RtmpStream.Refresh | stream/basic_rtmp_videostream.go:42-52 | the worker's section is a run of the step relation after which the cache is the listener map and the flag is clear |
| Fanout.RtmpStream.WriteAll | stream/basic_rtmp_videostream.go:53-58 | after the loop over the cache every listener has got all it is due |
| Fanout.RtmpStream.AddListener | stream/basic_rtmp_videostream.go:93-97 | a run of the step relation that adds the listener and sets the flag |
| Fanout.RtmpStream.DeleteListener | stream/basic_rtmp_videostream.go:167-172 | a run of the step relation that deletes the listener and sets the flag |
| Fanout.RtmpStream.Close | stream/basic_rtmp_videostream.go:156-165 | a run of the step relation after which the stream is closed, with the channel closed once in all |
| Fanout.InvKept | stream/basic_rtmp_videostream.go:38-172 | every step of worker, listeners and closers keeps the invariant |
| Fanout.CacheAgrees | stream/basic_rtmp_videostream.go:44-51 | in every interleaving a clear flag with the lock free means cache and map agree |
| Fanout.ExactDelivery | stream/basic_rtmp_videostream.go:38-62 | a listener's own writer gets exactly the packets refreshed between adding and deleting, once each and in order |
| Fanout.FailedWriteDeletes | stream/basic_rtmp_videostream.go:53-58 | a failed write counts as a write and starts the deletion of its listener |
| Fanout.StoppedForGood | stream/basic_rtmp_videostream.go:59-60 | the worker stops on the closed channel only, and then takes and writes nothing any more |
| Fanout.StoppedOnlyAfterClose | stream/basic_rtmp_videostream.go:59-60 | in every interleaving a stopped worker means a closed channel |
| Fanout.EofClosedOnce | stream/basic_rtmp_videostream.go:156-165 | in every interleaving of Close calls the channel is closed at most once, and has been once all are done |
| Segmenter.Segment | ffmpeg/extras.c:89-120 | the packets written are the picked ones, converted to the output bases |
| Segmenter.WritesMaxima | ffmpeg/extras.c:99-114 | each stream gets exactly its strict DTS maxima from the first video keyframe on |
| Segmenter.NewestIff | ffmpeg/extras.c:106-107 | the stored DTS decides whether a packet is later than all before it |
| Segmenter.KeyframeFirst | ffmpeg/extras.c:102-105 | the first packet written is the first video keyframe |
| Segmenter.PickIs | ffmpeg/extras.c:96-113 | a packet goes to the output of its stream and keeps a duration of its own |
| Segmenter.PicksGrow | ffmpeg/extras.c:89-120 | packets are written in the order of the input |
| Segmenter.WrittenIs | ffmpeg/extras.c:108-113 | each packet is written with clocks and duration as the nearest ticks of its output's base |
| Segmenter.DurationsTelescope | ffmpeg/extras.c:112-114 | on a stream without durations of its own those filled in add up to its largest DTS less its first, whatever other streams bring |
| Segmenter.DurationsSpanWritten | ffmpeg/extras.c:112-114 | if the stream begins with a DTS, that is the last DTS written less the first |
| HashMatch.IsValidMd5Data | ffmpeg/extras.c:391-414 | accepts exactly when the lengths and the number of hashes without partner allow it |
| HashMatch.Complete | ffmpeg/extras.c:391-414 | at most 10 deletions anywhere and 9 alterations are accepted, in either order of the arguments |
| HashMatch.SoundIff | ffmpeg/extras.c:391-414 | accepted means: lengths differ by at most 10, at most 9 hashes have no equal one in their window |
| HashMatch.WindowReach | ffmpeg/extras.c:401-411 | against a list longer by d, a list late by s keeps its partners, all but the first s, if and only if s is from -d to d + 1 |
| HashMatch.OrderNeverMattersIff | ffmpeg/extras.c:395-413 | all lists of lengths m and n are judged alike in either order if and only if m and n differ or are below 10 |
| HashMatch.OrderMatters | ffmpeg/extras.c:395-413 | for every equal length from 10 on, two lists accepted in one order and refused in the other |
| ScaleRule.NeverBothAuto | ffmpeg/ffmpeg.go:623-633 | at least one side is explicit |
| ScaleRule.SizeFits | ffmpeg/ffmpeg.go:599-633 | for every requested and every positive input size both sides are even and at least the codec's minimum |
| ScaleRule.MaximumIff | ffmpeg/ffmpeg.go:599-633 | the maximum is passed exactly by inputs of a shape that does not depend on the requested size |
| ScaleRule.LongInputPassesMaximum | ffmpeg/ffmpeg.go:599-633 | a 4000x16 input passes it for every requested size |
| ScaleRule.AspectKept | ffmpeg/ffmpeg.go:623-633 | a derived side is within one pixel of the input's aspect ratio |
| ScaleRule.LongerSideIs | ffmpeg/ffmpeg.go:599-633 | the longer output side is the larger requested one rounded down to even, unless the shorter would fall below its minimum, which it then gets |
| ScaleRule.AspectWithinOne | ffmpeg/ffmpeg.go:599-633 | for every requested and input size the two sides keep the input's ratio to within one pixel |
| ScaleRule.LargerSideInLimits | ffmpeg/ffmpeg.go:599-621 | the larger requested side is within the limits of both sides |
| ScaleRule.UnlistedKeepsInput | ffmpeg/ffmpeg.go:555-601 | a codec outside the size table keeps the input's size, whatever was requested |

## Left out

- FFmpeg itself: codecs, filters, muxers and demuxers answer as they like; `av_rescale_q` is exact rounding to nearest, halves away from zero, and a free side of the scale filter is the nearest even one.
- The transport stream parsers and the search for the video PID: parameters.
- SeiStable.FixedOnce: that the search finds the same PID in the output is a hypothesis, because the search is a parameter.
- 64-bit overflow of timestamps, except in `Mux.MedianSurvivesWrap`; lemmas that convert between time bases require the result to be defined.
- Floating point in the scale expressions: quotients are compared exactly, which agrees with doubles at these sizes.
- Polls for fewer than one item and Puts of no items, which return at once; Peek, Len, Empty, Disposed and ExecuteInParallel.
- The queue's timers and contexts as clocks: a timeout or a cancellation may come at any step.
- Fanout.RtmpStream.WriteAll: writers that report an error are steps of the relation but not part of this method.
- Random listener ids are taken to be distinct; headers and trailers written to listeners are not modelled.
- Failures of allocation and of cloning packets or frames, which end a transcode call.
- The stages behind the loop: filters, clipping, keyframe forcing, flushing of filters and encoders, statistics.
- `handle_discontinuity` in ffmpeg/transcoder.c, an unused variant of the re-basing that never skips.
- Mux.OutputCtx.Mux: the interleaved write itself and its errors are not modelled.
- Segmenter.Segment: a read or write error, which ends the run, is not modelled.
- HLS playlists, HTTP and RTMP servers, profiles, file handling, cgo and C memory management: no algorithm to prove.
