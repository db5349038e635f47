/**
 Feeding and draining the decoders: the packet held back while a decoder is full, the count of
 packets that a video decoder still owes a frame for, and the sentinel packets that make it give
 them back. Every answer of demuxer and decoder is an input, so nothing is assumed about them
 beyond what a lemma requires.
 */
module Drain {
  import opened Common
  import opened Lift
  import opened Timeline

  datatype Packet = Packet(stream: int, key: bool, id: int)

  /** The streams chosen for decoding and whether a decoder is open for each. */
  datatype Config = Config(vi: int, ai: int, hasVideo: bool, hasAudio: bool, vst: Stream)

  predicate ToVideo(c: Config, p: Packet) {
    c.hasVideo && p.stream == c.vi
  }

  predicate ToAudio(c: Config, p: Packet) {
    !ToVideo(c, p) && c.hasAudio && p.stream == c.ai
  }

  /** Answers: success, EAGAIN, end of stream, any other error. */
  datatype Sent = Taken | Full | Refused
  datatype Received = Got(frame: Frame) | NotYet | Drained | Broken
  datatype Demuxed = Read(pkt: Packet) | AtEnd | ReadError

  datatype Ret = Ok | Again | Eof | PacketOnly | NoKeyframe | Failed | TwoBlocked

  const SENTINEL_MAX := 8
  const U16: int := 0x1_0000

  /**
   Fields of the input context, then history: packets read from the demuxer and packets the decoders
   took, timestamps of the video frames returned, sentinels taken and sentinel frames returned.
   */
  datatype State = State(
    flushPkt: bool, flushed: bool, flushing: bool, pktDiff: int, sentinelCount: int,
    blocked: Option<Packet>, lastPts: Stamp,
    demuxed: seq<Packet>, accepted: seq<Packet>, frames: seq<int>, sentinels: int, sentinelFrames: int)

  /** What one call reports: code, frame if any, and the stream index if it was set. */
  datatype Outcome = Outcome(st: State, ret: Ret, frame: Option<Frame>, index: Option<int>)

  predicate IsFlushFrame(f: Frame) {
    f.pts == -1
  }

  // ---------- the steps on values ----------

  function Init(): State {
    State(false, false, false, 0, 0, None, NOPTS, [], [], [], 0, 0)
  }

  function Send(c: Config, st: State, p: Packet, sent: Sent): State {
    if sent.Taken? then
      st.(accepted := st.accepted + [p], pktDiff := if ToVideo(c, p) then (st.pktDiff + 1) % U16 else st.pktDiff)
    else st
  }

  function Fixed(c: Config, st: State, f: Frame): Frame
    requires StreamOk(c.vst)
  {
    f.(pts := Repaired(c.vst, st.lastPts, f))
  }

  function Receive(c: Config, st: State, got: Received): State
    requires StreamOk(c.vst)
  {
    if !got.Got? then st
    else if IsFlushFrame(got.frame) then st.(sentinelFrames := st.sentinelFrames + 1)
    else
      var pts := Fixed(c, st, got.frame).pts;
      st.(lastPts := pts, frames := st.frames + [pts], pktDiff := (st.pktDiff - 1) % U16,
          sentinelCount := if st.flushing then 0 else st.sentinelCount)
  }

  function VideoFrame(c: Config, st: State, got: Received): (frame: Option<Frame>)
    requires StreamOk(c.vst)
    ensures frame.Some? <==> got.Got?
  {
    if !got.Got? then None
    else if IsFlushFrame(got.frame) then Some(got.frame)
    else Some(Fixed(c, st, got.frame))
  }

  function Decoding(c: Config, st: State, p: Packet, sent: Sent, got: Received): Outcome
    requires StreamOk(c.vst)
  {
    if !ToVideo(c, p) && !ToAudio(c, p) then Outcome(st, Ok, None, Some(p.stream)) else
      var st1 := Send(c, st.(flushPkt := st.flushPkt || (p.key && ToVideo(c, p))), p, sent);
      if sent.Full? && st1.blocked.Some? then Outcome(st1, TwoBlocked, None, Some(p.stream))
      else if sent.Refused? then Outcome(st1, Failed, None, Some(p.stream))
      else
        var st2 := if sent.Full? then st1.(blocked := Some(p)) else st1;
        var st3 := if ToVideo(c, p) then Receive(c, st2, got) else st2;
        var frame := if ToVideo(c, p) then VideoFrame(c, st2, got)
                     else if got.Got? then Some(got.frame) else None;
        Outcome(st3, if got.Got? then Ok else if got.NotYet? then PacketOnly else Failed, frame, Some(p.stream))
  }

  /** Sentinels still go to the video decoder. */
  predicate VideoPhase(c: Config, st: State) {
    c.hasVideo && !st.flushed && st.pktDiff > 0
  }

  function FlushAudio(c: Config, st: State, index: Option<int>, audio: Received): Outcome {
    if !c.hasAudio then Outcome(st, Eof, None, index)
    else if audio.Got? then Outcome(st, Ok, Some(audio.frame), Some(c.ai))
    else Outcome(st, Eof, None, Some(c.ai))
  }

  function SendSentinel(st: State, sent: Sent): State {
    if sent.Full? then st
    else st.(sentinelCount := (st.sentinelCount + 1) % U16,
             sentinels := st.sentinels + if sent.Taken? then 1 else 0)
  }

  predicate KeepFlushing(st: State, got: Received) {
    st.pktDiff != 0 && st.sentinelCount <= SENTINEL_MAX && (got.Got? || got.NotYet?)
  }

  /** The video part; the second component says to go on with audio. */
  function FlushVideo(c: Config, st: State, sent: Sent, got: Received): (Outcome, bool)
    requires StreamOk(c.vst)
  {
    var st1 := st.(flushing := true);
    if !st1.flushPkt then (Outcome(st1.(flushed := true), NoKeyframe, None, None), false) else
      var st2 := SendSentinel(st1, sent);
      if sent.Refused? then (Outcome(st2.(flushed := true), Failed, None, None), false) else
        var st3, frame := Receive(c, st2, got), VideoFrame(c, st2, got);
        if KeepFlushing(st3, got) then
          (Outcome(st3, if got.Got? then Ok else Again, frame, Some(c.vi)), false)
        else
          (Outcome(st3.(flushed := true), Ok, frame, Some(c.vi)), !got.Got?)
  }

  function Flushing(c: Config, st: State, sent: Sent, got: Received, audio: Received): Outcome
    requires StreamOk(c.vst)
  {
    if !VideoPhase(c, st) then FlushAudio(c, st, None, audio) else
      var (o, onward) := FlushVideo(c, st, sent, got);
      if onward then FlushAudio(c, o.st, o.index, audio) else o
  }

  /** One call's worth of answers. */
  datatype Call = Call(demux: Demuxed, sent: Sent, got: Received, audio: Received)

  function Processing(c: Config, st: State, call: Call): Outcome
    requires StreamOk(c.vst)
  {
    if st.blocked.Some? then Decoding(c, st.(blocked := None), st.blocked.value, call.sent, call.got)
    else match call.demux
      case AtEnd => Flushing(c, st, call.sent, call.got, call.audio)
      case ReadError => Outcome(st, Failed, None, None)
      case Read(p) => Decoding(c, st.(demuxed := st.demuxed + [p]), p, call.sent, call.got)
  }

  // ---------- the code ----------

  class DecoderInput {
    const c: Config
    const timeline: InputCtx
    var flushPkt: bool
    var flushed: bool
    var flushing: bool
    var pktDiff: int
    var sentinelCount: int
    var blockedPkt: Option<Packet>
    ghost var demuxed: seq<Packet>
    ghost var accepted: seq<Packet>
    ghost var frames: seq<int>
    ghost var sentinels: int
    ghost var sentinelFrames: int

    ghost predicate Valid() {
      StreamOk(c.vst) && timeline.vst == c.vst
    }

    ghost function View(): State
      reads this, timeline
    {
      State(flushPkt, flushed, flushing, pktDiff, sentinelCount, blockedPkt, timeline.lastVideoPts,
            demuxed, accepted, frames, sentinels, sentinelFrames)
    }

    constructor (c: Config)
      requires StreamOk(c.vst)
      ensures Valid() && this.c == c && View() == Init() && fresh(timeline)
    {
      this.c := c;
      timeline := new InputCtx(c.vst);
      flushPkt, flushed, flushing := false, false, false;
      pktDiff, sentinelCount, blockedPkt := 0, 0, None;
      demuxed, accepted, frames, sentinels, sentinelFrames := [], [], [], 0, 0;
    }

    method LpmsSendPacket(pkt: Packet, sent: Sent) returns (ret: Sent)
      modifies this
      ensures View() == Send(c, old(View()), pkt, sent) && ret == sent
    {
      ret := sent;
      if ret == Taken {
        accepted := accepted + [pkt];
        if ToVideo(c, pkt) {
          pktDiff := (pktDiff + 1) % U16;
        }
      }
    }

    method LpmsReceiveFrame(isVideo: bool, got: Received) returns (ret: Received)
      requires Valid()
      modifies this, timeline
      ensures View() == if isVideo then Receive(c, old(View()), got) else old(View())
      ensures ret == if isVideo && got.Got? then Got(VideoFrame(c, old(View()), got).value) else got
    {
      ret := got;
      if isVideo && got.Got? {
        if IsFlushFrame(got.frame) {
          sentinelFrames := sentinelFrames + 1;
        } else {
          var fixed := timeline.FixVideoPts(got.frame);
          ret := Got(fixed);
          frames := frames + [fixed.pts];
          pktDiff := (pktDiff - 1) % U16;
          if flushing {
            sentinelCount := 0;
          }
        }
      }
    }

    method DecodeIn(pkt: Packet, sent: Sent, got: Received)
      returns (ret: Ret, frame: Option<Frame>, index: Option<int>)
      requires Valid()
      modifies this, timeline
      ensures Outcome(View(), ret, frame, index) == Decoding(c, old(View()), pkt, sent, got)
    {
      hide Receive, VideoFrame, IsFlushFrame, Send;
      index, frame := Some(pkt.stream), None;
      var isVideo := ToVideo(c, pkt);
      if !isVideo && !ToAudio(c, pkt) {
        return Ok, frame, index;
      }
      if pkt.key && isVideo {
        flushPkt := true;
      }
      var s := LpmsSendPacket(pkt, sent);
      if s == Full {
        if blockedPkt.Some? {
          return TwoBlocked, frame, index;
        }
        blockedPkt := Some(pkt);
      } else if s == Refused {
        return Failed, frame, index;
      }
      var g := LpmsReceiveFrame(isVideo, got);
      match g {
        case Got(f) => return Ok, Some(f), index;
        case NotYet => return PacketOnly, frame, index;
        case _ => return Failed, frame, index;
      }
    }

    method SendFlushPkt(sent: Sent) returns (ret: Ret)
      modifies this
      ensures old(flushed) ==> ret == Ok && View() == old(View())
      ensures !old(flushed) ==>
                && ret == (if !old(flushPkt) then NoKeyframe
                           else if sent.Taken? then Ok else if sent.Full? then Again else Failed)
                && View() == if old(flushPkt) then SendSentinel(old(View()), sent) else old(View())
    {
      if flushed {
        return Ok;
      }
      if !flushPkt {
        return NoKeyframe;
      }
      if sent == Full {
        return Again;
      }
      sentinelCount := (sentinelCount + 1) % U16;
      if sent == Refused {
        return Failed;
      }
      sentinels := sentinels + 1;
      ret := Ok;
    }

    method FlushAudioIn(index0: Option<int>, audio: Received)
      returns (ret: Ret, frame: Option<Frame>, index: Option<int>)
      ensures Outcome(View(), ret, frame, index) == FlushAudio(c, View(), index0, audio)
    {
      frame, index := None, index0;
      if c.hasAudio {
        index := Some(c.ai);
        if audio.Got? {
          return Ok, Some(audio.frame), index;
        }
      }
      ret := Eof;
    }

    method FlushVideoIn(sent: Sent, got: Received)
      returns (ret: Ret, frame: Option<Frame>, index: Option<int>, onward: bool)
      requires Valid() && !flushed
      modifies this, timeline
      ensures (Outcome(View(), ret, frame, index), onward) == FlushVideo(c, old(View()), sent, got)
    {
      hide Receive, VideoFrame, IsFlushFrame, SendSentinel, FlushAudio;
      frame, index, onward := None, None, false;
      flushing := true;
      ret := SendFlushPkt(sent);
      if ret == NoKeyframe || ret == Failed {
        flushed := true;
        return;
      }
      var g := LpmsReceiveFrame(true, got);
      index := Some(c.vi);
      if g.Got? {
        frame := Some(g.frame);
      }
      if pktDiff != 0 && sentinelCount <= SENTINEL_MAX && (g.Got? || g.NotYet?) {
        ret := if g.Got? then Ok else Again;
        return;
      }
      flushed := true;
      ret, onward := Ok, !g.Got?;
    }

    method FlushIn(sent: Sent, got: Received, audio: Received)
      returns (ret: Ret, frame: Option<Frame>, index: Option<int>)
      requires Valid()
      modifies this, timeline
      ensures Outcome(View(), ret, frame, index) == Flushing(c, old(View()), sent, got, audio)
    {
      hide FlushVideo, FlushAudio;
      frame, index := None, None;
      ghost var before := View();
      if c.hasVideo && !flushed && pktDiff > 0 {
        var onward;
        ret, frame, index, onward := FlushVideoIn(sent, got);
        assert Flushing(c, before, sent, got, audio)
          == if onward then FlushAudio(c, View(), index, audio) else Outcome(View(), ret, frame, index);
        if !onward {
          return;
        }
      }
      ret, frame, index := FlushAudioIn(index, audio);
    }

    method ProcessIn(call: Call)
      returns (ret: Ret, frame: Option<Frame>, index: Option<int>)
      requires Valid()
      modifies this, timeline
      ensures Outcome(View(), ret, frame, index) == Processing(c, old(View()), call)
    {
      if blockedPkt.Some? {
        var pkt := blockedPkt.value;
        blockedPkt := None;
        ret, frame, index := DecodeIn(pkt, call.sent, call.got);
        return;
      }
      match call.demux
      case AtEnd =>
        ret, frame, index := FlushIn(call.sent, call.got, call.audio);
      case ReadError =>
        ret, frame, index := Failed, None, None;
      case Read(pkt) =>
        demuxed := demuxed + [pkt];
        ret, frame, index := DecodeIn(pkt, call.sent, call.got);
    }
  }
}
