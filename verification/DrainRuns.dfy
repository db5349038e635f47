/**
 What holds over whole runs of process_in: every packet reaches its decoder once and in order, the
 frame debt is counted exactly, and draining ends for every decoder that makes progress.
 */
module DrainRuns {
  import opened Common
  import opened Lift
  import opened Timeline
  import opened Drain

  // ---------- history ----------

  predicate IsDecoded(c: Config, p: Packet) {
    (c.hasVideo && p.stream == c.vi) || (c.hasAudio && p.stream == c.ai)
  }

  function Decodable(c: Config, ps: seq<Packet>): (rs: seq<Packet>) {
    if ps == [] then [] else
      var front, p := ps[..|ps| - 1], ps[|ps| - 1];
      if IsDecoded(c, p) then Decodable(c, front) + [p] else Decodable(c, front)
  }

  function VideoCount(c: Config, ps: seq<Packet>): (n: nat) {
    if ps == [] then 0 else
      VideoCount(c, ps[..|ps| - 1]) + if c.hasVideo && ps[|ps| - 1].stream == c.vi then 1 else 0
  }

  predicate HasVideoKey(c: Config, ps: seq<Packet>) {
    exists i :: 0 <= i < |ps| && ps[i].key && c.hasVideo && ps[i].stream == c.vi
  }

  function Held(st: State): (ps: seq<Packet>) {
    if st.blocked.Some? then [st.blocked.value] else []
  }

  // ---------- invariants ----------

  /** All packets read for a decoder have been accepted by it, in order, but for the one held. */
  predicate Fed(c: Config, st: State) {
    && Decodable(c, st.demuxed) == st.accepted + Held(st)
    && (st.blocked.Some? ==> IsDecoded(c, st.blocked.value))
  }

  /** pkt_diff is the number of frames still owed, in 16-bit arithmetic. */
  predicate Counted(c: Config, st: State) {
    st.pktDiff == (VideoCount(c, st.accepted) - |st.frames|) % U16
  }

  /** The frames returned so far form a defined, strictly increasing timeline. */
  predicate Timely(st: State) {
    && Climbs(NOPTS, st.frames) && AllDefined(st.frames)
    && st.lastPts == if st.frames == [] then NOPTS else st.frames[|st.frames| - 1]
  }

  /** There is a flush packet exactly when a video keyframe has been read. */
  predicate Keyed(c: Config, st: State) {
    st.flushPkt <==> HasVideoKey(c, st.accepted + Held(st))
  }

  predicate Tries(st: State) {
    && 0 <= st.sentinelCount <= SENTINEL_MAX + 1
    && (!st.flushed ==> st.sentinelCount <= SENTINEL_MAX)
    && (!st.flushing ==> st.sentinelCount == 0)
  }

  predicate Inv(c: Config, st: State) {
    Fed(c, st) && Counted(c, st) && Timely(st) && Keyed(c, st) && Tries(st)
  }

  lemma InitInv(c: Config)
    ensures Inv(c, Init())
  {
  }

  // ---------- each invariant over one call ----------

  lemma DecodingFeeds(c: Config, st: State, p: Packet, sent: Sent, got: Received)
    requires StreamOk(c.vst) && st.blocked.None?
    requires Decodable(c, st.demuxed) == st.accepted + if IsDecoded(c, p) then [p] else []
    requires Decoding(c, st, p, sent, got).ret != Failed
    ensures Fed(c, Decoding(c, st, p, sent, got).st)
  {
    hide Decodable, Repaired;
  }

  lemma FlushingKeepsHistory(c: Config, st: State, sent: Sent, got: Received, audio: Received)
    requires StreamOk(c.vst)
    ensures var r := Flushing(c, st, sent, got, audio).st;
            r.demuxed == st.demuxed && r.accepted == st.accepted && r.blocked == st.blocked
            && r.flushPkt == st.flushPkt
  {
    hide Repaired;
  }

  lemma FedKept(c: Config, st: State, call: Call)
    requires StreamOk(c.vst) && Fed(c, st) && Processing(c, st, call).ret != Failed
    ensures Fed(c, Processing(c, st, call).st)
  {
    if st.blocked.Some? {
      var p := st.blocked.value;
      DecodingFeeds(c, st.(blocked := None), p, call.sent, call.got);
    } else if call.demux.Read? {
      var p := call.demux.pkt;
      assert (st.demuxed + [p])[..|st.demuxed|] == st.demuxed;
      DecodingFeeds(c, st.(demuxed := st.demuxed + [p]), p, call.sent, call.got);
    } else {
      FlushingKeepsHistory(c, st, call.sent, call.got, call.audio);
    }
  }

  lemma CountSnoc(c: Config, ps: seq<Packet>, p: Packet)
    ensures VideoCount(c, ps + [p]) == VideoCount(c, ps) + if ToVideo(c, p) then 1 else 0
  {
    assert (ps + [p])[..|ps|] == ps;
  }

  lemma SendCounts(c: Config, st: State, p: Packet, sent: Sent)
    requires Counted(c, st)
    ensures Counted(c, Send(c, st, p, sent))
  {
    CountSnoc(c, st.accepted, p);
  }

  lemma ReceiveCounts(c: Config, st: State, got: Received)
    requires StreamOk(c.vst) && Counted(c, st)
    ensures Counted(c, Receive(c, st, got))
  {
    hide VideoCount, Repaired;
  }

  /** Any field change that keeps these keeps the count. */
  predicate SameCount(st: State, r: State) {
    st.pktDiff == r.pktDiff && st.accepted == r.accepted && st.frames == r.frames
  }

  lemma DecodingCounts(c: Config, st: State, p: Packet, sent: Sent, got: Received)
    requires StreamOk(c.vst) && Counted(c, st)
    ensures Counted(c, Decoding(c, st, p, sent, got).st)
  {
    hide VideoCount, Send, Receive, Repaired, VideoFrame;
    var st1 := Send(c, st.(flushPkt := st.flushPkt || (p.key && ToVideo(c, p))), p, sent);
    SendCounts(c, st.(flushPkt := st.flushPkt || (p.key && ToVideo(c, p))), p, sent);
    ReceiveCounts(c, st1, got);
    ReceiveCounts(c, st1.(blocked := Some(p)), got);
  }

  lemma FlushingCounts(c: Config, st: State, sent: Sent, got: Received, audio: Received)
    requires StreamOk(c.vst) && Counted(c, st)
    ensures Counted(c, Flushing(c, st, sent, got, audio).st)
  {
    hide VideoCount, Receive, Repaired, VideoFrame;
    var st2 := SendSentinel(st.(flushing := true), sent);
    assert SameCount(st, st2);
    ReceiveCounts(c, st2, got);
  }

  lemma CountedKept(c: Config, st: State, call: Call)
    requires StreamOk(c.vst) && Counted(c, st)
    ensures Counted(c, Processing(c, st, call).st)
  {
    hide VideoCount, Decoding, Flushing;
    if st.blocked.Some? {
      DecodingCounts(c, st.(blocked := None), st.blocked.value, call.sent, call.got);
    } else if call.demux.Read? {
      DecodingCounts(c, st.(demuxed := st.demuxed + [call.demux.pkt]), call.demux.pkt, call.sent, call.got);
    } else {
      FlushingCounts(c, st, call.sent, call.got, call.audio);
    }
  }

  /** A call either leaves the timeline alone or adds one frame to its end. */
  predicate OneFrameOn(st: State, r: State) {
    || (r.frames == st.frames && r.lastPts == st.lastPts)
    || (Defined(r.lastPts) && st.lastPts < r.lastPts && r.frames == st.frames + [r.lastPts])
  }

  lemma ReceiveAddsOneFrame(c: Config, st: State, got: Received)
    requires StreamOk(c.vst)
    ensures OneFrameOn(st, Receive(c, st, got))
  {
    hide DecodedVideoPtsStep;
  }

  lemma DecodingAddsOneFrame(c: Config, st: State, p: Packet, sent: Sent, got: Received)
    requires StreamOk(c.vst)
    ensures OneFrameOn(st, Decoding(c, st, p, sent, got).st)
  {
    hide Receive, VideoFrame;
    var st1 := Send(c, st.(flushPkt := st.flushPkt || (p.key && ToVideo(c, p))), p, sent);
    ReceiveAddsOneFrame(c, st1, got);
    ReceiveAddsOneFrame(c, st1.(blocked := Some(p)), got);
  }

  lemma FlushingAddsOneFrame(c: Config, st: State, sent: Sent, got: Received, audio: Received)
    requires StreamOk(c.vst)
    ensures OneFrameOn(st, Flushing(c, st, sent, got, audio).st)
  {
    hide Receive, VideoFrame;
    ReceiveAddsOneFrame(c, SendSentinel(st.(flushing := true), sent), got);
  }

  lemma CallAddsOneFrame(c: Config, st: State, call: Call)
    requires StreamOk(c.vst)
    ensures OneFrameOn(st, Processing(c, st, call).st)
  {
    hide Decoding, Flushing;
    if st.blocked.Some? {
      DecodingAddsOneFrame(c, st.(blocked := None), st.blocked.value, call.sent, call.got);
    } else if call.demux.Read? {
      DecodingAddsOneFrame(c, st.(demuxed := st.demuxed + [call.demux.pkt]), call.demux.pkt, call.sent, call.got);
    } else {
      FlushingAddsOneFrame(c, st, call.sent, call.got, call.audio);
    }
  }

  lemma TimelyKept(c: Config, st: State, call: Call)
    requires StreamOk(c.vst) && Timely(st)
    ensures Timely(Processing(c, st, call).st)
  {
    hide Processing;
    var r := Processing(c, st, call).st;
    CallAddsOneFrame(c, st, call);
    forall i | 0 <= i < |r.frames|
      ensures Before(NOPTS, r.frames, i) < r.frames[i] && Defined(r.frames[i])
    {
      assert i < |st.frames| ==> Before(NOPTS, st.frames, i) < st.frames[i] && Defined(st.frames[i]);
    }
  }

  lemma DecodingKeys(c: Config, st: State, p: Packet, sent: Sent, got: Received)
    requires StreamOk(c.vst) && st.blocked.None? && sent != Refused
    requires IsDecoded(c, p)
    requires var key := p.key && ToVideo(c, p); (st.flushPkt || key) <==> (HasVideoKey(c, st.accepted) || key)
    ensures Keyed(c, Decoding(c, st, p, sent, got).st)
  {
    hide Repaired, VideoFrame, HasVideoKey;
    KeySnoc(c, st.accepted, p);
    assert st.accepted + [] == st.accepted;
    assert st.accepted + [p] + [] == st.accepted + [p];
  }

  lemma KeySnoc(c: Config, ps: seq<Packet>, p: Packet)
    ensures HasVideoKey(c, ps + [p]) <==> HasVideoKey(c, ps) || (p.key && ToVideo(c, p))
  {
    var qs := ps + [p];
    assert qs[|ps|] == p;
    assert forall i :: 0 <= i < |ps| ==> qs[i] == ps[i];
  }

  lemma KeyedKept(c: Config, st: State, call: Call)
    requires StreamOk(c.vst) && Fed(c, st) && Keyed(c, st) && Processing(c, st, call).ret != Failed
    ensures Keyed(c, Processing(c, st, call).st)
  {
    hide HasVideoKey, Decodable, Flushing;
    assert st.accepted + [] == st.accepted;
    if st.blocked.Some? {
      var p := st.blocked.value;
      KeySnoc(c, st.accepted, p);
      DecodingKeys(c, st.(blocked := None), p, call.sent, call.got);
    } else if call.demux.Read? {
      var p := call.demux.pkt;
      if IsDecoded(c, p) {
        DecodingKeys(c, st.(demuxed := st.demuxed + [p]), p, call.sent, call.got);
      }
    } else {
      FlushingKeepsHistory(c, st, call.sent, call.got, call.audio);
    }
  }

  lemma DecodingTries(c: Config, st: State, p: Packet, sent: Sent, got: Received)
    requires StreamOk(c.vst) && Tries(st)
    ensures Tries(Decoding(c, st, p, sent, got).st)
  {
    hide Repaired, VideoFrame;
  }

  lemma FlushingTries(c: Config, st: State, sent: Sent, got: Received, audio: Received)
    requires StreamOk(c.vst) && Tries(st)
    ensures Tries(Flushing(c, st, sent, got, audio).st)
  {
    hide Repaired, VideoFrame;
  }

  lemma TriesKept(c: Config, st: State, call: Call)
    requires StreamOk(c.vst) && Tries(st)
    ensures Tries(Processing(c, st, call).st)
  {
    hide Decoding, Flushing;
    if st.blocked.Some? {
      DecodingTries(c, st.(blocked := None), st.blocked.value, call.sent, call.got);
    } else if call.demux.Read? {
      DecodingTries(c, st.(demuxed := st.demuxed + [call.demux.pkt]), call.demux.pkt, call.sent, call.got);
    } else {
      FlushingTries(c, st, call.sent, call.got, call.audio);
    }
  }

  /** Every call that does not report an error keeps the invariant. */
  lemma InvKept(c: Config, st: State, call: Call)
    requires StreamOk(c.vst) && Inv(c, st) && Processing(c, st, call).ret != Failed
    ensures Inv(c, Processing(c, st, call).st)
  {
    hide Processing, Fed, Counted, Timely, Keyed, Tries;
    FedKept(c, st, call);
    CountedKept(c, st, call);
    TimelyKept(c, st, call);
    KeyedKept(c, st, call);
    TriesKept(c, st, call);
  }

  /** The error for a second blocked packet cannot be reached, whatever the decoder answers. */
  lemma NeverTwoBlocked(c: Config, st: State, call: Call)
    requires StreamOk(c.vst)
    ensures Processing(c, st, call).ret != TwoBlocked
  {
    hide Repaired, VideoFrame;
  }

  // ---------- whole runs ----------

  predicate Clean(c: Config, st: State, calls: seq<Call>)
    requires StreamOk(c.vst)
    decreases calls
  {
    calls == [] ||
    (Processing(c, st, calls[0]).ret != Failed && Clean(c, Processing(c, st, calls[0]).st, calls[1..]))
  }

  function End(c: Config, st: State, calls: seq<Call>): State
    requires StreamOk(c.vst)
    decreases calls
  {
    if calls == [] then st else End(c, Processing(c, st, calls[0]).st, calls[1..])
  }

  lemma {:induction false} CleanRunInv(c: Config, st: State, calls: seq<Call>)
    requires StreamOk(c.vst) && Inv(c, st) && Clean(c, st, calls)
    ensures Inv(c, End(c, st, calls))
    decreases calls
  {
    hide Inv, Processing;
    if calls != [] {
      InvKept(c, st, calls[0]);
      CleanRunInv(c, Processing(c, st, calls[0]).st, calls[1..]);
    }
  }

  /**
   The accounting of a run without errors. Packets reach the decoders once and in order, only the
   newest may be held; when draining starts none is. The frame debt is exact as long as the decoder
   returns at most one frame per packet and owes fewer than 65536.
   */
  lemma Accounting(c: Config, calls: seq<Call>)
    requires StreamOk(c.vst) && Clean(c, Init(), calls)
    ensures var st := End(c, Init(), calls);
            var owed := VideoCount(c, st.accepted) - |st.frames|;
            && Decodable(c, st.demuxed) == st.accepted + Held(st)
            && (st.blocked.None? ==> Decodable(c, st.demuxed) == st.accepted)
            && (0 <= owed < U16 ==> st.pktDiff == owed)
            && Climbs(NOPTS, st.frames)
  {
    hide Decodable, VideoCount, Inv, Processing, End, Clean, Climbs;
    InitInv(c);
    CleanRunInv(c, Init(), calls);
    InvAccounts(c, End(c, Init(), calls));
  }

  lemma InvAccounts(c: Config, st: State)
    requires Inv(c, st)
    ensures var owed := VideoCount(c, st.accepted) - |st.frames|;
            && Decodable(c, st.demuxed) == st.accepted + Held(st)
            && (st.blocked.None? ==> Decodable(c, st.demuxed) == st.accepted)
            && (0 <= owed < U16 ==> st.pktDiff == owed)
            && Climbs(NOPTS, st.frames)
  {
    hide Decodable, VideoCount, Keyed, Tries, Climbs;
    assert st.blocked.None? ==> st.accepted + Held(st) == st.accepted;
  }

  /** The drain reports the missing keyframe exactly when frames are owed and none was ever read. */
  lemma NoKeyframeIff(c: Config, calls: seq<Call>, call: Call)
    requires StreamOk(c.vst) && Clean(c, Init(), calls)
    ensures var st := End(c, Init(), calls);
            Processing(c, st, call).ret == NoKeyframe <==>
              && st.blocked.None? && call.demux.AtEnd?
              && c.hasVideo && !st.flushed && st.pktDiff > 0
              && !HasVideoKey(c, Decodable(c, st.demuxed))
  {
    hide Inv, Processing, End, Clean, HasVideoKey;
    InitInv(c);
    CleanRunInv(c, Init(), calls);
    NoKeyframeHere(c, End(c, Init(), calls), call);
  }

  lemma NoKeyframeHere(c: Config, st: State, call: Call)
    requires StreamOk(c.vst) && Inv(c, st)
    ensures Processing(c, st, call).ret == NoKeyframe <==>
              && st.blocked.None? && call.demux.AtEnd?
              && c.hasVideo && !st.flushed && st.pktDiff > 0
              && !HasVideoKey(c, Decodable(c, st.demuxed))
  {
    hide Decodable, HasVideoKey, Counted, Timely, Tries, Receive, VideoFrame, Send;
    assert Fed(c, st) && Keyed(c, st);
    assert st.accepted + [] == st.accepted;
  }

  /** The calls that reach flush_in. */
  predicate Flushes(st: State, call: Call) {
    st.blocked.None? && call.demux.AtEnd?
  }

  /**
   Every call that drains, video or audio, finds no packet held and all packets read accepted, and
   feeds none; every other call leaves the drain's own fields alone.
   */
  lemma DrainStartsEmpty(c: Config, calls: seq<Call>, call: Call)
    requires StreamOk(c.vst) && Clean(c, Init(), calls)
    ensures var st := End(c, Init(), calls);
            var r := Processing(c, st, call).st;
            if Flushes(st, call) then
              && st.accepted == Decodable(c, st.demuxed)
              && r.accepted == st.accepted && r.demuxed == st.demuxed && r.blocked.None?
            else
              r.flushing == st.flushing && r.flushed == st.flushed && r.sentinels == st.sentinels
  {
    hide Processing, Decodable, VideoCount, Keyed, Tries, End, Clean;
    InitInv(c);
    CleanRunInv(c, Init(), calls);
    var st := End(c, Init(), calls);
    assert Fed(c, st);
    assert st.accepted + [] == st.accepted;
    if Flushes(st, call) {
      FlushCallKeepsHistory(c, st, call);
    } else {
      FeedCallKeepsDrain(c, st, call);
    }
  }

  lemma FlushCallKeepsHistory(c: Config, st: State, call: Call)
    requires StreamOk(c.vst) && Flushes(st, call)
    ensures var r := Processing(c, st, call).st;
            r.demuxed == st.demuxed && r.accepted == st.accepted && r.blocked == st.blocked
  {
    hide Flushing;
    FlushingKeepsHistory(c, st, call.sent, call.got, call.audio);
  }

  lemma FeedCallKeepsDrain(c: Config, st: State, call: Call)
    requires StreamOk(c.vst) && !Flushes(st, call)
    ensures var r := Processing(c, st, call).st;
            r.flushing == st.flushing && r.flushed == st.flushed && r.sentinels == st.sentinels
  {
    hide Decoding;
    if st.blocked.Some? {
      DecodingKeepsDrain(c, st.(blocked := None), st.blocked.value, call.sent, call.got);
    } else if call.demux.Read? {
      var p := call.demux.pkt;
      DecodingKeepsDrain(c, st.(demuxed := st.demuxed + [p]), p, call.sent, call.got);
    }
  }

  lemma DecodingKeepsDrain(c: Config, st: State, p: Packet, sent: Sent, got: Received)
    requires StreamOk(c.vst)
    ensures var r := Decoding(c, st, p, sent, got).st;
            r.flushing == st.flushing && r.flushed == st.flushed && r.sentinels == st.sentinels
  {
    hide Repaired, VideoFrame;
  }

  /** A reported frame has the video index exactly if the video decoder returned it. */
  predicate IndexOk(c: Config, st: State, o: Outcome) {
    var isVideo := |o.st.frames| > |st.frames| || o.st.sentinelFrames > st.sentinelFrames;
    o.frame.Some? ==> o.index == Some(if isVideo then c.vi else c.ai)
  }

  lemma DecodingIndex(c: Config, st: State, p: Packet, sent: Sent, got: Received)
    requires StreamOk(c.vst) && c.vi != c.ai
    ensures IndexOk(c, st, Decoding(c, st, p, sent, got))
  {
    hide Repaired;
  }

  lemma FlushVideoIndex(c: Config, st: State, sent: Sent, got: Received)
    requires StreamOk(c.vst)
    ensures var (o, onward) := FlushVideo(c, st, sent, got);
            && IndexOk(c, st, o)
            && (onward ==> o.frame.None? && |o.st.frames| == |st.frames| && o.st.sentinelFrames == st.sentinelFrames)
  {
    hide Repaired;
  }

  lemma FlushingIndex(c: Config, st: State, sent: Sent, got: Received, audio: Received)
    requires StreamOk(c.vst) && c.vi != c.ai
    ensures IndexOk(c, st, Flushing(c, st, sent, got, audio))
  {
    hide FlushVideo;
    FlushVideoIndex(c, st, sent, got);
  }

  /** A frame comes with the index of the decoder it is from, while feeding and while draining. */
  lemma FrameHasItsIndex(c: Config, st: State, call: Call)
    requires StreamOk(c.vst) && c.vi != c.ai
    ensures IndexOk(c, st, Processing(c, st, call))
  {
    hide Decoding, Flushing;
    if st.blocked.Some? {
      DecodingIndex(c, st.(blocked := None), st.blocked.value, call.sent, call.got);
    } else if call.demux.Read? {
      DecodingIndex(c, st.(demuxed := st.demuxed + [call.demux.pkt]), call.demux.pkt, call.sent, call.got);
    } else {
      FlushingIndex(c, st, call.sent, call.got, call.audio);
    }
  }

  // ---------- what is handed out ----------

  /** What the caller is handed for an answer: a video frame repaired, all else as the decoder gave it. */
  predicate HandedOut(c: Config, st: State, o: Outcome, got: Received, isVideo: bool)
    requires StreamOk(c.vst)
  {
    if isVideo && got.Got? && got.frame.pts != -1 then
      && o.frame == Some(got.frame.(pts := o.st.lastPts))
      && o.st.lastPts == Repaired(c.vst, st.lastPts, got.frame)
      && o.st.frames == st.frames + [o.st.lastPts]
    else
      && o.frame == (if got.Got? then Some(got.frame) else None)
      && o.st.frames == st.frames && o.st.lastPts == st.lastPts
  }

  predicate NothingHandedOut(st: State, o: Outcome) {
    o.frame == None && o.st.frames == st.frames && o.st.lastPts == st.lastPts
  }

  /** A packet's call hands out the frame its decoder answered with, and says how it went. */
  lemma DecodingHandsOut(c: Config, st: State, p: Packet, sent: Sent, got: Received)
    requires StreamOk(c.vst) && st.blocked.None?
    ensures var o := Decoding(c, st, p, sent, got);
            var decoded := (c.hasVideo && p.stream == c.vi) || (c.hasAudio && p.stream == c.ai);
            && o.index == Some(p.stream)
            && if !decoded then NothingHandedOut(st, o) && o.ret == Ok
            else if sent == Refused then NothingHandedOut(st, o) && o.ret == Failed
            else
              && HandedOut(c, st, o, got, c.hasVideo && p.stream == c.vi)
              && o.ret == (if got.Got? then Ok else if got.NotYet? then PacketOnly else Failed)
  {
    hide Repaired;
  }

  /** So does a call of the drain: the video frame if there is one, else the audio frame it goes on to. */
  lemma FlushingHandsOut(c: Config, st: State, sent: Sent, got: Received, audio: Received)
    requires StreamOk(c.vst)
    ensures var o := Flushing(c, st, sent, got, audio);
            if c.hasVideo && !st.flushed && st.pktDiff > 0 then
              if !st.flushPkt || sent == Refused then
                NothingHandedOut(st, o) && o.ret == (if st.flushPkt then Failed else NoKeyframe)
              else if got.Got? then HandedOut(c, st, o, got, true) && o.ret == Ok && o.index == Some(c.vi)
              else if o.ret == Again then NothingHandedOut(st, o) && got.NotYet? && o.index == Some(c.vi)
              else AudioHandedOut(c, st, o, audio)
            else AudioHandedOut(c, st, o, audio)
  {
    hide Repaired;
  }

  predicate AudioHandedOut(c: Config, st: State, o: Outcome, audio: Received)
    requires StreamOk(c.vst)
  {
    && (c.hasAudio ==> o.index == Some(c.ai))
    && if c.hasAudio && audio.Got? then HandedOut(c, st, o, audio, false) && o.ret == Ok
       else NothingHandedOut(st, o) && o.ret == Eof
  }

  /** A read error is reported and touches nothing. */
  lemma ReadErrorFails(c: Config, st: State, call: Call)
    requires StreamOk(c.vst) && st.blocked.None? && call.demux.ReadError?
    ensures Processing(c, st, call) == Outcome(st, Failed, None, None)
  {
  }

  /** The timeline is that of the frames handed out: each new entry is the timestamp of this call's frame. */
  lemma FramesCarryTheTimeline(c: Config, st: State, call: Call)
    requires StreamOk(c.vst)
    ensures var o := Processing(c, st, call);
            |o.st.frames| > |st.frames| ==>
              && o.frame.Some? && o.st.frames == st.frames + [o.frame.value.pts]
              && o.frame.value.pts == o.st.lastPts
  {
    hide Decoding, Flushing, Repaired;
    if st.blocked.Some? {
      DecodingHandsOut(c, st.(blocked := None), st.blocked.value, call.sent, call.got);
    } else if call.demux.Read? {
      DecodingHandsOut(c, st.(demuxed := st.demuxed + [call.demux.pkt]), call.demux.pkt, call.sent, call.got);
    } else {
      FlushingHandsOut(c, st, call.sent, call.got, call.audio);
    }
  }

  // ---------- draining ends ----------

  /**
   A sterile pair of answers: the decoder takes no sentinel for being full and returns no frame, or
   only a flush frame.
   */
  predicate Sterile(call: Call) {
    call.sent.Full? && (call.got.NotYet? || (call.got.Got? && call.got.frame.pts == -1))
  }

  /** Every field of the program is the same; only histories may differ. */
  predicate SameFields(st: State, r: State) {
    && r.flushPkt == st.flushPkt && r.flushed == st.flushed && r.flushing == st.flushing
    && r.pktDiff == st.pktDiff && r.sentinelCount == st.sentinelCount
    && r.blocked == st.blocked && r.lastPts == st.lastPts
  }

  /** A call of the video phase leaves every field of the program as it was exactly when it is sterile. */
  lemma StuckIff(c: Config, st: State, call: Call)
    requires StreamOk(c.vst) && VideoPhase(c, st) && Tries(st) && st.pktDiff < U16 && st.flushPkt && st.flushing
    ensures SameFields(st, Flushing(c, st, call.sent, call.got, call.audio).st) <==> Sterile(call)
  {
    hide Repaired, VideoFrame;
  }

  /** Calls once the input has ended, each of which asks for another. */
  predicate Draining(c: Config, st: State, calls: seq<Call>)
    requires StreamOk(c.vst)
    decreases calls
  {
    calls != [] ==>
    && Flushes(st, calls[0])
    && var o := Processing(c, st, calls[0]);
       (o.ret == Ok || o.ret == Again) && Draining(c, o.st, calls[1..])
  }

  /** The sterile calls of a run that come in the video phase. */
  function Steriles(c: Config, st: State, calls: seq<Call>): (n: nat)
    requires StreamOk(c.vst)
    decreases calls
  {
    if calls == [] then 0 else
      (if VideoPhase(c, st) && Sterile(calls[0]) then 1 else 0)
      + Steriles(c, Processing(c, st, calls[0]).st, calls[1..])
  }

  function AudioFrames(calls: seq<Call>): (n: nat) {
    if calls == [] then 0 else (if calls[0].audio.Got? then 1 else 0) + AudioFrames(calls[1..])
  }

  /** Nine calls for each owed frame, less the sentinels already tried. */
  function Budget(c: Config, st: State): (n: int)
    ensures Tries(st) ==> n >= 0
  {
    if VideoPhase(c, st) then 9 * st.pktDiff - st.sentinelCount else 0
  }

  predicate Bounded(st: State) {
    Tries(st) && 0 <= st.pktDiff < U16
  }

  /** Every call of the video phase that is not sterile spends some of the budget. */
  lemma VideoCallSpends(c: Config, st: State, call: Call)
    requires StreamOk(c.vst) && VideoPhase(c, st) && Bounded(st)
    ensures var r := Flushing(c, st, call.sent, call.got, call.audio).st;
            Bounded(r) && Budget(c, r) <= Budget(c, st) + (if Sterile(call) then 1 else 0) - 1
  {
    hide Repaired, VideoFrame;
  }

  lemma AudioCall(c: Config, st: State, call: Call)
    requires StreamOk(c.vst) && !VideoPhase(c, st)
    ensures var o := Flushing(c, st, call.sent, call.got, call.audio);
            o.st == st && (o.ret == Eof || (o.ret == Ok && call.audio.Got?))
  {
  }

  /**
   Draining ends but for sterile calls, whatever the decoders answer: the calls that ask for another
   are at most nine per owed frame, plus the sterile ones, plus the audio frames returned.
   */
  lemma {:induction false} DrainTerminates(c: Config, st: State, calls: seq<Call>)
    requires StreamOk(c.vst) && Bounded(st) && Draining(c, st, calls)
    ensures |calls| <= Budget(c, st) + Steriles(c, st, calls) + AudioFrames(calls)
    decreases calls
  {
    hide Flushing, Budget, Sterile;
    if calls != [] {
      var call := calls[0];
      var o := Processing(c, st, call);
      if VideoPhase(c, st) {
        hide VideoPhase;
        VideoCallSpends(c, st, call);
      } else {
        AudioCall(c, st, call);
      }
      DrainTerminates(c, o.st, calls[1..]);
    }
  }

  /** Calls that all come in the video phase. */
  predicate InVideoPhase(c: Config, st: State, calls: seq<Call>)
    requires StreamOk(c.vst)
    decreases calls
  {
    calls != [] ==>
    && VideoPhase(c, st) && Flushes(st, calls[0])
    && InVideoPhase(c, Processing(c, st, calls[0]).st, calls[1..])
  }

  /** The video phase alone is bounded without regard to what its calls report. */
  lemma {:induction false} VideoPhaseBound(c: Config, st: State, calls: seq<Call>)
    requires StreamOk(c.vst) && Bounded(st) && InVideoPhase(c, st, calls)
    ensures |calls| <= Budget(c, st) + Steriles(c, st, calls)
    decreases calls
  {
    hide Flushing, Budget, Sterile, VideoPhase;
    if calls != [] {
      VideoCallSpends(c, st, calls[0]);
      VideoPhaseBound(c, Processing(c, st, calls[0]).st, calls[1..]);
    }
  }

  lemma {:induction false} NoneSterile(c: Config, st: State, calls: seq<Call>)
    requires StreamOk(c.vst) && forall i :: 0 <= i < |calls| ==> !calls[i].sent.Full?
    ensures Steriles(c, st, calls) == 0
    decreases calls
  {
    if calls != [] {
      assert !calls[0].sent.Full?;
      NoneSterile(c, Processing(c, st, calls[0]).st, calls[1..]);
    }
  }

  /** So a decoder that never refuses a sentinel for being full needs at most nine calls per owed frame. */
  lemma NineCallsPerFrame(c: Config, st: State, calls: seq<Call>)
    requires StreamOk(c.vst) && Bounded(st) && InVideoPhase(c, st, calls) && calls != []
    requires forall i :: 0 <= i < |calls| ==> !calls[i].sent.Full?
    ensures |calls| <= 9 * st.pktDiff - st.sentinelCount
  {
    hide Processing;
    VideoPhaseBound(c, st, calls);
    NoneSterile(c, st, calls);
  }

  lemma SterileCall(c: Config, st: State, call: Call)
    requires StreamOk(c.vst) && VideoPhase(c, st) && Tries(st) && st.flushPkt && st.flushing && Sterile(call)
    ensures var o := Flushing(c, st, call.sent, call.got, call.audio);
            SameFields(st, o.st) && (o.ret == Ok || o.ret == Again)
  {
    hide Repaired, VideoFrame;
  }

  /** Sterile calls get nowhere: after any number of them the next one is asked for, and no field has moved. */
  lemma {:induction false} StuckForever(c: Config, st: State, calls: seq<Call>)
    requires StreamOk(c.vst) && VideoPhase(c, st) && Tries(st) && st.flushPkt && st.flushing
    requires forall i :: 0 <= i < |calls| ==> Flushes(st, calls[i]) && Sterile(calls[i])
    ensures Draining(c, st, calls) && SameFields(st, End(c, st, calls))
    decreases calls
  {
    if calls != [] {
      assert Flushes(st, calls[0]) && Sterile(calls[0]);
      hide Flushing, Sterile;
      var o := Processing(c, st, calls[0]);
      SterileCall(c, st, calls[0]);
      forall i | 0 <= i < |calls[1..]|
        ensures Flushes(o.st, calls[1..][i]) && Sterile(calls[1..][i])
      {
        assert Flushes(st, calls[i + 1]) && Sterile(calls[i + 1]);
      }
      StuckForever(c, o.st, calls[1..]);
    }
  }

  /** Two calls are enough to get there: a keyframe read, then the end of input met by a full decoder. */
  lemma StuckReachable(c: Config) returns (calls: seq<Call>)
    requires StreamOk(c.vst) && c.hasVideo
    ensures Clean(c, Init(), calls)
    ensures var st := End(c, Init(), calls);
            VideoPhase(c, st) && Tries(st) && st.flushPkt && st.flushing && st.blocked.None?
  {
    var first := Call(Read(Packet(c.vi, true, 0)), Taken, NotYet, NotYet);
    var second := Call(AtEnd, Full, NotYet, NotYet);
    calls := [first, second];
    var st := Processing(c, Init(), first).st;
    assert calls[1..] == [second] && [second][1..] == [];
    assert VideoPhase(c, st) && st.flushPkt;
    assert End(c, Init(), calls) == End(c, st, [second]) == Processing(c, st, second).st;
  }

  /** The end of the drain is reported without a stream index exactly when there is nothing to drain. */
  lemma EofWithoutIndexIff(c: Config, st: State, sent: Sent, got: Received, audio: Received)
    requires StreamOk(c.vst)
    ensures var o := Flushing(c, st, sent, got, audio);
            (o.ret == Eof && o.index == None) <==>
              (!(c.hasVideo && !st.flushed && st.pktDiff > 0) && !c.hasAudio)
  {
    hide Repaired, VideoFrame;
  }

  /**
   How the video phase ends for a decoder that reports neither error nor end of stream: every accepted
   packet has its frame back, or nine sentinels without a frame have been sent.
   */
  lemma VideoPhaseEnds(c: Config, st: State, call: Call)
    requires StreamOk(c.vst) && Inv(c, st) && VideoPhase(c, st) && st.flushPkt
    requires call.sent != Refused && (call.got.Got? || call.got.NotYet?)
    requires var r := Flushing(c, st, call.sent, call.got, call.audio).st; r.flushed || r.pktDiff == 0
    requires VideoCount(c, st.accepted) - |st.frames| < U16 && |st.frames| < VideoCount(c, st.accepted)
    ensures var r := Flushing(c, st, call.sent, call.got, call.audio).st;
            || |r.frames| == VideoCount(c, r.accepted)
            || (r.sentinelCount == 9 && r.frames == st.frames)
  {
    hide Repaired, VideoFrame, VideoCount, Decodable, HasVideoKey;
    FlushingCounts(c, st, call.sent, call.got, call.audio);
    var r := Flushing(c, st, call.sent, call.got, call.audio).st;
    FlushingKeepsHistory(c, st, call.sent, call.got, call.audio);
    assert |r.frames| <= |st.frames| + 1;
  }

  /** Sentinels that met no EAGAIN since the last frame that is not a flush frame, n of them before. */
  function Unanswered(n: nat, calls: seq<Call>): (m: nat)
    decreases calls
  {
    if calls == [] then n
    else if calls[0].got.Got? && calls[0].got.frame.pts != -1 then Unanswered(0, calls[1..])
    else Unanswered(n + (if calls[0].sent.Full? then 0 else 1), calls[1..])
  }

  /** sentinel_count is the number of sentinels in a row without a frame: each frame starts it afresh. */
  lemma {:induction false} CountsUnanswered(c: Config, st: State, calls: seq<Call>)
    requires StreamOk(c.vst) && Bounded(st) && st.flushPkt && InVideoPhase(c, st, calls)
    requires forall i :: 0 <= i < |calls| ==> !calls[i].sent.Refused?
    ensures End(c, st, calls).sentinelCount == Unanswered(st.sentinelCount, calls)
    decreases calls
  {
    if calls != [] {
      var call := calls[0];
      assert !call.sent.Refused? && VideoPhase(c, st) && Flushes(st, call);
      hide Flushing, VideoPhase, Bounded;
      CountStep(c, st, call);
      CountsUnanswered(c, Processing(c, st, call).st, calls[1..]);
    }
  }

  lemma CountStep(c: Config, st: State, call: Call)
    requires StreamOk(c.vst) && Bounded(st) && VideoPhase(c, st) && st.flushPkt && !call.sent.Refused?
    ensures var r := Flushing(c, st, call.sent, call.got, call.audio).st;
            && Bounded(r) && r.flushPkt
            && r.sentinelCount == if call.got.Got? && call.got.frame.pts != -1 then 0
                                  else st.sentinelCount + if call.sent.Full? then 0 else 1
  {
    hide Repaired, VideoFrame;
  }
}
