/**
 The packet loop of the RTMP-to-HLS segmenter: it starts at the first video keyframe, drops packets
 that come late within their stream, and fills in missing durations.
 */
module Segmenter {
  import opened Rescale
  import opened Lift

  datatype Packet = Packet(stream: int, pts: Stamp, dts: Stamp, duration: int, key: bool)

  /** Input streams chosen for output 0, video, and output 1, audio. */
  datatype Map = Map(video: int, audio: int)

  /** A packet chosen for output: its stream there, the packet, and its duration in input ticks. */
  datatype Pick = Pick(stream: int, src: Packet, ticks: int)

  datatype Written = Written(stream: int, pts: int, dts: int, duration: int)

  datatype Bases = Bases(videoIn: Rational, videoOut: Rational, audioIn: Rational, audioOut: Rational)

  predicate BasesOk(b: Bases) {
    Positive(b.videoIn) && Positive(b.videoOut) && Positive(b.audioIn) && Positive(b.audioOut)
  }

  /** The output stream of a packet, or -1. */
  function StreamOf(m: Map, p: Packet): int {
    if p.stream == m.video then 0 else if p.stream == m.audio then 1 else -1
  }

  predicate IsVideoKey(m: Map, p: Packet) {
    p.stream == m.video && p.key
  }

  // ---------- reference: what should be written ----------

  predicate Started(m: Map, ps: seq<Packet>) {
    exists k :: 0 <= k < |ps| && IsVideoKey(m, ps[k])
  }

  /** Output 0 takes the packets of the video stream, output 1 those of the audio stream. */
  predicate BelongsTo(m: Map, i: int, p: Packet) {
    if i == 0 then p.stream == m.video else i == 1 && p.stream == m.audio && p.stream != m.video
  }

  /** The packets of one output stream from the first video keyframe on. */
  function Of(m: Map, i: int, ps: seq<Packet>): (rs: seq<Packet>) {
    if ps == [] then [] else
      var front, p := ps[..|ps| - 1], ps[|ps| - 1];
      if BelongsTo(m, i, p) && Started(m, ps) then Of(m, i, front) + [p] else Of(m, i, front)
  }

  /** Packet k comes later than every packet of its stream before it that has a DTS. */
  predicate IsNewest(xs: seq<Packet>, k: nat)
    requires k < |xs|
  {
    forall j :: 0 <= j < k ==> !Defined(xs[j].dts) || xs[j].dts < xs[k].dts
  }

  /** The strict left-to-right DTS maxima of a stream. */
  function Maxima(xs: seq<Packet>): (rs: seq<Packet>) {
    if xs == [] then [] else
      var front := xs[..|xs| - 1];
      if IsNewest(xs, |xs| - 1) then Maxima(front) + [xs[|xs| - 1]] else Maxima(front)
  }

  // ---------- what the code computes ----------

  /** prev_ts: the largest DTS seen on a stream. */
  function Top(xs: seq<Packet>): Stamp {
    if xs == [] then NOPTS else
      var t, d := Top(xs[..|xs| - 1]), xs[|xs| - 1].dts;
      if t == NOPTS || d > t then d else t
  }

  /** The duration a packet gets after one with DTS prev. */
  function Ticks(p: Packet, prev: Stamp): int {
    if p.duration != 0 then p.duration else if prev == NOPTS then 0 else p.dts - prev
  }

  predicate Passes(prev: Stamp, p: Packet) {
    prev == NOPTS || p.dts > prev
  }

  function Picks(m: Map, ps: seq<Packet>): (rs: seq<Pick>) {
    if ps == [] then [] else
      var front, p := ps[..|ps| - 1], ps[|ps| - 1];
      var i := StreamOf(m, p);
      var prev := Top(Of(m, i, front));
      if i >= 0 && Started(m, ps) && Passes(prev, p) then Picks(m, front) + [Pick(i, p, Ticks(p, prev))]
      else Picks(m, front)
  }

  /** Rescaling that passes undefined values through. */
  function RescalePass(t: Stamp, from: Rational, to: Rational): int
    requires Positive(from) && Positive(to)
  {
    if t == NOPTS then NOPTS else RescaleQ(t, from, to)
  }

  function Converted(b: Bases, pick: Pick): Written
    requires BasesOk(b)
  {
    var from := if pick.stream == 0 then b.videoIn else b.audioIn;
    var to := if pick.stream == 0 then b.videoOut else b.audioOut;
    Written(pick.stream, RescalePass(pick.src.pts, from, to), RescalePass(pick.src.dts, from, to),
            RescaleQ(pick.ticks, from, to))
  }

  function ConvertAll(b: Bases, picks: seq<Pick>): (ws: seq<Written>)
    requires BasesOk(b)
  {
    if picks == [] then [] else ConvertAll(b, picks[..|picks| - 1]) + [Converted(b, picks[|picks| - 1])]
  }

  lemma ConvertSnoc(b: Bases, picks: seq<Pick>, pick: Pick)
    requires BasesOk(b)
    ensures ConvertAll(b, picks + [pick]) == ConvertAll(b, picks) + [Converted(b, pick)]
  {
    assert (picks + [pick])[..|picks|] == picks;
  }

  lemma NothingBeforeStart(m: Map, i: int, ps: seq<Packet>)
    requires !Started(m, ps)
    ensures Of(m, i, ps) == []
  {
    if ps != [] {
      var front := ps[..|ps| - 1];
      assert forall k :: 0 <= k < |front| ==> front[k] == ps[k];
      NothingBeforeStart(m, i, front);
    }
  }

  lemma StartedSnoc(m: Map, ps: seq<Packet>, p: Packet)
    ensures Started(m, ps + [p]) <==> Started(m, ps) || IsVideoKey(m, p)
  {
    var qs := ps + [p];
    assert qs[|ps|] == p;
    assert forall k :: 0 <= k < |ps| ==> qs[k] == ps[k];
  }

  lemma OfSnoc(m: Map, i: int, ps: seq<Packet>, p: Packet)
    ensures Of(m, i, ps + [p]) ==
            if i >= 0 && StreamOf(m, p) == i && Started(m, ps + [p]) then Of(m, i, ps) + [p] else Of(m, i, ps)
  {
    assert (ps + [p])[..|ps|] == ps;
  }

  lemma PicksSnoc(m: Map, ps: seq<Packet>, p: Packet)
    ensures var i := StreamOf(m, p);
            var prev := Top(Of(m, i, ps));
            Picks(m, ps + [p]) == if i >= 0 && Started(m, ps + [p]) && Passes(prev, p)
                                  then Picks(m, ps) + [Pick(i, p, Ticks(p, prev))] else Picks(m, ps)
  {
    assert (ps + [p])[..|ps|] == ps;
  }

  lemma TopSnoc(xs: seq<Packet>, p: Packet)
    ensures Top(xs + [p]) == if Passes(Top(xs), p) then p.dts else Top(xs)
  {
    assert (xs + [p])[..|xs|] == xs;
  }

  /** All packets read until the end of input; a read error would end the run early. */
  method Segment(m: Map, b: Bases, ps: seq<Packet>) returns (written: seq<Written>)
    requires BasesOk(b)
    ensures written == ConvertAll(b, Picks(m, ps))
  {
    hide Picks, ConvertAll, Converted, Top, Of, Started;
    var prevTs: array<Stamp> := new Stamp[2](_ => NOPTS);
    var gotVideoKf := false;
    written := [];
    ghost var none: seq<Packet> := [];
    Empty(m, b);
    for n := 0 to |ps|
      invariant gotVideoKf <==> Started(m, ps[..n])
      invariant prevTs[0] == Top(Of(m, 0, ps[..n])) && prevTs[1] == Top(Of(m, 1, ps[..n]))
      invariant written == ConvertAll(b, Picks(m, ps[..n]))
    {
      var p := ps[n];
      ghost var before := ps[..n];
      assert ps[..n + 1] == before + [p];
      StartedSnoc(m, before, p);
      PicksSnoc(m, before, p);
      OfSnoc(m, 0, before, p);
      OfSnoc(m, 1, before, p);
      if !gotVideoKf {
        NothingBeforeStart(m, 0, before);
        EmptyTop();
      }
      var i := StreamOf(m, p);
      if i < 0 {
        continue;
      }
      var dtsNext, dtsPrev := p.dts, prevTs[i];
      if i == 0 && dtsPrev == NOPTS && p.key {
        gotVideoKf := true;
      }
      assert gotVideoKf <==> Started(m, before + [p]) by {
        StartedStays(m, before, p, dtsPrev);
      }
      if !gotVideoKf {
        continue;
      }
      ghost var pick := Pick(i, p, Ticks(p, dtsPrev));
      TopSnoc(Of(m, i, before), p);
      if dtsPrev == NOPTS {
        dtsPrev := dtsNext;
      } else if dtsNext <= dtsPrev {
        continue;
      }
      var from := if i == 0 then b.videoIn else b.audioIn;
      var to := if i == 0 then b.videoOut else b.audioOut;
      var duration := if p.duration == 0 then dtsNext - dtsPrev else p.duration;
      prevTs[i] := dtsNext;
      written := written + [Written(i, RescalePass(p.pts, from, to), RescalePass(p.dts, from, to),
                                    RescaleQ(duration, from, to))];
      ConvertedIs(b, pick);
      ConvertSnoc(b, Picks(m, before), pick);
    }
    assert ps[..|ps|] == ps;
  }

  lemma Empty(m: Map, b: Bases)
    requires BasesOk(b)
    ensures !Started(m, []) && Of(m, 0, []) == Of(m, 1, []) == [] && Top([]) == NOPTS
    ensures ConvertAll(b, Picks(m, [])) == []
  {
  }

  lemma EmptyTop()
    ensures Top([]) == NOPTS
  {
  }

  /** Once started, whether the flag is set again does not matter. */
  lemma StartedStays(m: Map, ps: seq<Packet>, p: Packet, dtsPrev: Stamp)
    requires StreamOf(m, p) >= 0 && dtsPrev == Top(Of(m, StreamOf(m, p), ps))
    ensures Started(m, ps + [p]) <==> Started(m, ps) || (StreamOf(m, p) == 0 && dtsPrev == NOPTS && p.key)
  {
    StartedSnoc(m, ps, p);
    if !Started(m, ps) {
      NothingBeforeStart(m, StreamOf(m, p), ps);
    }
  }

  lemma ConvertedIs(b: Bases, pick: Pick)
    requires BasesOk(b)
    ensures var from := if pick.stream == 0 then b.videoIn else b.audioIn;
            var to := if pick.stream == 0 then b.videoOut else b.audioOut;
            Converted(b, pick) == Written(pick.stream, RescalePass(pick.src.pts, from, to),
                                          RescalePass(pick.src.dts, from, to), RescaleQ(pick.ticks, from, to))
  {
  }

  // ---------- the code meets the reference ----------

  /** The largest DTS decides whether a packet is the newest. */
  lemma {:induction false} TopIsMax(xs: seq<Packet>, j: nat)
    requires j < |xs|
    ensures xs[j].dts <= Top(xs)
    ensures Defined(Top(xs)) ==> exists k :: 0 <= k < |xs| && xs[k].dts == Top(xs)
  {
    var front := xs[..|xs| - 1];
    assert xs[|xs| - 1].dts <= Top(xs);
    if |xs| > 1 {
      TopIsMax(front, if j < |front| then j else 0);
      if Defined(Top(front)) {
        var k :| 0 <= k < |front| && front[k].dts == Top(front);
        assert xs[k].dts == Top(front);
      }
    }
    assert xs[|xs| - 1].dts == Top(xs) || Top(front) == Top(xs);
  }

  lemma NewestIff(xs: seq<Packet>, p: Packet)
    ensures IsNewest(xs + [p], |xs|) <==> Passes(Top(xs), p)
  {
    var ys := xs + [p];
    if xs != [] {
      TopIsMax(xs, 0);
      if Passes(Top(xs), p) {
        forall j | 0 <= j < |xs|
          ensures !Defined(ys[j].dts) || ys[j].dts < p.dts
        {
          TopIsMax(xs, j);
        }
      } else {
        var k :| 0 <= k < |xs| && xs[k].dts == Top(xs);
        assert ys[k].dts == Top(xs) && !(ys[k].dts < p.dts);
      }
    }
  }

  /** The packets written to one stream. */
  function Sources(i: int, picks: seq<Pick>): (rs: seq<Packet>) {
    if picks == [] then [] else
      var front, pick := picks[..|picks| - 1], picks[|picks| - 1];
      if pick.stream == i then Sources(i, front) + [pick.src] else Sources(i, front)
  }

  lemma SourcesSnoc(i: int, picks: seq<Pick>, pick: Pick)
    ensures Sources(i, picks + [pick]) == if pick.stream == i then Sources(i, picks) + [pick.src] else Sources(i, picks)
  {
    assert (picks + [pick])[..|picks|] == picks;
  }

  lemma MaximaSnoc(xs: seq<Packet>, p: Packet)
    ensures Maxima(xs + [p]) == if IsNewest(xs + [p], |xs|) then Maxima(xs) + [p] else Maxima(xs)
  {
    assert (xs + [p])[..|xs|] == xs;
  }

  /** Each stream gets exactly its strict DTS maxima from the first video keyframe on. */
  lemma {:induction false} WritesMaxima(m: Map, i: int, ps: seq<Packet>)
    requires i >= 0
    ensures Sources(i, Picks(m, ps)) == Maxima(Of(m, i, ps))
  {
    if ps != [] {
      hide Picks, Sources, Maxima, IsNewest, Of, Started, Top;
      var front, p := ps[..|ps| - 1], ps[|ps| - 1];
      assert ps == front + [p];
      WritesMaxima(m, i, front);
      PicksSnoc(m, front, p);
      OfSnoc(m, i, front, p);
      var xs, prev := Of(m, i, front), Top(Of(m, StreamOf(m, p), front));
      SourcesSnoc(i, Picks(m, front), Pick(StreamOf(m, p), p, Ticks(p, prev)));
      MaximaSnoc(xs, p);
      NewestIff(xs, p);
    } else {
      EmptyStreams(m, i);
    }
  }

  lemma EmptyStreams(m: Map, i: int)
    ensures Sources(i, Picks(m, [])) == [] && Maxima(Of(m, i, [])) == []
  {
  }

  /** Something is written exactly when a video keyframe comes, and it is written first. */
  lemma {:induction false} KeyframeFirst(m: Map, ps: seq<Packet>, k: nat)
    requires k < |ps| && IsVideoKey(m, ps[k]) && !Started(m, ps[..k])
    ensures Picks(m, ps) != [] && Picks(m, ps)[0] == Pick(0, ps[k], ps[k].duration)
  {
    var front, p := ps[..|ps| - 1], ps[|ps| - 1];
    if k < |ps| - 1 {
      assert front[..k] == ps[..k];
      KeyframeFirst(m, front, k);
    } else {
      assert front == ps[..k];
      NothingBeforeStart(m, 0, front);
      NothingPicked(m, front);
      assert Started(m, ps) by {
        assert IsVideoKey(m, ps[k]);
      }
    }
  }

  lemma {:induction false} NothingPicked(m: Map, ps: seq<Packet>)
    ensures Picks(m, ps) != [] ==> Started(m, ps)
  {
    if ps != [] && !Started(m, ps) {
      var front := ps[..|ps| - 1];
      assert forall k :: 0 <= k < |front| ==> front[k] == ps[k];
      assert !Started(m, front);
      NothingPicked(m, front);
    }
  }

  // ---------- what is written, packet by packet ----------

  /** A pick goes to the output of its stream and keeps a duration of its own. */
  lemma {:induction false} PickIs(m: Map, ps: seq<Packet>, k: nat)
    requires k < |Picks(m, ps)|
    ensures var pick := Picks(m, ps)[k];
            && (pick.stream == 0 || pick.stream == 1) && BelongsTo(m, pick.stream, pick.src)
            && (pick.src.duration != 0 ==> pick.ticks == pick.src.duration)
    decreases |ps|
  {
    var front := ps[..|ps| - 1];
    if k < |Picks(m, front)| {
      PickIs(m, front, k);
    }
  }

  /** Packets are written in the order of the input: one more packet adds at most itself, at the end. */
  lemma PicksGrow(m: Map, ps: seq<Packet>, p: Packet)
    ensures var before, after := Picks(m, ps), Picks(m, ps + [p]);
            after == before || (|after| == |before| + 1 && after[..|before|] == before && after[|before|].src == p)
  {
    hide Picks;
    PicksSnoc(m, ps, p);
  }

  /** t converted is the nearest tick of the output's base, or undefined like t. */
  predicate IsConverted(t: Stamp, from: Rational, to: Rational, r: int) {
    if t == NOPTS then r == NOPTS else Nearest(t * (from.num * to.den), from.den * to.num, r)
  }

  /** Every pick is written with its clocks and its duration in the output's base. */
  lemma {:induction false} WrittenIs(b: Bases, picks: seq<Pick>, k: nat)
    requires BasesOk(b) && k < |picks|
    ensures |ConvertAll(b, picks)| == |picks|
    ensures var pick, w := picks[k], ConvertAll(b, picks)[k];
            var from := if pick.stream == 0 then b.videoIn else b.audioIn;
            var to := if pick.stream == 0 then b.videoOut else b.audioOut;
            && w.stream == pick.stream
            && IsConverted(pick.src.pts, from, to, w.pts) && IsConverted(pick.src.dts, from, to, w.dts)
            && Nearest(pick.ticks * (from.num * to.den), from.den * to.num, w.duration)
    decreases |picks|
  {
    var front, pick := picks[..|picks| - 1], picks[|picks| - 1];
    if front != [] {
      WrittenIs(b, front, if k < |front| then k else 0);
    }
    if k == |front| {
      ConvertedTime(pick.src.pts, b, pick.stream);
      ConvertedTime(pick.src.dts, b, pick.stream);
      ConvertedTime(pick.ticks, b, pick.stream);
    }
  }

  lemma ConvertedTime(t: int, b: Bases, stream: int)
    requires BasesOk(b)
    ensures var from := if stream == 0 then b.videoIn else b.audioIn;
            var to := if stream == 0 then b.videoOut else b.audioOut;
            Nearest(t * (from.num * to.den), from.den * to.num, RescaleQ(t, from, to))
  {
    var from := if stream == 0 then b.videoIn else b.audioIn;
    var to := if stream == 0 then b.videoOut else b.audioOut;
    MulPositive(from.den, to.num);
    RoundIsNearest(t * (from.num * to.den), from.den * to.num);
  }

  // ---------- durations ----------

  function TotalTicks(i: int, picks: seq<Pick>): int {
    if picks == [] then 0 else
      TotalTicks(i, picks[..|picks| - 1]) + if picks[|picks| - 1].stream == i then picks[|picks| - 1].ticks else 0
  }

  lemma TotalSnoc(i: int, picks: seq<Pick>, pick: Pick)
    ensures TotalTicks(i, picks + [pick]) == TotalTicks(i, picks) + if pick.stream == i then pick.ticks else 0
  {
    assert (picks + [pick])[..|picks|] == picks;
  }

  /** No packet of the stream brings a duration; some may lack a DTS as well. */
  predicate NoDurations(xs: seq<Packet>) {
    forall k :: 0 <= k < |xs| ==> xs[k].duration == 0
  }

  /** The first DTS of a stream. */
  function FirstDts(xs: seq<Packet>): Stamp {
    if xs == [] then NOPTS else
      var f := FirstDts(xs[..|xs| - 1]);
      if Defined(f) then f else xs[|xs| - 1].dts
  }

  /** From the first DTS of a stream to the largest. */
  function Span(xs: seq<Packet>): int {
    if Defined(Top(xs)) then Top(xs) - FirstDts(xs) else 0
  }

  lemma {:induction false} FirstDefinedIff(xs: seq<Packet>)
    ensures Defined(FirstDts(xs)) <==> Defined(Top(xs))
  {
    if xs != [] {
      FirstDefinedIff(xs[..|xs| - 1]);
    }
  }

  lemma SpanSnoc(xs: seq<Packet>, p: Packet)
    requires p.duration == 0
    ensures Span(xs + [p]) == Span(xs) + if Passes(Top(xs), p) then Ticks(p, Top(xs)) else 0
  {
    FirstDefinedIff(xs);
    assert (xs + [p])[..|xs|] == xs;
  }

  /**
   Where a stream brings no durations of its own, those filled in add up to its span in input ticks,
   whatever the other streams and the packets before the first keyframe bring.
   */
  lemma {:induction false} DurationsTelescope(m: Map, i: int, ps: seq<Packet>)
    requires i >= 0 && NoDurations(Of(m, i, ps))
    ensures TotalTicks(i, Picks(m, ps)) == Span(Of(m, i, ps))
  {
    if ps != [] {
      hide Picks, Of, Started, Top, TotalTicks, Span;
      var front, p := ps[..|ps| - 1], ps[|ps| - 1];
      assert ps == front + [p];
      var xs, prev := Of(m, i, front), Top(Of(m, StreamOf(m, p), front));
      PicksSnoc(m, front, p);
      OfSnoc(m, i, front, p);
      TotalSnoc(i, Picks(m, front), Pick(StreamOf(m, p), p, Ticks(p, prev)));
      NoDurationsSnoc(xs, p);
      DurationsTelescope(m, i, front);
      if Of(m, i, ps) == xs + [p] {
        SpanSnoc(xs, p);
      }
    } else {
      NoTicks(m, i);
    }
  }

  lemma NoDurationsSnoc(xs: seq<Packet>, p: Packet)
    ensures NoDurations(xs + [p]) <==> NoDurations(xs) && p.duration == 0
  {
    var ys := xs + [p];
    assert ys[|xs|] == p;
    assert forall k :: 0 <= k < |xs| ==> ys[k] == xs[k];
  }

  lemma NoTicks(m: Map, i: int)
    ensures TotalTicks(i, Picks(m, [])) == 0 && Span(Of(m, i, [])) == 0
  {
  }

  lemma FirstSnoc(xs: seq<Packet>, p: Packet)
    ensures FirstDts(xs + [p]) == if Defined(FirstDts(xs)) then FirstDts(xs) else p.dts
  {
    assert (xs + [p])[..|xs|] == xs;
  }

  lemma EmptyStream()
    ensures Maxima([]) == [] && Top([]) == NOPTS && FirstDts([]) == NOPTS
  {
  }

  /** The last packet written to a stream is the one with the largest DTS so far. */
  lemma {:induction false} LastMaximum(xs: seq<Packet>)
    requires xs != [] && Defined(xs[0].dts)
    ensures Maxima(xs) != [] && Maxima(xs)[0] == xs[0] && FirstDts(xs) == xs[0].dts
    ensures Defined(Top(xs)) && Maxima(xs)[|Maxima(xs)| - 1].dts == Top(xs)
  {
    hide Maxima, Top, FirstDts, IsNewest;
    var front, p := xs[..|xs| - 1], xs[|xs| - 1];
    assert xs == front + [p];
    MaximaSnoc(front, p);
    TopSnoc(front, p);
    FirstSnoc(front, p);
    NewestIff(front, p);
    if front != [] {
      assert front[0] == xs[0];
      LastMaximum(front);
    } else {
      EmptyStream();
    }
  }

  /** For a stream that begins with a DTS this is the last DTS written less the first. */
  lemma DurationsSpanWritten(m: Map, i: int, ps: seq<Packet>)
    requires i >= 0 && NoDurations(Of(m, i, ps))
    requires Of(m, i, ps) != [] && Defined(Of(m, i, ps)[0].dts)
    ensures var ws := Sources(i, Picks(m, ps));
            ws != [] && TotalTicks(i, Picks(m, ps)) == ws[|ws| - 1].dts - ws[0].dts
  {
    hide Picks, Of, Started, TotalTicks;
    WritesMaxima(m, i, ps);
    DurationsTelescope(m, i, ps);
    LastMaximum(Of(m, i, ps));
  }
}
