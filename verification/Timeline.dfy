/**
 The video timeline from decoder to encoder: fix_video_pts repairs what the decoder delivers, and
 the encoder tick clamp separates frames that a coarser time base would merge.
 */
module Timeline {
  import opened Common
  import opened Rescale
  import opened Lift

  // ---------- decoder side ----------

  datatype Frame = Frame(pts: Stamp, bestEffort: Stamp, duration: int)

  /** The input's video stream, if it has one: r_frame_rate may be unset. */
  datatype Stream = NoStream | Stream(frameRate: Rational, timeBase: Rational)

  predicate StreamOk(vst: Stream) {
    vst.Stream? ==> Positive(vst.timeBase)
  }

  /** The distance to put between a frame without timestamps and its predecessor. */
  function DecodedVideoPtsStep(vst: Stream, frame: Frame): (step: int)
    requires StreamOk(vst)
    ensures step > 0
  {
    if frame.duration > 0 then frame.duration
    else if vst.Stream? && Positive(vst.frameRate) then
      var step := RescaleQ(1, Rational(vst.frameRate.den, vst.frameRate.num), vst.timeBase);
      if step > 0 then step else 1
    else 1
  }

  /**
   The distance is the frame's own duration, else one frame of the stream's rate: the number of ticks
   nearest to it, but at least one.
   */
  lemma StepIs(vst: Stream, frame: Frame)
    requires StreamOk(vst)
    ensures var step := DecodedVideoPtsStep(vst, frame);
            if frame.duration > 0 then step == frame.duration
            else if vst.Stream? && vst.frameRate.num > 0 && vst.frameRate.den > 0 then
              var ticks := vst.frameRate.den * vst.timeBase.den;
              var unit := vst.frameRate.num * vst.timeBase.num;
              && 2 * (step * unit) >= 2 * ticks - unit
              && (step > 1 ==> 2 * (step * unit) <= 2 * ticks + unit)
            else step == 1
  {
    if frame.duration <= 0 && vst.Stream? && Positive(vst.frameRate) {
      var ticks, unit := vst.frameRate.den * vst.timeBase.den, vst.frameRate.num * vst.timeBase.num;
      MulPositive(vst.frameRate.den, vst.timeBase.den);
      MulPositive(vst.frameRate.num, vst.timeBase.num);
      var inverse := Rational(vst.frameRate.den, vst.frameRate.num);
      assert RescaleQ(1, inverse, vst.timeBase) == Round(ticks, unit);
      RoundIsNearest(ticks, unit);
      if Round(ticks, unit) <= 0 {
        Scaled(Round(ticks, unit), 0, unit);
      }
    }
  }

  /** The timestamp a frame comes with, undefined when it has none of its own. */
  function Given(frame: Frame): Stamp {
    if Defined(frame.pts) then frame.pts else frame.bestEffort
  }

  /** The rule that fix_video_pts refines: a given timestamp, raised; or one step past the last. */
  function Repaired(vst: Stream, last: Stamp, frame: Frame): Stamp
    requires StreamOk(vst)
  {
    if Defined(Given(frame)) then Max(Given(frame), last + 1)
    else (if Defined(last) then last else 0) + DecodedVideoPtsStep(vst, frame)
  }

  class InputCtx {
    const vst: Stream
    var lastVideoPts: Stamp

    constructor (vst: Stream)
      ensures this.vst == vst && lastVideoPts == NOPTS
    {
      this.vst := vst;
      lastVideoPts := NOPTS;
    }

    method FixVideoPts(frame: Frame) returns (fixed: Frame)
      requires StreamOk(vst)
      modifies this
      ensures fixed == frame.(pts := Repaired(vst, old(lastVideoPts), frame))
      ensures lastVideoPts == fixed.pts && Defined(fixed.pts) && old(lastVideoPts) < fixed.pts
      ensures frame.pts != NOPTS ==> fixed.pts == Max(frame.pts, old(lastVideoPts) + 1)
      ensures frame.pts == NOPTS && frame.bestEffort != NOPTS ==>
                fixed.pts == Max(frame.bestEffort, old(lastVideoPts) + 1)
      ensures frame.pts == NOPTS && frame.bestEffort == NOPTS ==>
                fixed.pts == (if old(lastVideoPts) != NOPTS then old(lastVideoPts) else 0)
                             + DecodedVideoPtsStep(vst, frame)
    {
      var pts: int := frame.pts;
      var spacing := DecodedVideoPtsStep(vst, frame);
      var synthesized := false;
      if pts == NOPTS {
        pts := frame.bestEffort;
      }
      if pts == NOPTS {
        pts := spacing;
        if lastVideoPts != NOPTS {
          pts := pts + lastVideoPts;
        }
        synthesized := true;
      }
      if lastVideoPts != NOPTS && pts <= lastVideoPts {
        var step := if synthesized then spacing else 1;
        pts := lastVideoPts + step;
      }
      fixed := frame.(pts := pts);
      lastVideoPts := pts;
    }
  }

  /** The timestamps that a run of decoded frames leaves the decoder with. */
  function Decoded(vst: Stream, last: Stamp, frames: seq<Frame>): (out: seq<int>)
    requires StreamOk(vst)
    ensures |out| == |frames|
    decreases frames
  {
    if frames == [] then [] else
      var pts := Repaired(vst, last, frames[0]);
      [pts] + Decoded(vst, pts, frames[1..])
  }

  /** No mix of missing, repeated and regressing timestamps leaves the timeline undefined or stuck. */
  lemma {:induction false} DecodedClimbs(vst: Stream, last: Stamp, frames: seq<Frame>)
    requires StreamOk(vst)
    ensures Climbs(last, Decoded(vst, last, frames)) && AllDefined(Decoded(vst, last, frames))
    decreases frames
  {
    if frames != [] {
      var pts := Repaired(vst, last, frames[0]);
      DecodedClimbs(vst, pts, frames[1..]);
      var out, rest := Decoded(vst, last, frames), Decoded(vst, pts, frames[1..]);
      forall i | 0 <= i < |out|
        ensures Before(last, out, i) < out[i] && Defined(out[i])
      {
        assert i > 0 ==> out[i] == rest[i - 1] && Defined(rest[i - 1]);
      }
    }
  }

  function Givens(frames: seq<Frame>): (xs: seq<int>)
    ensures |xs| == |frames|
  {
    if frames == [] then [] else [Given(frames[0])] + Givens(frames[1..])
  }

  /** When every frame comes with a timestamp, the repair is the least climbing sequence above. */
  lemma {:induction false} DecodedIsLifted(vst: Stream, last: Stamp, frames: seq<Frame>)
    requires StreamOk(vst) && AllDefined(Givens(frames))
    ensures Decoded(vst, last, frames) == Lifted(last, Givens(frames))
    decreases frames
  {
    if frames != [] {
      var gs := Givens(frames);
      assert Defined(gs[0]);
      assert gs[1..] == Givens(frames[1..]);
      assert forall i :: 0 <= i < |gs[1..]| ==> gs[1..][i] == gs[i + 1];
      DecodedIsLifted(vst, Repaired(vst, last, frames[0]), frames[1..]);
    }
  }

  /** Frames that all lack timestamps follow the last one at exactly the known frame distance. */
  lemma {:induction false} DecodedBridgesGaps(vst: Stream, last: Stamp, frames: seq<Frame>, step: int, n: nat)
    requires StreamOk(vst) && Defined(last) && n < |frames|
    requires forall i :: 0 <= i <= n ==>
               !Defined(Given(frames[i])) && DecodedVideoPtsStep(vst, frames[i]) == step
    ensures Decoded(vst, last, frames)[n] == last + (n + 1) * step
    decreases frames
  {
    if n > 0 {
      var pts := Repaired(vst, last, frames[0]);
      assert !Defined(Given(frames[0])) && pts == last + step;
      DecodedBridgesGaps(vst, pts, frames[1..], step, n - 1);
      assert (n + 1) * step == n * step + step;
    }
  }

  /**
   The sentinel timestamp -1 is not produced by the repair: frames whose own timestamps are missing or
   non-negative leave it with non-negative ones, so none is taken for a flush frame later.
   */
  lemma {:induction false} DecodedStaysNonNegative(vst: Stream, last: Stamp, frames: seq<Frame>, i: nat)
    requires StreamOk(vst) && i < |frames| && (Defined(last) ==> last >= 0)
    requires forall k :: 0 <= k < |frames| ==> !Defined(Given(frames[k])) || Given(frames[k]) >= 0
    ensures Decoded(vst, last, frames)[i] >= 0
    decreases frames
  {
    assert !Defined(Given(frames[0])) || Given(frames[0]) >= 0;
    if i > 0 {
      DecodedStaysNonNegative(vst, Repaired(vst, last, frames[0]), frames[1..], i - 1);
    }
  }

  // ---------- encoder side ----------

  predicate Converts(filterTb: Rational, encoderTb: Rational) {
    Positive(filterTb) && Positive(encoderTb)
  }

  class EncoderCtx {
    var lastEncPts: Stamp

    constructor ()
      ensures lastEncPts == NOPTS
    {
      lastEncPts := NOPTS;
    }

    /**
     The part of process_out that sets the timestamp a frame is encoded with. The opaque field follows
     a raised timestamp, in the filter's time base.
     */
    method SetEncoderPts(pts: Stamp, opaque0: int, isVideo: bool, filterTb: Rational, encoderTb: Rational)
      returns (out: int, opaqueTs: int)
      requires Converts(filterTb, encoderTb)
      requires !SameRate(filterTb, encoderTb) ==> Defined(RescaleQ(pts, filterTb, encoderTb))
      modifies this
      ensures SameRate(filterTb, encoderTb) ==> out == pts && opaqueTs == opaque0 && lastEncPts == old(lastEncPts)
      ensures !SameRate(filterTb, encoderTb) ==>
                var r := RescaleQ(pts, filterTb, encoderTb);
                && (if isVideo then out == lastEncPts == Max(r, old(lastEncPts) + 1)
                    else out == r && lastEncPts == old(lastEncPts))
                && opaqueTs == if out == r then opaque0 else RescaleQ(out, encoderTb, filterTb)
    {
      out, opaqueTs := pts, opaque0;
      var rescaled := !SameRate(filterTb, encoderTb);
      if rescaled {
        out := RescaleQ(out, filterTb, encoderTb);
      }
      if isVideo && rescaled {
        if lastEncPts != NOPTS && out <= lastEncPts {
          out := lastEncPts + 1;
          opaqueTs := RescaleQ(out, encoderTb, filterTb);
        }
        lastEncPts := out;
      }
    }
  }

  function RescaleAll(xs: seq<int>, from: Rational, to: Rational): (ys: seq<int>)
    requires Converts(from, to)
    ensures |ys| == |xs|
  {
    if xs == [] then [] else [RescaleQ(xs[0], from, to)] + RescaleAll(xs[1..], from, to)
  }

  lemma {:induction false} RescaleAllAt(xs: seq<int>, from: Rational, to: Rational, i: nat)
    requires Converts(from, to) && i < |xs|
    ensures RescaleAll(xs, from, to)[i] == RescaleQ(xs[i], from, to)
  {
    if i > 0 {
      RescaleAllAt(xs[1..], from, to, i - 1);
    }
  }

  /** The timestamps that reach the encoder for a run of video frames. */
  function Encoded(last: Stamp, xs: seq<int>, filterTb: Rational, encoderTb: Rational): (ys: seq<int>)
    requires Converts(filterTb, encoderTb)
  {
    if SameRate(filterTb, encoderTb) then xs
    else Lifted(last, RescaleAll(xs, filterTb, encoderTb))
  }

  predicate TicksApart(xs: seq<int>, from: Rational, to: Rational) {
    forall i :: 0 < i < |xs| ==> TickApart(xs[i - 1], xs[i], from, to)
  }

  lemma {:induction false} RescaleAllSameRate(xs: seq<int>, from: Rational, to: Rational)
    requires Converts(from, to) && SameRate(from, to)
    ensures RescaleAll(xs, from, to) == xs
  {
    if xs != [] {
      RescaleSameRate(xs[0], from, to);
      RescaleAllSameRate(xs[1..], from, to);
    }
  }

  /** Frames at least one encoder tick apart are still apart after conversion. */
  lemma TicksStayApart(xs: seq<int>, from: Rational, to: Rational)
    requires Converts(from, to) && Climbs(NOPTS, xs)
    requires TicksApart(xs, from, to) && AllDefined(RescaleAll(xs, from, to))
    ensures Climbs(NOPTS, RescaleAll(xs, from, to))
  {
    var rs := RescaleAll(xs, from, to);
    forall i | 0 <= i < |rs|
      ensures Before(NOPTS, rs, i) < rs[i]
    {
      assert Defined(rs[i]);
      RescaleAllAt(xs, from, to, i);
      if i > 0 {
        RescaleAllAt(xs, from, to, i - 1);
        assert TickApart(xs[i - 1], xs[i], from, to);
        RescaleInOrder(xs[i - 1], xs[i], from, to);
      }
    }
  }

  /**
   The whole chain: whatever the decoder delivers, the encoder sees a defined, strictly increasing
   timeline, each value being the peak of the converted ones; converted values one tick apart
   arrive unchanged.
   */
  lemma DecoderToEncoder(vst: Stream, frames: seq<Frame>, filterTb: Rational, encoderTb: Rational)
    requires StreamOk(vst) && Converts(filterTb, encoderTb)
    requires AllDefined(RescaleAll(Decoded(vst, NOPTS, frames), filterTb, encoderTb))
    ensures var xs := Decoded(vst, NOPTS, frames);
            var ys := Encoded(NOPTS, xs, filterTb, encoderTb);
            var rs := RescaleAll(xs, filterTb, encoderTb);
            && |ys| == |frames| && AllDefined(ys) && Climbs(NOPTS, ys)
            && (forall n :: 0 <= n < |ys| ==> IsPeak(rs, n, ys[n]))
            && (TicksApart(xs, filterTb, encoderTb) ==> ys == rs)
  {
    var xs := Decoded(vst, NOPTS, frames);
    var rs := RescaleAll(xs, filterTb, encoderTb);
    DecodedClimbs(vst, NOPTS, frames);
    if SameRate(filterTb, encoderTb) {
      RescaleAllSameRate(xs, filterTb, encoderTb);
      LiftedSameIff(NOPTS, xs);
    }
    LiftedFromUndefined(rs);
    LiftedClimbs(NOPTS, rs);
    if TicksApart(xs, filterTb, encoderTb) {
      TicksStayApart(xs, filterTb, encoderTb);
      LiftedSameIff(NOPTS, rs);
    }
  }
}
