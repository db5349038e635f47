/**
 The muxer's last repair of packet timestamps: a median when DTS exceeds PTS, then a clamp that
 keeps DTS monotonic, plus the dropping of preroll audio.
 */
module Mux {
  import opened Common
  import opened Rescale
  import opened Lift

  datatype Kind = Audio | Video | Other

  datatype Packet = Packet(pts: Stamp, dts: Stamp, payload: int)

  // ---------- what one packet becomes ----------

  function Min3(a: int, b: int, c: int): int {
    Min(a, Min(b, c))
  }

  function Max3(a: int, b: int, c: int): int {
    Max(a, Max(b, c))
  }

  /** Both clocks of a packet are defined. */
  predicate Timed(p: Packet) {
    Defined(p.pts) && Defined(p.dts)
  }

  /** The least DTS allowed after last. */
  function Floor(strict: bool, last: Stamp): int {
    if strict then last + 1 else last
  }

  /**
   The rule that median and clamp refine. A packet whose clocks are in order keeps its DTS, raised to
   the floor. One with DTS above PTS takes its PTS; without AVFMT_TS_NONSTRICT this is again raised
   to the floor, otherwise to last + 1 unless its DTS is lower still. PTS never ends below DTS.
   */
  function Settled(strict: bool, last: Stamp, p: Packet): (r: Packet)
    ensures Timed(p) ==> Timed(r) && r.dts <= r.pts && p.pts <= r.pts
  {
    if !Defined(p.dts) then p
    else if !Defined(p.pts) then p.(dts := if Defined(last) then Max(p.dts, Floor(strict, last)) else p.dts)
    else
      var dts := if strict || p.dts <= p.pts then Max(Min(p.pts, p.dts), Floor(strict, last))
                 else Max3(p.pts, last, Min(p.dts, last + 1));
      p.(dts := dts, pts := Max(p.pts, dts))
  }

  function Median(a: int, b: int, c: int): int {
    a + b + c - Min3(a, b, c) - Max3(a, b, c)
  }

  /** Two's complement 64-bit wrap-around. */
  function Wrap(x: int): int {
    (x + 0x8000_0000_0000_0000) % 0x1_0000_0000_0000_0000 - 0x8000_0000_0000_0000
  }

  predicate IsInt64(x: int) {
    -0x8000_0000_0000_0000 <= x < 0x8000_0000_0000_0000
  }

  lemma WrapAdd(x: int, y: int)
    ensures Wrap(Wrap(x) + y) == Wrap(x + y)
  {
    var k := (x + 0x8000_0000_0000_0000) / 0x1_0000_0000_0000_0000;
    assert Wrap(x) == x - k * 0x1_0000_0000_0000_0000;
  }

  lemma WrapSub(x: int, y: int)
    ensures Wrap(Wrap(x) - y) == Wrap(x - y)
  {
    WrapAdd(x, -y);
    assert Wrap(x) - y == Wrap(x) + -y;
  }

  lemma WrapSame(x: int)
    requires IsInt64(x)
    ensures Wrap(x) == x
  {
  }

  lemma MedianIsOneOfThem(a: int, b: int, c: int)
    ensures Median(a, b, c) == a || Median(a, b, c) == b || Median(a, b, c) == c
  {
  }

  /**
   The sum behind the median leaves the 64-bit range already for two small negative clocks and an
   undefined last DTS; computed with wrap-around it still comes out right for all 64-bit inputs.
   */
  lemma MedianSurvivesWrap(p: int, d: int, next: int)
    requires IsInt64(p) && IsInt64(d) && IsInt64(next)
    ensures Wrap(Wrap(Wrap(Wrap(p + d) + next) - Min3(p, d, next)) - Max3(p, d, next)) == Median(p, d, next)
    ensures IsInt64(Median(p, d, next))
  {
    hide Wrap, Min3, Max3;
    var lo, hi := Min3(p, d, next), Max3(p, d, next);
    WrapAdd(p + d, next);
    WrapSub(p + d + next, lo);
    WrapSub(p + d + next - lo, hi);
    MedianIsOneOfThem(p, d, next);
    WrapSame(Median(p, d, next));
  }

  // ---------- the code ----------

  /** The repair that the audio and the video branch both carry out, on their own last DTS. */
  method Repair(strict: bool, last: Stamp, pkt: Packet) returns (r: Packet)
    ensures r == Settled(strict, last, pkt)
  {
    var pts: int, dts: int := pkt.pts, pkt.dts;
    if dts != NOPTS && pts != NOPTS && dts > pts {
      var median := pts + dts + last + 1 - Min3(pts, dts, last + 1) - Max3(pts, dts, last + 1);
      pts, dts := median, median;
    }
    if dts != NOPTS && last != NOPTS {
      var max := last + (if strict then 1 else 0);
      if dts < max {
        if pts >= dts {
          pts := Max(pts, max);
        }
        dts := max;
      }
    }
    r := pkt.(pts := pts, dts := dts);
  }

  predicate Rescales(pkt: Packet, tb: Rational, outTb: Rational) {
    && Positive(tb) && Positive(outTb)
    && (Defined(pkt.pts) ==> Defined(RescaleQ(pkt.pts, tb, outTb)))
    && (Defined(pkt.dts) ==> Defined(RescaleQ(pkt.dts, tb, outTb)))
  }

  /** av_packet_rescale_ts: undefined fields stay undefined. */
  function InTimeBase(pkt: Packet, tb: Rational, outTb: Rational): Packet
    requires Rescales(pkt, tb, outTb)
  {
    if SameRate(tb, outTb) then pkt
    else pkt.(pts := if Defined(pkt.pts) then RescaleQ(pkt.pts, tb, outTb) else pkt.pts,
              dts := if Defined(pkt.dts) then RescaleQ(pkt.dts, tb, outTb) else pkt.dts)
  }

  /** Each defined clock becomes the nearest tick of the output's base; undefined ones stay undefined. */
  lemma ClocksConverted(pkt: Packet, tb: Rational, outTb: Rational)
    requires Rescales(pkt, tb, outTb)
    ensures var r := InTimeBase(pkt, tb, outTb);
            && (if pkt.pts != NOPTS then Nearest(pkt.pts * (tb.num * outTb.den), tb.den * outTb.num, r.pts)
                else r.pts == NOPTS)
            && (if pkt.dts != NOPTS then Nearest(pkt.dts * (tb.num * outTb.den), tb.den * outTb.num, r.dts)
                else r.dts == NOPTS)
            && r.payload == pkt.payload
  {
    ConvertedClock(pkt.pts, tb, outTb);
    ConvertedClock(pkt.dts, tb, outTb);
  }

  lemma ConvertedClock(t: int, tb: Rational, outTb: Rational)
    requires Positive(tb) && Positive(outTb)
    ensures Nearest(t * (tb.num * outTb.den), tb.den * outTb.num, RescaleQ(t, tb, outTb))
    ensures SameRate(tb, outTb) ==> RescaleQ(t, tb, outTb) == t
  {
    MulPositive(tb.den, outTb.num);
    RoundIsNearest(t * (tb.num * outTb.den), tb.den * outTb.num);
    if SameRate(tb, outTb) {
      RescaleSameRate(t, tb, outTb);
    }
  }

  /** drop_ts once a packet with this PTS has been looked at. */
  function DropTs(drop: Stamp, pts: Stamp): Stamp {
    if drop == NOPTS then pts else drop
  }

  predicate Preroll(drop: Stamp, pts: Stamp) {
    pts != 0 && pts == DropTs(drop, pts)
  }

  class OutputCtx {
    const strict: bool
    var dropTs: Stamp
    var lastAudioDts: Stamp
    var lastVideoDts: Stamp

    /** Only streams with initial padding have preroll to drop. */
    constructor (strict: bool, initialPadding: bool)
      ensures this.strict == strict && lastAudioDts == lastVideoDts == NOPTS
      ensures dropTs == if initialPadding then NOPTS else 0
    {
      this.strict := strict;
      dropTs := if initialPadding then NOPTS else 0;
      lastAudioDts, lastVideoDts := NOPTS, NOPTS;
    }

    method Mux(pkt0: Packet, tb: Rational, kind: Kind, outTb: Rational) returns (written: Option<Packet>)
      requires Rescales(pkt0, tb, outTb)
      modifies this
      ensures kind != Audio ==> dropTs == old(dropTs) && lastAudioDts == old(lastAudioDts)
      ensures kind != Video ==> lastVideoDts == old(lastVideoDts)
      ensures var p := InTimeBase(pkt0, tb, outTb);
              match kind
              case Audio =>
                && dropTs == DropTs(old(dropTs), p.pts)
                && if Preroll(old(dropTs), p.pts) then written == None && lastAudioDts == old(lastAudioDts)
                   else written == Some(Settled(strict, old(lastAudioDts), p)) && lastAudioDts == written.value.dts
              case Video =>
                written == Some(Settled(strict, old(lastVideoDts), p)) && lastVideoDts == written.value.dts
              case Other => written == Some(p)
    {
      var pkt := pkt0;
      if !SameRate(tb, outTb) {
        pkt := InTimeBase(pkt, tb, outTb);
      }
      if kind == Audio {
        if dropTs == NOPTS {
          dropTs := pkt.pts;
        }
        if pkt.pts != 0 && pkt.pts == dropTs {
          return None;
        }
        pkt := Repair(strict, lastAudioDts, pkt);
        lastAudioDts := pkt.dts;
      }
      if kind == Video {
        pkt := Repair(strict, lastVideoDts, pkt);
        lastVideoDts := pkt.dts;
      }
      written := Some(pkt);
    }
  }

  // ---------- whole runs of one stream ----------

  /** Every packet has a DTS; some may lack a PTS. */
  predicate AllDated(ps: seq<Packet>) {
    forall i :: 0 <= i < |ps| ==> Defined(ps[i].dts)
  }

  /** The clock that bounds DTS from above: the smaller one, or DTS alone. */
  function Low(p: Packet): Stamp {
    if Defined(p.pts) then Min(p.pts, p.dts) else p.dts
  }

  /** A PTS that must not fall below a DTS; an undefined one stays so. */
  function Lifting(pts: Stamp, dts: Stamp): Stamp {
    if Defined(pts) then Max(pts, dts) else pts
  }

  predicate ClocksInOrder(p: Packet) {
    Defined(p.pts) ==> p.dts <= p.pts
  }

  /** The packets written for a run of packets of one stream. */
  function Run(strict: bool, last: Stamp, ps: seq<Packet>): (rs: seq<Packet>)
    ensures |rs| == |ps|
    decreases ps
  {
    if ps == [] then [] else
      var r := Settled(strict, last, ps[0]);
      [r] + Run(strict, r.dts, ps[1..])
  }

  function DtsOf(ps: seq<Packet>): (xs: seq<int>)
    ensures |xs| == |ps|
  {
    if ps == [] then [] else [ps[0].dts as int] + DtsOf(ps[1..])
  }

  function Lows(ps: seq<Packet>): (xs: seq<int>)
    ensures |xs| == |ps|
  {
    if ps == [] then [] else [Low(ps[0]) as int] + Lows(ps[1..])
  }

  lemma {:induction false} DtsAt(ps: seq<Packet>, i: nat)
    requires i < |ps|
    ensures DtsOf(ps)[i] == ps[i].dts
  {
    if i > 0 {
      DtsAt(ps[1..], i - 1);
    }
  }

  lemma {:induction false} LowsAt(ps: seq<Packet>, i: nat)
    requires i < |ps|
    ensures Lows(ps)[i] == Low(ps[i])
  {
    if i > 0 {
      LowsAt(ps[1..], i - 1);
    }
  }

  lemma {:induction false} RunAt(strict: bool, last: Stamp, ps: seq<Packet>, i: nat)
    requires i < |ps|
    ensures var rs := Run(strict, last, ps);
            rs[i] == Settled(strict, if i == 0 then last else rs[i - 1].dts, ps[i])
    decreases i
  {
    if i > 0 {
      RunAt(strict, Settled(strict, last, ps[0]).dts, ps[1..], i - 1);
    }
  }

  /** With a strict muxer the DTS written are the least climbing sequence above the lower clocks. */
  lemma {:induction false} StrictDts(last: Stamp, ps: seq<Packet>)
    requires AllDated(ps)
    ensures DtsOf(Run(true, last, ps)) == Lifted(last, Lows(ps))
    decreases ps
  {
    if ps != [] {
      var r := Settled(true, last, ps[0]);
      assert Defined(ps[0].dts);
      assert AllDated(ps[1..]);
      StrictDts(r.dts, ps[1..]);
      var rs := Run(true, last, ps);
      assert rs[1..] == Run(true, r.dts, ps[1..]);
      assert DtsOf(rs) == [rs[0].dts as int] + DtsOf(rs[1..]);
    }
  }

  /**
   The whole run of a strict muxer in closed form: DTS is the peak of the lower clocks, PTS the larger
   of the input PTS and that DTS.
   */
  lemma StrictRun(ps: seq<Packet>)
    requires AllDated(ps)
    ensures var rs := Run(true, NOPTS, ps);
            && Climbs(NOPTS, DtsOf(rs))
            && forall n :: 0 <= n < |rs| ==>
                 && IsPeak(Lows(ps), n, rs[n].dts)
                 && rs[n].pts == Lifting(ps[n].pts, rs[n].dts)
                 && rs[n].payload == ps[n].payload
  {
    var rs, lows := Run(true, NOPTS, ps), Lows(ps);
    StrictDts(NOPTS, ps);
    forall i | 0 <= i < |lows|
      ensures Defined(lows[i])
    {
      assert Defined(ps[i].dts);
      LowsAt(ps, i);
    }
    LiftedFromUndefined(lows);
    LiftedClimbs(NOPTS, lows);
    forall n | 0 <= n < |rs|
      ensures IsPeak(lows, n, rs[n].dts) && rs[n].pts == Lifting(ps[n].pts, rs[n].dts)
      ensures rs[n].payload == ps[n].payload
    {
      assert Defined(ps[n].dts);
      DtsAt(rs, n);
      RunAt(true, NOPTS, ps, n);
      assert IsPeak(lows, n, Lifted(NOPTS, lows)[n]);
    }
  }

  /** A packet without DTS is written as it is and starts the run afresh. */
  lemma {:induction false} RunRestarts(strict: bool, last: Stamp, ps: seq<Packet>, p: Packet, qs: seq<Packet>)
    requires !Defined(p.dts)
    ensures Run(strict, last, ps + [p] + qs) == Run(strict, last, ps) + [p] + Run(strict, NOPTS, qs)
    decreases ps
  {
    if ps == [] {
      assert ps + [p] + qs == [p] + qs;
    } else {
      assert (ps + [p] + qs)[1..] == ps[1..] + [p] + qs;
      RunRestarts(strict, Settled(strict, last, ps[0]).dts, ps[1..], p, qs);
    }
  }

  /** Input that a strict muxer accepts as it is. */
  predicate Acceptable(last: Stamp, ps: seq<Packet>) {
    && Climbs(last, DtsOf(ps))
    && forall i :: 0 <= i < |ps| ==> ClocksInOrder(ps[i])
  }

  lemma {:induction false} LowsAreDts(ps: seq<Packet>)
    requires forall i :: 0 <= i < |ps| ==> ClocksInOrder(ps[i])
    ensures Lows(ps) == DtsOf(ps)
  {
    if ps != [] {
      assert ClocksInOrder(ps[0]);
      LowsAreDts(ps[1..]);
    }
  }

  /** The repair rewrites a run exactly when the muxer would have refused some packet of it. */
  lemma UnchangedIff(last: Stamp, ps: seq<Packet>)
    requires AllDated(ps)
    ensures Run(true, last, ps) == ps <==> Acceptable(last, ps)
  {
    var rs := Run(true, last, ps);
    StrictDts(last, ps);
    LiftedClimbs(last, Lows(ps));
    forall i | 0 <= i < |ps|
      ensures ClocksInOrder(rs[i])
      ensures rs[i].pts == Lifting(ps[i].pts, rs[i].dts) && rs[i].payload == ps[i].payload
    {
      assert Defined(ps[i].dts);
      RunAt(true, last, ps, i);
    }
    if Acceptable(last, ps) {
      LowsAreDts(ps);
      LiftedSameIff(last, DtsOf(ps));
      forall i | 0 <= i < |ps|
        ensures rs[i] == ps[i]
      {
        assert ClocksInOrder(ps[i]);
        DtsAt(rs, i);
        DtsAt(ps, i);
      }
      assert rs == ps;
    }
  }

  /** A second pass over a strict muxer's output changes nothing. */
  lemma RunIsIdempotent(last: Stamp, ps: seq<Packet>)
    requires AllDated(ps)
    ensures var rs := Run(true, last, ps); AllDated(rs) && Run(true, last, rs) == rs
  {
    var rs := Run(true, last, ps);
    StrictDts(last, ps);
    LiftedClimbs(last, Lows(ps));
    forall i | 0 <= i < |rs|
      ensures Defined(rs[i].dts) && ClocksInOrder(rs[i])
    {
      assert Defined(ps[i].dts);
      RunAt(true, last, ps, i);
    }
    UnchangedIff(last, rs);
  }

  /** A muxer that takes equal DTS: they never fall, and never exceed PTS. */
  lemma NonStrictRun(last: Stamp, ps: seq<Packet>, i: nat)
    requires AllDated(ps) && i < |ps|
    ensures var rs := Run(false, last, ps);
            var before := if i == 0 then last else rs[i - 1].dts;
            && before <= rs[i].dts && ClocksInOrder(rs[i])
            && rs[i].pts == Lifting(ps[i].pts, rs[i].dts)
            && (before <= ps[i].dts && ClocksInOrder(ps[i]) ==> rs[i] == ps[i])
            && rs[i].payload == ps[i].payload
            && (ClocksInOrder(ps[i]) ==> rs[i].dts == Max(ps[i].dts, before))
            && (!ClocksInOrder(ps[i]) ==> rs[i].dts == Max(Max(ps[i].pts, before), Min(ps[i].dts, before + 1)))
  {
    assert Defined(ps[i].dts);
    RunAt(false, last, ps, i);
  }

  // ---------- preroll audio ----------

  /** The audio packets that are not dropped. */
  function Kept(drop: Stamp, ps: seq<Packet>): (rs: seq<Packet>)
    decreases ps
  {
    if ps == [] then [] else
      var rest := Kept(DropTs(drop, ps[0].pts), ps[1..]);
      if Preroll(drop, ps[0].pts) then rest else [ps[0]] + rest
  }

  function Filtered(ps: seq<Packet>, drop: Stamp): (rs: seq<Packet>) {
    if ps == [] then []
    else if ps[0].pts != 0 && ps[0].pts == drop then Filtered(ps[1..], drop)
    else [ps[0]] + Filtered(ps[1..], drop)
  }

  lemma {:induction false} KeptAfterFirst(drop: Stamp, ps: seq<Packet>)
    requires Defined(drop)
    ensures Kept(drop, ps) == Filtered(ps, drop)
    decreases ps
  {
    if ps != [] {
      KeptAfterFirst(drop, ps[1..]);
    }
  }

  /**
   What a stream with initial padding loses: every packet before the first one with a PTS, and every
   packet, at any later time too, whose PTS equals that first one, unless it is zero.
   */
  lemma {:induction false} KeptFromPadding(ps: seq<Packet>, k: nat)
    requires k <= |ps| && forall i :: 0 <= i < k ==> !Defined(ps[i].pts)
    requires k < |ps| ==> Defined(ps[k].pts)
    ensures Kept(NOPTS, ps) == if k < |ps| then Filtered(ps[k..], ps[k].pts) else []
    decreases k
  {
    if k > 0 {
      assert !Defined(ps[0].pts);
      KeptFromPadding(ps[1..], k - 1);
      assert ps[1..][k - 1..] == ps[k..];
    } else if ps != [] {
      KeptAfterFirst(ps[0].pts, ps[1..]);
      assert ps[0..] == ps;
    }
  }

  /** Without initial padding nothing is dropped. */
  lemma {:induction false} KeptWithoutPadding(ps: seq<Packet>)
    ensures Kept(0, ps) == ps
  {
    if ps != [] {
      KeptWithoutPadding(ps[1..]);
    }
  }

  /** What the muxer writes for a run of audio packets, call by call. */
  function AudioRun(strict: bool, drop: Stamp, last: Stamp, ps: seq<Packet>): (rs: seq<Packet>)
    decreases ps
  {
    if ps == [] then [] else
      var drop' := DropTs(drop, ps[0].pts);
      if Preroll(drop, ps[0].pts) then AudioRun(strict, drop', last, ps[1..]) else
        var r := Settled(strict, last, ps[0]);
        [r] + AudioRun(strict, drop', r.dts, ps[1..])
  }

  /** Dropping does not disturb the repair: it is the repair of the packets that are kept. */
  lemma {:induction false} AudioRunRepairsKept(strict: bool, drop: Stamp, last: Stamp, ps: seq<Packet>)
    ensures AudioRun(strict, drop, last, ps) == Run(strict, last, Kept(drop, ps))
    decreases ps
  {
    if ps != [] {
      var drop' := DropTs(drop, ps[0].pts);
      var rest := Kept(drop', ps[1..]);
      if Preroll(drop, ps[0].pts) {
        AudioRunRepairsKept(strict, drop', last, ps[1..]);
      } else {
        AudioRunRepairsKept(strict, drop', Settled(strict, last, ps[0]).dts, ps[1..]);
        assert ([ps[0]] + rest)[1..] == rest;
      }
    }
  }
}
