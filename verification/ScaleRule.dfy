/**
 The size rule handed to the scale filter: the larger requested side is kept unless the smaller one
 would then fall below the encoder's minimum, and the other side follows the input's aspect ratio.
 */
module ScaleRule {
  import opened Common
  import opened Rescale

  datatype CodecSize = CodecSize(widthMin: int, heightMin: int, widthMax: int, heightMax: int)

  const H264 := CodecSize(146, 50, 4096, 4096)
  const H265 := CodecSize(132, 40, 8192, 8192)

  /** What the size table yields for any other codec. */
  const UNLISTED := CodecSize(0, 0, 0, 0)

  function Clamp(val: int, min: int, max: int): (r: int)
    ensures min <= max ==> min <= r <= max
    ensures min <= val <= max ==> r == val
  {
    if val <= min then min else if val >= max then max else val
  }

  /** The larger requested side, after clamping both to the limits. */
  function LargerSide(l: CodecSize, w: int, h: int): int {
    Max(Clamp(w, l.widthMin, l.widthMax), Clamp(h, l.heightMin, l.heightMax))
  }

  /** Stands for a side that the filter derives from the other one. */
  const AUTO := -2

  /** trunc(x / 2) * 2 */
  function TruncEven(x: int): int {
    if x >= 0 then x / 2 * 2 else -(-x / 2 * 2)
  }

  /** The two expressions, with quotients compared exactly. */
  function WidthExpr(l: CodecSize, d: int, iw: int, ih: int): int {
    TruncEven(if iw >= ih then (if d * ih >= l.heightMin * iw then d else AUTO)
              else (if l.widthMin * ih >= d * iw then l.widthMin else AUTO))
  }

  function HeightExpr(l: CodecSize, d: int, iw: int, ih: int): int {
    TruncEven(if ih > iw then (if d * iw >= l.widthMin * ih then d else AUTO)
              else (if l.heightMin * iw >= d * ih then l.heightMin else AUTO))
  }

  /** The even number nearest to other * num / den. */
  function NearestEven(other: int, num: int, den: int): int
    requires den > 0
  {
    2 * Round(other * num, 2 * den)
  }

  datatype Size = Size(w: int, h: int)

  /** What the scale filter makes of the expressions: 0 keeps the input's side. */
  function OutputSize(l: CodecSize, d: int, iw: int, ih: int): Size
    requires iw > 0 && ih > 0
  {
    var w, h := WidthExpr(l, d, iw, ih), HeightExpr(l, d, iw, ih);
    if w == AUTO then Size(NearestEven(h, iw, ih), h)
    else if h == AUTO then Size(w, NearestEven(w, ih, iw))
    else Size(if w == 0 then iw else w, if h == 0 then ih else h)
  }

  predicate LimitsOk(l: CodecSize) {
    && 0 < l.widthMin <= l.widthMax && 0 < l.heightMin <= l.heightMax
    && l.widthMin % 2 == 0 && l.heightMin % 2 == 0
    && l.widthMax % 2 == 0 && l.widthMax == l.heightMax
  }

  lemma ListedLimits()
    ensures LimitsOk(H264) && LimitsOk(H265)
  {
  }

  predicate Even(x: int) {
    x % 2 == 0
  }

  // ---------- rounding to the nearest even number ----------

  lemma MulMono(a: int, b: int, c: int)
    requires a <= b && c >= 0
    ensures a * c <= b * c && c * a <= c * b
  {
  }

  /** The rounded value is at least an even bound once the exact one exceeds the bound less one. */
  lemma NearestEvenAtLeast(other: int, num: int, den: int, bound: int)
    requires den > 0 && bound > 0 && Even(bound)
    requires other * num > (bound - 1) * den
    ensures NearestEven(other, num, den) >= bound
  {
    var n, c, k := other * num, 2 * den, bound / 2;
    var q := Round(n, c);
    RoundIsNearest(n, c);
    MulMono(0, bound - 1, den);
    assert (bound - 1) * den == bound * den - den;
    assert k * c == bound * den by {
      assert bound == 2 * k;
      assert k * (2 * den) == 2 * k * den;
    }
    assert (k - 1) * c == k * c - c;
    if q < k {
      MulMono(q, k - 1, c);
    }
  }

  /** And it stays within an even bound exactly when the exact value is below the bound plus one. */
  lemma NearestEvenAtMostIff(other: int, num: int, den: int, bound: int)
    requires den > 0 && bound > 0 && Even(bound) && other * num >= 0
    ensures NearestEven(other, num, den) <= bound <==> other * num < (bound + 1) * den
  {
    var n, c, k := other * num, 2 * den, bound / 2;
    var q := Round(n, c);
    RoundIsNearest(n, c);
    assert (bound + 1) * den == bound * den + den;
    assert k * c == bound * den by {
      assert bound == 2 * k;
      assert k * (2 * den) == 2 * k * den;
    }
    if q > k {
      MulMono(k + 1, q, c);
      assert (k + 1) * c == k * c + c;
    } else {
      MulMono(q, k, c);
    }
  }

  // ---------- the rule ----------

  /** For positive input sizes and listed limits at least one side is explicit. */
  lemma NeverBothAuto(l: CodecSize, d: int, iw: int, ih: int)
    requires LimitsOk(l) && d >= Max(l.widthMin, l.heightMin)
    ensures WidthExpr(l, d, iw, ih) != AUTO || HeightExpr(l, d, iw, ih) != AUTO
  {
  }

  lemma LargerSideInLimits(l: CodecSize, w: int, h: int)
    requires LimitsOk(l)
    ensures var d := LargerSide(l, w, h); l.widthMin <= d <= l.widthMax && l.heightMin <= d <= l.heightMax
  {
  }

  predicate Fits(l: CodecSize, s: Size) {
    Even(s.w) && Even(s.h) && s.w >= l.widthMin && s.h >= l.heightMin
  }

  predicate DOk(l: CodecSize, d: int) {
    l.widthMin <= d && l.heightMin <= d
  }

  lemma TruncKeepsMin(d: int, min: int)
    requires min <= d && min > 0 && Even(min)
    ensures min <= TruncEven(d) <= d <= TruncEven(d) + 1 && Even(TruncEven(d))
  {
  }

  lemma TruncConstants(l: CodecSize)
    requires LimitsOk(l)
    ensures TruncEven(l.widthMin) == l.widthMin && TruncEven(l.heightMin) == l.heightMin && TruncEven(AUTO) == AUTO
  {
  }

  /** Keeping the larger side long, the shorter follows and is not below its minimum. */
  lemma FollowingSide(d: int, e: int, min: int, long: int, short: int)
    requires 0 < short <= long && min > 0 && Even(min)
    requires e <= d <= e + 1 && e >= 0 && d * short > min * long
    ensures NearestEven(e, short, long) >= min
  {
    assert e * short >= (d - 1) * short by {
      MulMono(d - 1, e, short);
    }
    assert (d - 1) * short == d * short - short;
    assert (min - 1) * long == min * long - long;
    NearestEvenAtLeast(e, short, long, min);
  }

  /** With the shorter side at its minimum, the longer one exceeds what was asked for. */
  lemma ExceedingSide(d: int, shortMin: int, longMin: int, long: int, short: int)
    requires 0 < short <= long && longMin > 0 && Even(longMin) && longMin <= d
    requires d * short < shortMin * long
    ensures NearestEven(shortMin, long, short) >= longMin
  {
    MulMono(longMin - 1, d, short);
    NearestEvenAtLeast(shortMin, long, short, longMin);
  }

  lemma LandscapeFits(l: CodecSize, d: int, iw: int, ih: int)
    requires LimitsOk(l) && DOk(l, d) && 0 < ih <= iw
    ensures Fits(l, OutputSize(l, d, iw, ih))
  {
    hide TruncEven, NearestEven;
    TruncKeepsMin(d, l.widthMin);
    TruncConstants(l);
    var e := TruncEven(d);
    if d * ih < l.heightMin * iw {
      ExceedingSide(d, l.heightMin, l.widthMin, iw, ih);
      EvenNearest(l.heightMin, iw, ih);
    } else if d * ih > l.heightMin * iw {
      FollowingSide(d, e, l.heightMin, iw, ih);
      EvenNearest(e, ih, iw);
    }
  }

  lemma EvenNearest(other: int, num: int, den: int)
    requires den > 0
    ensures Even(NearestEven(other, num, den))
  {
  }

  lemma PortraitFits(l: CodecSize, d: int, iw: int, ih: int)
    requires LimitsOk(l) && DOk(l, d) && 0 < iw < ih
    ensures Fits(l, OutputSize(l, d, iw, ih))
  {
    hide TruncEven, NearestEven;
    TruncKeepsMin(d, l.heightMin);
    TruncConstants(l);
    var e := TruncEven(d);
    if d * iw < l.widthMin * ih {
      ExceedingSide(d, l.widthMin, l.heightMin, ih, iw);
      EvenNearest(l.widthMin, ih, iw);
    } else if d * iw > l.widthMin * ih {
      FollowingSide(d, e, l.widthMin, ih, iw);
      EvenNearest(e, iw, ih);
    }
  }

  /**
   For every requested size and every positive input size, both sides come out even and at least the
   codec's minimum, although the larger side is rounded down to even first.
   */
  lemma SizeFits(l: CodecSize, w: int, h: int, iw: int, ih: int)
    requires l == H264 || l == H265
    requires iw > 0 && ih > 0
    ensures Fits(l, OutputSize(l, LargerSide(l, w, h), iw, ih))
  {
    ListedLimits();
    LargerSideInLimits(l, w, h);
    if iw >= ih {
      LandscapeFits(l, LargerSide(l, w, h), iw, ih);
    } else {
      PortraitFits(l, LargerSide(l, w, h), iw, ih);
    }
  }

  /** Proportional downscaling keeps both sides within the maximum. */
  lemma FollowingFits(d: int, e: int, bound: int, long: int, short: int)
    requires 0 < short <= long && 0 < e <= d <= bound && Even(bound)
    ensures NearestEven(e, short, long) <= bound
  {
    MulMono(short, long, e);
    MulMono(e, bound, long);
    MulMono(0, short, e);
    assert e * short <= bound * long < (bound + 1) * long by {
      assert (bound + 1) * long == bound * long + long;
    }
    NearestEvenAtMostIff(e, short, long, bound);
  }

  /**
   The longer output side is the larger requested one, rounded down to even, unless the shorter one
   would then fall below its minimum; in that case the shorter one is put at its minimum.
   */
  lemma LongerSideIs(l: CodecSize, w: int, h: int, iw: int, ih: int)
    requires l == H264 || l == H265
    requires iw > 0 && ih > 0
    ensures var cw, ch := Clamp(w, l.widthMin, l.widthMax), Clamp(h, l.heightMin, l.heightMax);
            var d, s := if cw >= ch then cw else ch, OutputSize(l, LargerSide(l, w, h), iw, ih);
            if iw >= ih then (if d * ih >= l.heightMin * iw then s.w == d / 2 * 2 else s.h == l.heightMin)
            else (if d * iw >= l.widthMin * ih then s.h == d / 2 * 2 else s.w == l.widthMin)
  {
    ListedLimits();
    LargerSideInLimits(l, w, h);
    TruncConstants(l);
  }

  predicate WithinMaximum(l: CodecSize, s: Size) {
    s.w <= l.widthMax && s.h <= l.heightMax
  }

  /** The longer side, computed from the shorter one at its minimum, is within the maximum. */
  lemma LongSideIff(min: int, long: int, short: int, bound: int)
    requires 0 < short <= long && 0 < min && 0 < bound && Even(bound)
    ensures NearestEven(min, long, short) <= bound <==> min * long < (bound + 1) * short
  {
    MulMono(0, min, long);
    NearestEvenAtMostIff(min, long, short, bound);
  }

  /** Where the larger side is kept, the skew is small enough. */
  lemma KeptMeansBounded(d: int, min: int, long: int, short: int, bound: int)
    requires 0 < short && d <= bound && d * short >= min * long
    ensures min * long < (bound + 1) * short
  {
    MulMono(d, bound, short);
    assert (bound + 1) * short == bound * short + short;
  }

  lemma LandscapeMaximumIff(l: CodecSize, d: int, iw: int, ih: int)
    requires LimitsOk(l) && DOk(l, d) && d <= l.widthMax && 0 < ih <= iw
    ensures WithinMaximum(l, OutputSize(l, d, iw, ih)) <==> l.heightMin * iw < (l.widthMax + 1) * ih
  {
    hide TruncEven, NearestEven;
    TruncKeepsMin(d, l.widthMin);
    TruncConstants(l);
    var e := TruncEven(d);
    if d * ih < l.heightMin * iw {
      LongSideIff(l.heightMin, iw, ih, l.widthMax);
    } else {
      KeptMeansBounded(d, l.heightMin, iw, ih, l.widthMax);
      FollowingFits(d, e, l.widthMax, iw, ih);
    }
  }

  lemma PortraitMaximumIff(l: CodecSize, d: int, iw: int, ih: int)
    requires LimitsOk(l) && DOk(l, d) && d <= l.widthMax && 0 < iw < ih
    ensures WithinMaximum(l, OutputSize(l, d, iw, ih)) <==> l.widthMin * ih < (l.heightMax + 1) * iw
  {
    hide TruncEven, NearestEven;
    TruncKeepsMin(d, l.heightMin);
    TruncConstants(l);
    var e := TruncEven(d);
    if d * iw < l.widthMin * ih {
      LongSideIff(l.widthMin, ih, iw, l.heightMax);
    } else {
      KeptMeansBounded(d, l.widthMin, ih, iw, l.heightMax);
      FollowingFits(d, e, l.heightMax, ih, iw);
    }
  }

  /**
   The maximum is passed exactly by inputs so long that the shorter side, put at its minimum, takes the
   longer one to the maximum plus one; the requested size does not matter.
   */
  lemma MaximumIff(l: CodecSize, w: int, h: int, iw: int, ih: int)
    requires l == H264 || l == H265
    requires iw > 0 && ih > 0
    ensures WithinMaximum(l, OutputSize(l, LargerSide(l, w, h), iw, ih)) <==>
              if iw >= ih then l.heightMin * iw < (l.widthMax + 1) * ih
              else l.widthMin * ih < (l.heightMax + 1) * iw
  {
    ListedLimits();
    LargerSideInLimits(l, w, h);
    if iw >= ih {
      LandscapeMaximumIff(l, LargerSide(l, w, h), iw, ih);
    } else {
      PortraitMaximumIff(l, LargerSide(l, w, h), iw, ih);
    }
  }

  /** A 4000x16 input leaves the H264 limits, whatever size is requested. */
  lemma LongInputPassesMaximum(w: int, h: int)
    ensures !WithinMaximum(H264, OutputSize(H264, LargerSide(H264, w, h), 4000, 16))
  {
    MaximumIff(H264, w, h, 4000, 16);
  }

  /** The derived side is off the input's aspect ratio by at most one pixel. */
  lemma AspectKept(l: CodecSize, d: int, iw: int, ih: int)
    requires iw > 0 && ih > 0
    requires WidthExpr(l, d, iw, ih) == AUTO || HeightExpr(l, d, iw, ih) == AUTO
    ensures var s := OutputSize(l, d, iw, ih);
            var off := s.w * ih - s.h * iw;
            if WidthExpr(l, d, iw, ih) == AUTO then -ih <= off <= ih else -iw <= off <= iw
  {
    var w, h := WidthExpr(l, d, iw, ih), HeightExpr(l, d, iw, ih);
    if w == AUTO {
      NearestEvenIsNear(h, iw, ih);
    } else {
      NearestEvenIsNear(w, ih, iw);
    }
  }

  /** So is every output size: the two sides differ from the input's ratio by at most the longer input side. */
  lemma AspectWithinOne(l: CodecSize, w: int, h: int, iw: int, ih: int)
    requires l == H264 || l == H265
    requires iw > 0 && ih > 0
    ensures var s := OutputSize(l, LargerSide(l, w, h), iw, ih);
            -Max(iw, ih) <= s.w * ih - s.h * iw <= Max(iw, ih)
  {
    ListedLimits();
    LargerSideInLimits(l, w, h);
    TruncConstants(l);
    var d := LargerSide(l, w, h);
    if WidthExpr(l, d, iw, ih) == AUTO || HeightExpr(l, d, iw, ih) == AUTO {
      AspectKept(l, d, iw, ih);
    } else {
      BothExplicit(l, d, iw, ih);
    }
  }

  lemma BothExplicit(l: CodecSize, d: int, iw: int, ih: int)
    requires LimitsOk(l) && DOk(l, d) && iw > 0 && ih > 0
    requires WidthExpr(l, d, iw, ih) != AUTO && HeightExpr(l, d, iw, ih) != AUTO
    ensures var s := OutputSize(l, d, iw, ih); -Max(iw, ih) <= s.w * ih - s.h * iw <= Max(iw, ih)
  {
    TruncKeepsMin(d, l.widthMin);
    TruncConstants(l);
    var e := TruncEven(d);
    hide TruncEven;
    MulMono(e, d, ih);
    MulMono(d - 1, e, ih);
    MulMono(e, d, iw);
    MulMono(d - 1, e, iw);
    assert (d - 1) * ih == d * ih - ih && (d - 1) * iw == d * iw - iw;
  }

  lemma NearestEvenIsNear(other: int, num: int, den: int)
    requires den > 0
    ensures -den <= NearestEven(other, num, den) * den - other * num <= den
  {
    var q := Round(other * num, 2 * den);
    RoundIsNearest(other * num, 2 * den);
    assert q * (2 * den) == 2 * q * den;
  }

  /** A codec outside the table gets zero for both sides, which means the input's own size. */
  lemma UnlistedKeepsInput(w: int, h: int, iw: int, ih: int)
    requires iw > 0 && ih > 0
    ensures OutputSize(UNLISTED, LargerSide(UNLISTED, w, h), iw, ih) == Size(iw, ih)
  {
    assert LargerSide(UNLISTED, w, h) == 0;
  }
}
