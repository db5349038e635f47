/**
 The in-place rewrite: collecting the video payload ranges of a transport stream, gathering the
 elementary stream from them, and writing the reordered bytes back into the same ranges.
 */
module SeiRewrite {
  import opened AnnexB
  import opened Reframing
  import opened SeiOrder
  import opened SeiFixup

  // ---------- payload ranges ----------

  datatype Range = Range(start: int, end: int)

  predicate RangeOk(r: Range, n: nat) {
    0 <= r.start < r.end <= n
  }

  predicate RangesOk(ranges: seq<Range>, n: nat) {
    forall k :: 0 <= k < |ranges| ==> RangeOk(ranges[k], n)
  }

  /** Each range ends before the next one begins. */
  predicate InOrder(ranges: seq<Range>) {
    forall i, j :: 0 <= i < j < |ranges| ==> ranges[i].end <= ranges[j].start
  }

  predicate Covers(ranges: seq<Range>, i: int) {
    exists k :: 0 <= k < |ranges| && ranges[k].start <= i < ranges[k].end
  }

  /** The elementary stream: the bytes of all ranges, in order. */
  function Gather(b: seq<Byte>, ranges: seq<Range>): (es: seq<Byte>)
    requires RangesOk(ranges, |b|)
  {
    if ranges == [] then [] else
      var front, r := ranges[..|ranges| - 1], ranges[|ranges| - 1];
      Gather(b, front) + b[r.start..r.end]
  }

  function Overwrite(b: seq<Byte>, at: nat, data: seq<Byte>): (r: seq<Byte>)
    requires at + |data| <= |b|
    ensures |r| == |b|
  {
    b[..at] + data + b[at + |data|..]
  }

  /** data cut up over the ranges, in order. */
  function Scatter(b: seq<Byte>, ranges: seq<Range>, data: seq<Byte>): (r: seq<Byte>)
    requires RangesOk(ranges, |b|) && |data| == |Gather(b, ranges)|
    ensures |r| == |b|
  {
    if ranges == [] then b else
      var front, r := ranges[..|ranges| - 1], ranges[|ranges| - 1];
      var m := |data| - (r.end - r.start);
      Overwrite(Scatter(b, front, data[..m]), r.start, data[m..])
  }

  lemma OverwriteOutside(b: seq<Byte>, at: nat, data: seq<Byte>, i: nat)
    requires at + |data| <= |b| && i < |b| && !(at <= i < at + |data|)
    ensures Overwrite(b, at, data)[i] == b[i]
  {
  }

  lemma UncoveredFront(ranges: seq<Range>, i: int)
    requires ranges != [] && !Covers(ranges, i)
    ensures !Covers(ranges[..|ranges| - 1], i)
    ensures var r := ranges[|ranges| - 1]; !(r.start <= i < r.end)
  {
    var front := ranges[..|ranges| - 1];
    assert forall k :: 0 <= k < |front| ==> front[k] == ranges[k];
  }

  /** Only bytes inside the ranges change. */
  lemma {:induction false} ScatterOutside(b: seq<Byte>, ranges: seq<Range>, data: seq<Byte>, i: nat)
    requires RangesOk(ranges, |b|) && |data| == |Gather(b, ranges)|
    requires i < |b| && !Covers(ranges, i)
    ensures Scatter(b, ranges, data)[i] == b[i]
    decreases |ranges|
  {
    if ranges != [] {
      var front, r := ranges[..|ranges| - 1], ranges[|ranges| - 1];
      var m := |data| - (r.end - r.start);
      ScatterLast(b, ranges, data);
      UncoveredFront(ranges, i);
      hide Scatter, Gather, Covers, Overwrite;
      ScatterOutside(b, front, data[..m], i);
      OverwriteOutside(Scatter(b, front, data[..m]), r.start, data[m..], i);
    }
  }

  lemma OverwriteParts(b: seq<Byte>, at: nat, data: seq<Byte>)
    requires at + |data| <= |b|
    ensures Overwrite(b, at, data)[..at] == b[..at]
    ensures Overwrite(b, at, data)[at..at + |data|] == data
  {
  }

  /** Gathering again yields what was scattered. */
  lemma {:induction false} GatherScatter(b: seq<Byte>, ranges: seq<Range>, data: seq<Byte>)
    requires RangesOk(ranges, |b|) && InOrder(ranges) && |data| == |Gather(b, ranges)|
    ensures Gather(Scatter(b, ranges, data), ranges) == data
    decreases |ranges|
  {
    if ranges != [] {
      var front, r := ranges[..|ranges| - 1], ranges[|ranges| - 1];
      var m := |data| - (r.end - r.start);
      var before := Scatter(b, front, data[..m]);
      GatherScatter(b, front, data[..m]);
      OverwriteParts(before, r.start, data[m..]);
      GatherBelow(before, Scatter(b, ranges, data), front, r.start);
      SplitAt(data, m);
    }
  }

  lemma SplitAt<T>(s: seq<T>, m: nat)
    requires m <= |s|
    ensures s == s[..m] + s[m..]
  {
  }

  lemma {:induction false} GatherBelow(b: seq<Byte>, c: seq<Byte>, ranges: seq<Range>, n: nat)
    requires |b| == |c| && RangesOk(ranges, |b|) && n <= |b| && b[..n] == c[..n]
    requires forall k :: 0 <= k < |ranges| ==> ranges[k].end <= n
    ensures Gather(b, ranges) == Gather(c, ranges)
    decreases |ranges|
  {
    if ranges != [] {
      GatherBelow(b, c, ranges[..|ranges| - 1], n);
      var r := ranges[|ranges| - 1];
      assert b[r.start..r.end] == b[..n][r.start..r.end];
      assert c[r.start..r.end] == c[..n][r.start..r.end];
    }
  }

  // ---------- the rewrite ----------

  /** When the rewrite changes anything: sound ranges, a late SEI, and no gap between units. */
  predicate Rewrites(b: seq<Byte>, ranges: seq<Range>) {
    && RangesOk(ranges, |b|)
    && var nals := Scan(Gather(b, ranges), 0);
       nals != [] && Late(nals, false) && Tiled(nals)
  }

  function Rewritten(b: seq<Byte>, ranges: seq<Range>): (r: seq<Byte>)
    ensures |r| == |b|
  {
    if Rewrites(b, ranges) then
      LengthGuard(Gather(b, ranges));
      Scatter(b, ranges, Fixed(Gather(b, ranges)))
    else b
  }

  /** What the segment closure appends for one access unit. */
  method AppendSegment(es: seq<Byte>, seg: seq<Nal>, base: seq<Byte>, changedBefore: bool)
    returns (reordered: seq<Byte>, changed: bool)
    requires AllValid(es, seg)
    ensures AllValid(es, Arrange(seg)) && reordered == base + Bytes(es, Arrange(seg))
    ensures changed == (changedBefore || Misplaced(seg))
  {
    ArrangeKeepsAll(seg);
    SameUnitsValid(es, seg, Arrange(seg));
    var firstVCL := FindFirstPicture(seg);
    var misplacedSEI := HasSeiAfter(seg, firstVCL);
    if !misplacedSEI {
      KeepsOrderedUnits(seg);
      reordered := AppendUnits(es, seg, base);
      changed := changedBefore;
    } else {
      reordered := AppendMoved(es, seg, firstVCL, base);
      changed := true;
    }
  }

  method HasSeiAfter(seg: seq<Nal>, f: nat) returns (found: bool)
    ensures found <==> exists i :: f < i < |seg| && seg[i].typ == SEI
  {
    for i := f + 1 to if f < |seg| then |seg| else f + 1
      invariant forall k :: f < k < i ==> k < |seg| && seg[k].typ != SEI
    {
      if seg[i].typ == SEI {
        return true;
      }
    }
    return false;
  }

  method AppendMoved(es: seq<Byte>, seg: seq<Nal>, f: nat, base: seq<Byte>) returns (reordered: seq<Byte>)
    requires f == FirstPicture(seg) && Within(seg, |es|)
    ensures Within(Arrange(seg), |es|) && reordered == base + Bytes(es, Arrange(seg))
  {
    reordered := AppendUnits(es, seg[..f], base);
    reordered := AppendKind(es, seg[f..], true, reordered);
    reordered := AppendKind(es, seg[f..], false, reordered);
    MovedBytes(es, seg[..f], OnlySei(seg[f..]), NoSei(seg[f..]), base);
  }

  lemma MovedBytes(es: seq<Byte>, a: seq<Nal>, b: seq<Nal>, c: seq<Nal>, base: seq<Byte>)
    requires Within(a, |es|) && Within(b, |es|) && Within(c, |es|)
    ensures Within(a + b + c, |es|)
    ensures base + Bytes(es, a) + Bytes(es, b) + Bytes(es, c) == base + Bytes(es, a + b + c)
  {
    BytesConcat(es, a, b);
    BytesConcat(es, a + b, c);
    Regroup(base, Bytes(es, a), Bytes(es, b));
    Regroup(base, Bytes(es, a) + Bytes(es, b), Bytes(es, c));
  }

  method FindFirstPicture(seg: seq<Nal>) returns (f: nat)
    ensures f == FirstPicture(seg)
  {
    f := 0;
    while f < |seg| && !IsPicture(seg[f].typ)
      invariant f <= |seg| && forall k :: 0 <= k < f ==> !IsPicture(seg[k].typ)
    {
      f := f + 1;
    }
    FirstPictureIs(seg, f);
  }

  lemma FirstPictureIs(seg: seq<Nal>, f: nat)
    requires f <= |seg| && forall k :: 0 <= k < f ==> !IsPicture(seg[k].typ)
    requires f < |seg| ==> IsPicture(seg[f].typ)
    ensures FirstPicture(seg) == f
  {
    if FirstPicture(seg) < |seg| {
      assert IsPicture(seg[FirstPicture(seg)].typ);
    }
  }

  method AppendUnits(es: seq<Byte>, ns: seq<Nal>, base: seq<Byte>) returns (out: seq<Byte>)
    requires Within(ns, |es|)
    ensures out == base + Bytes(es, ns)
  {
    out := base;
    for i := 0 to |ns|
      invariant out == base + Bytes(es, ns[..i])
    {
      assert ns[..i + 1][..i] == ns[..i];
      out := out + es[ns[i].start..ns[i].end];
    }
    assert ns[..|ns|] == ns;
  }

  function Kind(ns: seq<Nal>, sei: bool): (r: seq<Nal>) {
    if sei then OnlySei(ns) else NoSei(ns)
  }

  lemma KindSnoc(ns: seq<Nal>, n: Nal, sei: bool)
    ensures Kind(ns + [n], sei) == if (n.typ == SEI) == sei then Kind(ns, sei) + [n] else Kind(ns, sei)
  {
    assert (ns + [n])[..|ns|] == ns;
  }

  lemma KindStep(es: seq<Byte>, ns: seq<Nal>, i: nat, sei: bool)
    requires Within(ns, |es|) && i < |ns| && Within(Kind(ns[..i], sei), |es|)
    ensures Within(Kind(ns[..i + 1], sei), |es|)
    ensures Bytes(es, Kind(ns[..i + 1], sei)) ==
            Bytes(es, Kind(ns[..i], sei)) + (if (ns[i].typ == SEI) == sei then es[ns[i].start..ns[i].end] else [])
  {
    hide Kind, Bytes;
    var kept := Kind(ns[..i], sei);
    KindSnoc(ns[..i], ns[i], sei);
    assert ns[..i + 1] == ns[..i] + [ns[i]];
    BytesSnoc(es, kept, ns[i]);
  }

  lemma KindNone(es: seq<Byte>, ns: seq<Nal>, sei: bool)
    ensures Within(Kind(ns[..0], sei), |es|) && Bytes(es, Kind(ns[..0], sei)) == []
  {
  }

  lemma WithinAt(ns: seq<Nal>, n: nat, i: nat)
    requires Within(ns, n) && i < |ns|
    ensures ns[i].start <= ns[i].end <= n
  {
  }

  /** Appends the SEI units of ns, or all the others. */
  method AppendKind(es: seq<Byte>, ns: seq<Nal>, sei: bool, base: seq<Byte>) returns (out: seq<Byte>)
    requires Within(ns, |es|)
    ensures Within(Kind(ns, sei), |es|) && out == base + Bytes(es, Kind(ns, sei))
  {
    hide Bytes, Kind, Within;
    KindNone(es, ns, sei);
    out := base;
    for i := 0 to |ns|
      invariant Within(Kind(ns[..i], sei), |es|) && out == base + Bytes(es, Kind(ns[..i], sei))
    {
      KindStep(es, ns, i, sei);
      WithinAt(ns, |es|, i);
      if (ns[i].typ == SEI) == sei {
        out := out + es[ns[i].start..ns[i].end];
      }
    }
    assert ns[..|ns|] == ns;
  }

  /** fixPES: orig and result may be, and in the program are, the same buffer. */
  method FixPES(orig: array<Byte>, result: array<Byte>, ranges: seq<Range>) returns (fixedIt: bool)
    requires orig.Length == result.Length && orig[..] == result[..]
    modifies result
    ensures fixedIt == Rewrites(old(orig[..]), ranges)
    ensures result[..] == Rewritten(old(orig[..]), ranges)
  {
    var es: seq<Byte> := [];
    ghost var b := orig[..];
    for k := 0 to |ranges|
      invariant RangesOk(ranges[..k], |b|) && es == Gather(b, ranges[..k])
    {
      var r := ranges[k];
      if r.end <= r.start || r.start < 0 || r.end > orig.Length {
        assert !RangeOk(ranges[k], |b|);
        return false;
      }
      assert ranges[..k + 1][..k] == ranges[..k];
      es := es + orig[r.start..r.end];
    }
    assert ranges[..|ranges|] == ranges;
    var nals := ScanNALs(es);
    if |nals| == 0 {
      return false;
    }
    var reordered, changed := Reorder(es, nals);
    LengthGuard(es);
    if !changed || |reordered| != |es| {
      return false;
    }
    WriteBack(result, ranges, reordered);
    return true;
  }

  method Reorder(es: seq<Byte>, nals: seq<Nal>) returns (reordered: seq<Byte>, changed: bool)
    requires nals == Scan(es, 0) != []
    ensures reordered == Fixed(es) && changed == Late(nals, false)
  {
    hide Scan, Late, Arranged, Arrange, Misplaced, NextCode, IsCode, NoCode, CodeLen;
    ScanValid(es, 0);
    ArrangedValid(es);
    ghost var all := Bytes(es, Arranged(nals));
    var lead := es[..nals[0].start];
    reordered, changed := lead, false;
    var segStart := 0;
    assert nals[0..] == nals;
    for i := 0 to |nals| + 1
      invariant segStart <= |nals| && (segStart == |nals| <==> i == |nals| + 1) && segStart <= i
      invariant forall k :: segStart < k < i ==> k < |nals| && nals[k].typ != DELIMITER
      invariant AllValid(es, Arranged(nals[segStart..]))
      invariant lead + all == reordered + Bytes(es, Arranged(nals[segStart..]))
      invariant Late(nals, false) == (changed || Late(nals[segStart..], false))
    {
      if i == |nals| || (i > segStart && nals[i].typ == DELIMITER) {
        CutStep(es, nals, segStart, i);
        Regroup(reordered, Bytes(es, Arrange(nals[segStart..i])), Bytes(es, Arranged(nals[i..])));
        reordered, changed := AppendSegment(es, nals[segStart..i], reordered, changed);
        segStart := i;
      }
    }
    ArrangedEmpty(es, nals[segStart..]);
  }

  lemma CutStep(es: seq<Byte>, nals: seq<Nal>, s: nat, i: nat)
    requires s < i <= |nals| && AllValid(es, nals) && AllValid(es, Arranged(nals[s..]))
    requires i < |nals| ==> nals[i].typ == DELIMITER
    requires forall k :: s < k < i ==> nals[k].typ != DELIMITER
    ensures AllValid(es, nals[s..i])
    ensures AllValid(es, Arrange(nals[s..i])) && AllValid(es, Arranged(nals[i..]))
    ensures Bytes(es, Arranged(nals[s..])) == Bytes(es, Arrange(nals[s..i])) + Bytes(es, Arranged(nals[i..]))
    ensures Late(nals[s..], false) == (Misplaced(nals[s..i]) || Late(nals[i..], false))
  {
    hide ValidNal, Late, Arrange, Arranged, Misplaced;
    var rest := nals[s..];
    CutIs(rest, i - s);
    assert rest[..i - s] == nals[s..i] && rest[i - s..] == nals[i..];
    ArrangedCut(es, rest);
    CutLate(rest);
  }

  lemma ArrangedEmpty(es: seq<Byte>, nals: seq<Nal>)
    requires nals == []
    ensures Arranged(nals) == [] && Bytes(es, Arranged(nals)) == [] && !Late(nals, false)
  {
  }

  lemma ArrangedCut(es: seq<Byte>, nals: seq<Nal>)
    requires nals != [] && AllValid(es, Arranged(nals))
    ensures var k := CutAt(nals);
            && AllValid(es, Arrange(nals[..k])) && AllValid(es, Arranged(nals[k..]))
            && Bytes(es, Arranged(nals)) == Bytes(es, Arrange(nals[..k])) + Bytes(es, Arranged(nals[k..]))
  {
    hide IsCode, NoCode, Arrange, CutFrom;
    var k := CutAt(nals);
    var a, b := Arrange(nals[..k]), Arranged(nals[k..]);
    assert Arranged(nals) == a + b;
    AllValidParts(es, a, b);
    BytesConcat(es, a, b);
  }

  lemma AllValidParts(es: seq<Byte>, a: seq<Nal>, b: seq<Nal>)
    requires AllValid(es, a + b)
    ensures AllValid(es, a) && AllValid(es, b)
  {
    hide ValidNal;
    assert forall j :: 0 <= j < |a| ==> (a + b)[j] == a[j];
    assert forall j :: 0 <= j < |b| ==> (a + b)[|a| + j] == b[j];
  }

  lemma ScatterNothing(b: seq<Byte>)
    ensures Gather(b, []) == [] && Scatter(b, [], []) == b
  {
  }

  method WriteBack(result: array<Byte>, ranges: seq<Range>, reordered: seq<Byte>)
    requires RangesOk(ranges, result.Length) && |reordered| == |Gather(result[..], ranges)|
    modifies result
    ensures result[..] == Scatter(old(result[..]), ranges, reordered)
  {
    hide Overwrite, Scatter, Gather;
    ghost var b := result[..];
    var pos := 0;
    ScatterNothing(b);
    assert ranges[..|ranges|] == ranges;
    for k := 0 to |ranges|
      invariant pos == |Gather(b, ranges[..k])| <= |reordered|
      invariant result[..] == Scatter(b, ranges[..k], reordered[..pos])
    {
      var n := ranges[k].end - ranges[k].start;
      ScatterStep(b, ranges, k, reordered, pos);
      Copy(result, ranges[k].start, reordered[pos..pos + n]);
      pos := pos + n;
    }
    assert reordered[..pos] == reordered;
  }

  lemma {:induction false} GatherPrefix(b: seq<Byte>, ranges: seq<Range>, k: nat)
    requires RangesOk(ranges, |b|) && k <= |ranges|
    ensures |Gather(b, ranges[..k])| <= |Gather(b, ranges)|
    decreases |ranges|
  {
    if k < |ranges| {
      var front := ranges[..|ranges| - 1];
      assert front[..k] == ranges[..k];
      GatherPrefix(b, front, k);
    } else {
      assert ranges[..k] == ranges;
    }
  }

  lemma ScatterStep(b: seq<Byte>, ranges: seq<Range>, k: nat, data: seq<Byte>, pos: nat)
    requires RangesOk(ranges, |b|) && |data| == |Gather(b, ranges)| && k < |ranges|
    requires pos == |Gather(b, ranges[..k])| <= |data|
    ensures var r := ranges[k];
            var next := pos + r.end - r.start;
            && next == |Gather(b, ranges[..k + 1])| <= |data|
            && Scatter(b, ranges[..k + 1], data[..next]) ==
               Overwrite(Scatter(b, ranges[..k], data[..pos]), r.start, data[pos..next])
  {
    hide Overwrite, Scatter, Gather;
    var r := ranges[k];
    var next := pos + r.end - r.start;
    var upTo := ranges[..k + 1];
    assert upTo[..|upTo| - 1] == ranges[..k] && upTo[|upTo| - 1] == r;
    GatherLast(b, upTo);
    GatherPrefix(b, ranges, k + 1);
    PrefixParts(data, pos, next);
    ScatterLast(b, upTo, data[..next]);
  }

  lemma GatherLast(b: seq<Byte>, ranges: seq<Range>)
    requires ranges != [] && RangesOk(ranges, |b|)
    ensures var front, r := ranges[..|ranges| - 1], ranges[|ranges| - 1];
            RangesOk(front, |b|) && |Gather(b, ranges)| == |Gather(b, front)| + (r.end - r.start)
  {
  }

  lemma ScatterLast(b: seq<Byte>, ranges: seq<Range>, data: seq<Byte>)
    requires ranges != [] && RangesOk(ranges, |b|) && |data| == |Gather(b, ranges)|
    ensures var front, r := ranges[..|ranges| - 1], ranges[|ranges| - 1];
            var m := |data| - (r.end - r.start);
            && m == |Gather(b, front)|
            && Scatter(b, ranges, data) == Overwrite(Scatter(b, front, data[..m]), r.start, data[m..])
  {
  }

  lemma PrefixParts<T>(s: seq<T>, a: nat, b: nat)
    requires a <= b <= |s|
    ensures s[..b][..a] == s[..a] && s[..b][a..] == s[a..b]
  {
  }

  method Copy(dst: array<Byte>, at: nat, src: seq<Byte>)
    requires at + |src| <= dst.Length
    modifies dst
    ensures dst[..] == Overwrite(old(dst[..]), at, src)
  {
    for i := 0 to |src|
      invariant forall j :: 0 <= j < i ==> dst[at + j] == src[j]
      invariant forall j :: 0 <= j < dst.Length && !(at <= j < at + i) ==> dst[j] == old(dst[j])
    {
      dst[at + i] := src[i];
    }
  }

  // ---------- what the rewrite keeps ----------

  lemma {:induction false} SplitBytes(es: seq<Byte>, ns: seq<Nal>)
    requires Within(ns, |es|)
    ensures Within(OnlySei(ns), |es|) && Within(NoSei(ns), |es|)
    ensures multiset(Bytes(es, OnlySei(ns))) + multiset(Bytes(es, NoSei(ns))) == multiset(Bytes(es, ns))
  {
    if ns != [] {
      var front, last := ns[..|ns| - 1], ns[|ns| - 1];
      SplitBytes(es, front);
      assert ns[..|ns| - 1 + 1] == ns;
      KindStep(es, ns, |ns| - 1, true);
      KindStep(es, ns, |ns| - 1, false);
    }
  }

  lemma {:induction false} ArrangedBytes(es: seq<Byte>, nals: seq<Nal>)
    requires AllValid(es, nals)
    ensures AllValid(es, Arranged(nals)) && multiset(Bytes(es, Arranged(nals))) == multiset(Bytes(es, nals))
    decreases |nals|
  {
    hide IsCode, NoCode, CodeLen, NoSei, OnlySei, Arrange;
    ArrangedKeepsAll(nals);
    SameUnitsValid(es, nals, Arranged(nals));
    if nals != [] {
      var k := CutAt(nals);
      assert nals == nals[..k] + nals[k..];
      ArrangeBytes(es, nals[..k]);
      ArrangedBytes(es, nals[k..]);
      ArrangedCut(es, nals);
      BytesConcat(es, nals[..k], nals[k..]);
    }
  }

  lemma ArrangeIs(seg: seq<Nal>)
    ensures var f := FirstPicture(seg);
            f <= |seg| && Arrange(seg) == seg[..f] + OnlySei(seg[f..]) + NoSei(seg[f..])
  {
  }

  lemma WithinParts(ns: seq<Nal>, n: nat, k: nat)
    requires Within(ns, n) && k <= |ns|
    ensures Within(ns[..k], n) && Within(ns[k..], n)
  {
  }

  lemma ArrangeBytes(es: seq<Byte>, seg: seq<Nal>)
    requires Within(seg, |es|)
    ensures Within(Arrange(seg), |es|) && multiset(Bytes(es, Arrange(seg))) == multiset(Bytes(es, seg))
  {
    hide OnlySei, NoSei, Bytes, FirstPicture, Arrange;
    var f := FirstPicture(seg);
    ArrangeIs(seg);
    WithinParts(seg, |es|, f);
    var head, tail := seg[..f], seg[f..];
    assert seg == head + tail;
    SplitBytes(es, tail);
    BytesConcat(es, head, tail);
    BytesConcat(es, head, OnlySei(tail));
    BytesConcat(es, head + OnlySei(tail), NoSei(tail));
  }

  lemma {:induction false} TiledBytes(es: seq<Byte>, nals: seq<Nal>)
    requires nals != [] && Within(nals, |es|) && Ascending(nals) && Tiled(nals)
    ensures nals[0].start <= nals[|nals| - 1].end
    ensures Bytes(es, nals) == es[nals[0].start..nals[|nals| - 1].end]
    decreases |nals|
  {
    var front := nals[..|nals| - 1];
    var last := nals[|nals| - 1];
    if front != [] {
      TiledBytes(es, front);
      assert front[|front| - 1].end == last.start;
      JoinSlices(es, nals[0].start, last.start, last.end);
    }
  }

  lemma JoinSlices<T>(s: seq<T>, a: nat, b: nat, c: nat)
    requires a <= b <= c <= |s|
    ensures s[a..b] + s[b..c] == s[a..c]
  {
  }

  lemma TiledStream(es: seq<Byte>)
    requires Scan(es, 0) != [] && Tiled(Scan(es, 0))
    ensures AllValid(es, Scan(es, 0)) && es == LeadBytes(es) + Bytes(es, Scan(es, 0))
  {
    hide Scan, IsCode, NoCode, CodeLen;
    var nals := Scan(es, 0);
    ScanValid(es, 0);
    ScanAscending(es, 0);
    TiledBytes(es, nals);
    SplitAt(es, nals[0].start);
  }

  /** The rewrite loses no byte and invents none: inside the ranges it permutes, outside it copies. */
  lemma FixedKeepsBytes(es: seq<Byte>)
    requires Scan(es, 0) != [] && Tiled(Scan(es, 0))
    ensures multiset(Fixed(es)) == multiset(es)
  {
    hide Scan, ValidNal, Arranged, LeadBytes, Bytes;
    TiledStream(es);
    ArrangedBytes(es, Scan(es, 0));
  }

  lemma RewrittenOutside(b: seq<Byte>, ranges: seq<Range>, i: nat)
    requires i < |b| && !Covers(ranges, i)
    ensures Rewritten(b, ranges)[i] == b[i]
  {
    if Rewrites(b, ranges) {
      LengthGuard(Gather(b, ranges));
      ScatterOutside(b, ranges, Fixed(Gather(b, ranges)), i);
    }
  }

  lemma RewrittenInside(b: seq<Byte>, ranges: seq<Range>)
    requires RangesOk(ranges, |b|) && InOrder(ranges)
    ensures Gather(Rewritten(b, ranges), ranges) ==
            if Rewrites(b, ranges) then Fixed(Gather(b, ranges)) else Gather(b, ranges)
    ensures multiset(Gather(Rewritten(b, ranges), ranges)) == multiset(Gather(b, ranges))
  {
    if Rewrites(b, ranges) {
      var es := Gather(b, ranges);
      LengthGuard(es);
      FixedKeepsBytes(es);
      GatherScatter(b, ranges, Fixed(es));
    }
  }

  /** Gathering takes the bytes of each range, one range after the other. */
  lemma GatherIs(b: seq<Byte>, ranges: seq<Range>, r: Range)
    requires RangesOk(ranges, |b|) && 0 <= r.start < r.end <= |b|
    ensures Gather(b, []) == []
    ensures RangesOk(ranges + [r], |b|) && Gather(b, ranges + [r]) == Gather(b, ranges) + b[r.start..r.end]
  {
    assert (ranges + [r])[..|ranges|] == ranges;
  }

  /**
   After the rewrite, whether it reported a change or not, no SEI of a gapless stream follows a picture
   unit in its access unit.
   */
  lemma RewrittenInOrder(b: seq<Byte>, ranges: seq<Range>, i: int, j: int)
    requires RangesOk(ranges, |b|) && InOrder(ranges)
    requires Tiled(Scan(Gather(b, ranges), 0))
    ensures !LatePair(Scan(Gather(Rewritten(b, ranges), ranges), 0), i, j)
  {
    hide Scan, Tiled, Gather, LatePair, Rewritten;
    RewrittenInside(b, ranges);
    NoUnitsNotLate();
    if Rewrites(b, ranges) {
      FixedNotLate(Gather(b, ranges));
    }
    LateIff(Scan(Gather(Rewritten(b, ranges), ranges), 0));
  }

  lemma NoUnitsNotLate()
    ensures !Late([], false)
  {
  }

  /** Running the rewrite on its own output reports no change, whatever the bytes were. */
  lemma RewriteOnce(b: seq<Byte>, ranges: seq<Range>)
    requires InOrder(ranges)
    ensures !Rewrites(Rewritten(b, ranges), ranges)
  {
    if Rewrites(b, ranges) {
      RewrittenInside(b, ranges);
      FixedNotLate(Gather(b, ranges));
    }
  }

  // ---------- transport stream packets ----------

  const PACKET_SIZE := 188
  const INVALID_PID := 0x1fff

  datatype TsHeader = TsHeader(ok: bool, pid: nat, start: bool, hdrLen: nat)
  datatype PesHeader = PesHeader(ok: bool, streamId: nat, hdrLen: nat)

  /** The header parsers of the transport stream library, as functions of the bytes they are given. */
  datatype Parsers = Parsers(ts: seq<Byte> -> TsHeader, pes: seq<Byte> -> PesHeader)

  /** Whether a payload opens a video elementary stream packet, and how long its header is. */
  function VideoPes(p: Parsers, payload: seq<Byte>): (hdrLen: int)
    ensures hdrLen >= -1
  {
    if |payload| < 9 || payload[0] != 0 || payload[1] != 0 || payload[2] != 1 then -1 else
      var h := p.pes(payload);
      if !h.ok || h.streamId < 0xe0 || h.streamId > 0xef then -1 else h.hdrLen
  }

  /** What the packet at off adds to the payload, and whether the next one continues it. */
  function PacketPayload(p: Parsers, pid: nat, pkt: seq<Byte>, off: nat, inPes: bool): (r: (seq<Range>, bool))
    requires |pkt| == PACKET_SIZE
    ensures |r.0| <= 1 && forall k :: 0 <= k < |r.0| ==> off <= r.0[k].start < r.0[k].end == off + PACKET_SIZE
  {
    var h := p.ts(pkt);
    if !h.ok || h.hdrLen >= PACKET_SIZE || h.pid != pid then ([], inPes)
    else if h.start then
      var pes := VideoPes(p, pkt[h.hdrLen..]);
      if pes < 0 || h.hdrLen + pes > PACKET_SIZE then ([], false)
      else if h.hdrLen + pes == PACKET_SIZE then ([], true)
      else ([Range(off + h.hdrLen + pes, off + PACKET_SIZE)], true)
    else if inPes then ([Range(off + h.hdrLen, off + PACKET_SIZE)], true)
    else ([], false)
  }

  /** The payload ranges contributed by the packets from off on. */
  function PayloadRanges(p: Parsers, pid: nat, b: seq<Byte>, off: nat, inPes: bool): (ranges: seq<Range>)
    ensures RangesOk(ranges, |b|) && InOrder(ranges)
    ensures forall k :: 0 <= k < |ranges| ==> off <= ranges[k].start
    decreases |b| - off
  {
    if off + PACKET_SIZE > |b| then [] else
      var step := PacketPayload(p, pid, b[off..off + PACKET_SIZE], off, inPes);
      step.0 + PayloadRanges(p, pid, b, off + PACKET_SIZE, step.1)
  }

  method CollectRanges(p: Parsers, pid: nat, data: seq<Byte>) returns (allPayload: seq<Range>)
    ensures allPayload == PayloadRanges(p, pid, data, 0, false)
  {
    allPayload := [];
    var inVideoPES := false;
    var off := 0;
    while off + PACKET_SIZE <= |data|
      invariant allPayload + PayloadRanges(p, pid, data, off, inVideoPES) == PayloadRanges(p, pid, data, 0, false)
      decreases |data| - off
    {
      ghost var step := PacketPayload(p, pid, data[off..off + PACKET_SIZE], off, inVideoPES);
      Regroup(allPayload, step.0, PayloadRanges(p, pid, data, off + PACKET_SIZE, step.1));
      var payload;
      payload, inVideoPES := CollectPacket(p, pid, data[off..off + PACKET_SIZE], off, inVideoPES);
      allPayload := allPayload + payload;
      off := off + PACKET_SIZE;
    }
  }

  /** One round of the packet loop. */
  method CollectPacket(p: Parsers, pid: nat, pkt: seq<Byte>, off: nat, inVideoPESBefore: bool)
    returns (payload: seq<Range>, inVideoPES: bool)
    requires |pkt| == PACKET_SIZE
    ensures (payload, inVideoPES) == PacketPayload(p, pid, pkt, off, inVideoPESBefore)
  {
    payload, inVideoPES := [], inVideoPESBefore;
    var h := p.ts(pkt);
    if !h.ok || h.hdrLen >= PACKET_SIZE || h.pid != pid {
      return;
    }
    var payloadStart := off + h.hdrLen;
    var payloadEnd := off + PACKET_SIZE;
    if h.start {
      inVideoPES := false;
      var pesHdrLen := VideoPes(p, pkt[h.hdrLen..]);
      if pesHdrLen < 0 {
        return;
      }
      payloadStart := payloadStart + pesHdrLen;
      if payloadStart > payloadEnd {
        return;
      }
      inVideoPES := true;
    }
    if !inVideoPES {
      return;
    }
    if payloadStart < payloadEnd {
      payload := [Range(payloadStart, payloadEnd)];
    }
  }

  /** Whether fixSEIOrder reports a change, and the data it returns. */
  predicate Changes(p: Parsers, findVideoPID: seq<Byte> -> nat, data: seq<Byte>) {
    && |data| >= PACKET_SIZE && findVideoPID(data) != INVALID_PID
    && Rewrites(data, PayloadRanges(p, findVideoPID(data), data, 0, false))
  }

  function FixedData(p: Parsers, findVideoPID: seq<Byte> -> nat, data: seq<Byte>): (r: seq<Byte>)
    ensures |r| == |data|
  {
    if Changes(p, findVideoPID, data) then Rewritten(data, PayloadRanges(p, findVideoPID(data), data, 0, false))
    else data
  }

  /** fixSEIOrder, with the PID search as a parameter: a copy of the input, rewritten if need be. */
  method FixSEIOrder(p: Parsers, findVideoPID: seq<Byte> -> nat, data: seq<Byte>)
    returns (result: seq<Byte>, changed: bool)
    ensures |result| == |data| && (!changed ==> result == data)
    ensures changed <==> Changes(p, findVideoPID, data)
    ensures result == FixedData(p, findVideoPID, data)
    ensures |data| < 188 || findVideoPID(data) == 0x1fff ==> !changed
    ensures |data| >= 188 && findVideoPID(data) != 0x1fff ==>
              var ranges := PayloadRanges(p, findVideoPID(data), data, 0, false);
              (changed <==> Rewrites(data, ranges)) && result == Rewritten(data, ranges)
  {
    if |data| < PACKET_SIZE {
      return data, false;
    }
    var videoPID := findVideoPID(data);
    if videoPID == INVALID_PID {
      return data, false;
    }
    var copy := new Byte[|data|](i requires 0 <= i < |data| => data[i]);
    assert copy[..] == data;
    var allPayload := CollectRanges(p, videoPID, data);
    if |allPayload| == 0 {
      assert Scan([], 0) == [];
      return copy[..], false;
    }
    changed := FixPES(copy, copy, allPayload);
    result := copy[..];
  }
}
