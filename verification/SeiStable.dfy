/**
 The whole of fixSEIOrder run on its own output: the rewrite leaves the headers alone, so the same
 payload ranges are found again and nothing is left to move.
 */
module SeiStable {
  import opened AnnexB
  import opened SeiOrder
  import opened SeiFixup
  import opened SeiRewrite

  predicate AgreeUpTo(x: seq<Byte>, y: seq<Byte>, n: int) {
    |x| == |y| && forall i :: 0 <= i < n && i < |x| ==> x[i] == y[i]
  }

  /**
   A header that parses is judged by itself: bytes after it make no difference, and an elementary
   stream packet header has at least the nine bytes of section 2.4.3.6 of ISO/IEC 13818-1. Nothing is
   asked of what the parsers report along with an error.
   */
  ghost predicate HeaderOnly(p: Parsers) {
    && (forall x, y :: p.ts(x).ok && AgreeUpTo(x, y, p.ts(x).hdrLen) ==> p.ts(y) == p.ts(x))
    && (forall x, y :: p.pes(x).ok && AgreeUpTo(x, y, p.pes(x).hdrLen) ==> p.pes(y) == p.pes(x))
    && (forall x :: p.pes(x).ok ==> p.pes(x).hdrLen >= 9)
  }

  lemma VideoPesStable(p: Parsers, x: seq<Byte>, y: seq<Byte>)
    requires HeaderOnly(p) && VideoPes(p, x) >= 0 && AgreeUpTo(x, y, VideoPes(p, x))
    ensures VideoPes(p, y) == VideoPes(p, x)
  {
    assert p.pes(y) == p.pes(x);
    assert x[0] == y[0] && x[1] == y[1] && x[2] == y[2];
  }

  /** Changing a packet inside the range it contributes does not change what it contributes. */
  lemma PacketStable(p: Parsers, pid: nat, x: seq<Byte>, y: seq<Byte>, off: nat, inPes: bool)
    requires HeaderOnly(p) && |x| == |y| == PACKET_SIZE
    requires var r := PacketPayload(p, pid, x, off, inPes).0;
             AgreeUpTo(x, y, if r == [] then PACKET_SIZE else r[0].start - off)
    ensures PacketPayload(p, pid, y, off, inPes) == PacketPayload(p, pid, x, off, inPes)
  {
    var r := PacketPayload(p, pid, x, off, inPes).0;
    if r == [] {
      assert x == y;
    } else {
      var h := p.ts(x);
      assert p.ts(y) == h;
      if h.start {
        var px, py := x[h.hdrLen..], y[h.hdrLen..];
        var n := VideoPes(p, px);
        forall i | 0 <= i < n && i < |px|
          ensures px[i] == py[i]
        {
          assert px[i] == x[h.hdrLen + i] && py[i] == y[h.hdrLen + i];
        }
        VideoPesStable(p, px, py);
      }
    }
  }

  /** b and c differ only inside the given ranges, from off on. */
  ghost predicate SameOutside(b: seq<Byte>, c: seq<Byte>, off: nat, ranges: seq<Range>) {
    |b| == |c| && forall i :: off <= i < |b| && !Covers(ranges, i) ==> b[i] == c[i]
  }

  lemma SplitRanges(first: seq<Range>, rest: seq<Range>, i: int)
    ensures Covers(first + rest, i) <==> Covers(first, i) || Covers(rest, i)
  {
    var all := first + rest;
    if Covers(first, i) {
      var k :| 0 <= k < |first| && first[k].start <= i < first[k].end;
      assert all[k] == first[k];
    }
    if Covers(rest, i) {
      var k :| 0 <= k < |rest| && rest[k].start <= i < rest[k].end;
      assert all[|first| + k] == rest[k];
    }
  }

  lemma {:induction false} RangesStable(p: Parsers, pid: nat, b: seq<Byte>, c: seq<Byte>, off: nat, inPes: bool)
    requires HeaderOnly(p) && SameOutside(b, c, off, PayloadRanges(p, pid, b, off, inPes))
    ensures PayloadRanges(p, pid, c, off, inPes) == PayloadRanges(p, pid, b, off, inPes)
    decreases |b| - off
  {
    if off + PACKET_SIZE <= |b| {
      hide PacketPayload, HeaderOnly, Covers;
      var next := off + PACKET_SIZE;
      var x, y := b[off..next], c[off..next];
      var step := PacketPayload(p, pid, x, off, inPes);
      var rest := PayloadRanges(p, pid, b, next, step.1);
      var all := PayloadRanges(p, pid, b, off, inPes);
      assert all == step.0 + rest;
      var n := if step.0 == [] then PACKET_SIZE else step.0[0].start - off;
      forall i | 0 <= i < n && i < |x|
        ensures x[i] == y[i]
      {
        SplitRanges(step.0, rest, off + i);
        NotBefore(step.0, off + i);
        NotBeyond(rest, off + i, next);
        assert b[off + i] == c[off + i];
      }
      PacketStable(p, pid, x, y, off, inPes);
      forall i | next <= i < |b| && !Covers(rest, i)
        ensures b[i] == c[i]
      {
        SplitRanges(step.0, rest, i);
        NotAfter(step.0, i, next);
      }
      RangesStable(p, pid, b, c, next, step.1);
    }
  }

  lemma NotBefore(ranges: seq<Range>, i: int)
    requires |ranges| <= 1 && (ranges != [] ==> i < ranges[0].start)
    ensures !Covers(ranges, i)
  {
  }

  lemma NotAfter(ranges: seq<Range>, i: int, end: int)
    requires forall k :: 0 <= k < |ranges| ==> ranges[k].end == end
    requires i >= end
    ensures !Covers(ranges, i)
  {
  }

  lemma NotBeyond(ranges: seq<Range>, i: int, start: int)
    requires forall k :: 0 <= k < |ranges| ==> start <= ranges[k].start
    requires i < start
    ensures !Covers(ranges, i)
  {
  }

  /** The ranges found in the output are those found in the input. */
  lemma SameRangesAgain(p: Parsers, pid: nat, data: seq<Byte>)
    requires HeaderOnly(p)
    ensures var ranges := PayloadRanges(p, pid, data, 0, false);
            PayloadRanges(p, pid, Rewritten(data, ranges), 0, false) == ranges
  {
    hide HeaderOnly, Covers, PayloadRanges, Rewritten;
    var ranges := PayloadRanges(p, pid, data, 0, false);
    var out := Rewritten(data, ranges);
    forall i | 0 <= i < |data| && !Covers(ranges, i)
      ensures data[i] == out[i]
    {
      RewrittenOutside(data, ranges, i);
    }
    RangesStable(p, pid, data, out, 0, false);
  }

  /**
   fixSEIOrder run on its own output reports no change and returns it as it is, if the search finds
   the same video PID in it.
   */
  lemma FixedOnce(p: Parsers, findVideoPID: seq<Byte> -> nat, data: seq<Byte>)
    requires HeaderOnly(p)
    requires findVideoPID(FixedData(p, findVideoPID, data)) == findVideoPID(data)
    ensures var out := FixedData(p, findVideoPID, data);
            !Changes(p, findVideoPID, out) && FixedData(p, findVideoPID, out) == out
  {
    hide HeaderOnly, PayloadRanges, Rewritten, Rewrites;
    if Changes(p, findVideoPID, data) {
      var pid := findVideoPID(data);
      SameRangesAgain(p, pid, data);
      RewriteOnce(data, PayloadRanges(p, pid, data, 0, false));
    }
  }

  /** In the data returned, no SEI of the gapless video stream found in it follows a picture unit. */
  lemma FixedInOrder(p: Parsers, findVideoPID: seq<Byte> -> nat, data: seq<Byte>, i: int, j: int)
    requires HeaderOnly(p) && |data| >= 188 && findVideoPID(data) != 0x1fff
    requires Tiled(Scan(Gather(data, PayloadRanges(p, findVideoPID(data), data, 0, false)), 0))
    ensures var out := FixedData(p, findVideoPID, data);
            var ranges := PayloadRanges(p, findVideoPID(data), out, 0, false);
            !LatePair(Scan(Gather(out, ranges), 0), i, j)
  {
    hide HeaderOnly, PayloadRanges, Tiled, Scan, Gather, LatePair, Rewrites;
    var ranges := PayloadRanges(p, findVideoPID(data), data, 0, false);
    SameRangesAgain(p, findVideoPID(data), data);
    RewrittenInOrder(data, ranges, i, j);
  }
}
