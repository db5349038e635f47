/**
 Which bytes of a transport stream are video payload: the ranges collected packet by packet cover
 exactly the bytes behind the headers of the packets that belong to a video elementary stream packet.
 */
module SeiRanges {
  import opened AnnexB
  import opened SeiRewrite
  import opened SeiStable

  // ---------- the packets of a stream, without any collecting ----------

  function PacketAt(b: seq<Byte>, n: nat): (pkt: seq<Byte>)
    requires 188 * n + 188 <= |b|
    ensures |pkt| == 188
  {
    b[188 * n..188 * n + 188]
  }

  /** Packet n is whole, parses, has this PID, and its header leaves room for payload. */
  predicate Ours(p: Parsers, pid: nat, b: seq<Byte>, n: nat) {
    188 * n + 188 <= |b| &&
    var h := p.ts(PacketAt(b, n)); h.ok && h.pid == pid && h.hdrLen < 188
  }

  predicate Starts(p: Parsers, pid: nat, b: seq<Byte>, n: nat) {
    Ours(p, pid, b, n) && p.ts(PacketAt(b, n)).start
  }

  /** Packet n starts a video elementary stream packet, all of whose header it holds. */
  predicate OpensVideo(p: Parsers, pid: nat, b: seq<Byte>, n: nat) {
    Starts(p, pid, b, n) &&
    var h := p.ts(PacketAt(b, n)).hdrLen;
    var payload := PacketAt(b, n)[h..];
    |payload| >= 9 && payload[0] == 0 && payload[1] == 0 && payload[2] == 1 &&
    var pes := p.pes(payload);
    pes.ok && 0xe0 <= pes.streamId <= 0xef && h + pes.hdrLen <= 188
  }

  /** Packet s is the latest start packet at or before packet n. */
  ghost predicate LastStart(p: Parsers, pid: nat, b: seq<Byte>, s: nat, n: nat) {
    s <= n && Starts(p, pid, b, s) && forall k :: s < k <= n ==> !Starts(p, pid, b, k)
  }

  /** The first byte behind the headers of packet n, which belongs to the start packet s. */
  function PayloadFrom(p: Parsers, pid: nat, b: seq<Byte>, s: nat, n: nat): int
    requires Ours(p, pid, b, n)
  {
    var h := p.ts(PacketAt(b, n)).hdrLen;
    188 * n + h + if s == n then p.pes(PacketAt(b, n)[h..]).hdrLen else 0
  }

  ghost predicate IsVideoByte(p: Parsers, pid: nat, b: seq<Byte>, i: nat) {
    Ours(p, pid, b, i / 188) &&
    exists s: nat :: LastStart(p, pid, b, s, i / 188) && OpensVideo(p, pid, b, s)
                     && PayloadFrom(p, pid, b, s, i / 188) <= i
  }

  // ---------- the state of the packet loop ----------

  /** What the loop has in inVideoPES before packet n. */
  function InPes(p: Parsers, pid: nat, b: seq<Byte>, n: nat): bool
    requires 188 * n <= |b|
  {
    n > 0 && PacketPayload(p, pid, PacketAt(b, n - 1), 188 * (n - 1), InPes(p, pid, b, n - 1)).1
  }

  /** One packet decides the state unless it is none of ours or only continues. */
  lemma PacketState(p: Parsers, pid: nat, b: seq<Byte>, n: nat, inPes: bool)
    requires 188 * n + 188 <= |b|
    ensures PacketPayload(p, pid, PacketAt(b, n), 188 * n, inPes).1 ==
            if Starts(p, pid, b, n) then OpensVideo(p, pid, b, n) else inPes
  {
  }

  lemma {:induction false} InPesIff(p: Parsers, pid: nat, b: seq<Byte>, n: nat)
    requires 188 * n <= |b|
    ensures InPes(p, pid, b, n) <==>
            exists s: nat :: n > 0 && LastStart(p, pid, b, s, n - 1) && OpensVideo(p, pid, b, s)
  {
    if n > 0 {
      hide PacketPayload, Starts, OpensVideo, InPes;
      InPesIff(p, pid, b, n - 1);
      PacketState(p, pid, b, n - 1, InPes(p, pid, b, n - 1));
      InPesStep(p, pid, b, n);
      if Starts(p, pid, b, n - 1) {
        assert LastStart(p, pid, b, n - 1, n - 1);
      } else {
        if s: nat :| n > 1 && LastStart(p, pid, b, s, n - 2) && OpensVideo(p, pid, b, s) {
          assert LastStart(p, pid, b, s, n - 1);
        }
        if s: nat :| LastStart(p, pid, b, s, n - 1) && OpensVideo(p, pid, b, s) {
          assert LastStart(p, pid, b, s, n - 2);
        }
      }
    } else {
      assert !InPes(p, pid, b, 0);
    }
  }

  lemma InPesStep(p: Parsers, pid: nat, b: seq<Byte>, n: nat)
    requires 0 < n && 188 * n <= |b|
    ensures InPes(p, pid, b, n) == PacketPayload(p, pid, PacketAt(b, n - 1), 188 * (n - 1), InPes(p, pid, b, n - 1)).1
  {
  }

  /** What one packet contributes, from the state before it. */
  lemma PacketCovers(p: Parsers, pid: nat, b: seq<Byte>, n: nat, inPes: bool, i: nat)
    requires 188 * n + 188 <= |b| && i / 188 == n
    ensures Covers(PacketPayload(p, pid, PacketAt(b, n), 188 * n, inPes).0, i) <==>
            && Ours(p, pid, b, n)
            && (if Starts(p, pid, b, n) then OpensVideo(p, pid, b, n) && PayloadFrom(p, pid, b, n, n) <= i
                else inPes && 188 * n + p.ts(PacketAt(b, n)).hdrLen <= i)
  {
    hide Covers;
    var ranges := PacketPayload(p, pid, PacketAt(b, n), 188 * n, inPes).0;
    if ranges == [] {
      CoversNothing(i);
    } else {
      CoversOne(ranges[0], i);
      assert ranges == [ranges[0]];
    }
  }

  lemma CoversNothing(i: int)
    ensures !Covers([], i)
  {
  }

  lemma CoversOne(r: Range, i: int)
    ensures Covers([r], i) <==> r.start <= i < r.end
  {
    assert [r][0] == r;
  }

  /** A byte is covered exactly if its own packet contributes it. */
  lemma {:induction false} OwnPacketCovers(p: Parsers, pid: nat, b: seq<Byte>, n: nat, i: nat)
    requires 188 * n <= |b| && n <= i / 188
    ensures Covers(PayloadRanges(p, pid, b, 188 * n, InPes(p, pid, b, n)), i) <==>
            && 188 * (i / 188) + 188 <= |b|
            && Covers(PacketPayload(p, pid, PacketAt(b, i / 188), 188 * (i / 188), InPes(p, pid, b, i / 188)).0, i)
    decreases i / 188 - n
  {
    hide PacketPayload, Covers, InPes;
    var off := 188 * n;
    if off + 188 > |b| {
      CoversNothing(i);
    } else {
      var step := PacketPayload(p, pid, PacketAt(b, n), off, InPes(p, pid, b, n));
      var rest := PayloadRanges(p, pid, b, off + 188, step.1);
      InPesStep(p, pid, b, n + 1);
      assert PacketAt(b, n) == b[off..off + PACKET_SIZE];
      SplitRanges(step.0, rest, i);
      if n < i / 188 {
        NotAfter(step.0, i, off + 188);
        OwnPacketCovers(p, pid, b, n + 1, i);
      } else {
        NotBeyond(rest, i, off + 188);
      }
    }
  }

  /** The ranges cover exactly the video bytes. */
  lemma CoversIff(p: Parsers, pid: nat, b: seq<Byte>, i: nat)
    ensures Covers(PayloadRanges(p, pid, b, 0, false), i) <==> IsVideoByte(p, pid, b, i)
  {
    hide PacketPayload, Covers, PayloadRanges, Starts, Ours, OpensVideo, InPes;
    var n := i / 188;
    NoPesAtStart(p, pid, b);
    OwnPacketCovers(p, pid, b, 0, i);
    if 188 * n + 188 <= |b| {
      PacketCovers(p, pid, b, n, InPes(p, pid, b, n), i);
      InPesIff(p, pid, b, n);
      if Ours(p, pid, b, n) {
        OwnerOfByte(p, pid, b, i);
      }
    } else {
      OursIsWhole(p, pid, b, n);
    }
  }

  lemma NoPesAtStart(p: Parsers, pid: nat, b: seq<Byte>)
    ensures !InPes(p, pid, b, 0)
  {
  }

  lemma OursIsWhole(p: Parsers, pid: nat, b: seq<Byte>, n: nat)
    ensures Ours(p, pid, b, n) ==> 188 * n + 188 <= |b|
    ensures Starts(p, pid, b, n) ==> Ours(p, pid, b, n)
  {
  }

  /** The latest start packet of a byte's packet is that packet itself or one before it. */
  lemma OwnerOfByte(p: Parsers, pid: nat, b: seq<Byte>, i: nat)
    requires Ours(p, pid, b, i / 188)
    ensures var n := i / 188;
            IsVideoByte(p, pid, b, i) <==>
              if Starts(p, pid, b, n) then OpensVideo(p, pid, b, n) && PayloadFrom(p, pid, b, n, n) <= i
              else && 188 * n + p.ts(PacketAt(b, n)).hdrLen <= i
                   && exists s: nat :: n > 0 && LastStart(p, pid, b, s, n - 1) && OpensVideo(p, pid, b, s)
  {
    hide Starts, Ours, OpensVideo;
    var n := i / 188;
    if Starts(p, pid, b, n) {
      assert LastStart(p, pid, b, n, n);
    } else {
      if s: nat :| n > 0 && LastStart(p, pid, b, s, n - 1) && OpensVideo(p, pid, b, s) {
        assert LastStart(p, pid, b, s, n);
      }
      if s: nat :| LastStart(p, pid, b, s, n) && OpensVideo(p, pid, b, s) {
        assert s != n;
        assert LastStart(p, pid, b, s, n - 1);
      }
    }
  }
}
