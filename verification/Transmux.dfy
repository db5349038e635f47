/**
 Timestamp re-basing of the transmuxing mode: after a discontinuity each stream continues where it
 stopped, and packets that would step back are skipped.
 */
module Transmux {
  import opened Common

  datatype Packet = Packet(stream: nat, pts: int, dts: int, duration: int)

  const MAX_OUTPUT_SIZE: nat := 10

  /** What is remembered about one stream. */
  datatype Track = Track(lastDts: int, dtsDiff: int, lastDuration: int, broken: bool)

  const FRESH := Track(-1, 0, 0, false)

  // ---------- one packet of one stream ----------

  function Shift(p: Packet, shift: int): Packet {
    p.(pts := p.pts + shift, dts := p.dts + shift)
  }

  /** The shift is chosen anew for the first packet after a discontinuity. */
  function Rebased(t: Track, p: Packet): Track {
    if t.broken then t.(dtsDiff := t.lastDts + t.lastDuration - p.dts, broken := false) else t
  }

  predicate Skips(t: Track, dts: int) {
    t.lastDts > -1 && dts <= t.lastDts
  }

  function Next(t: Track, p: Packet): Track {
    var r := Rebased(t, p);
    if Skips(r, p.dts + r.dtsDiff) then r
    else r.(lastDts := p.dts + r.dtsDiff, lastDuration := if p.duration != 0 then p.duration else r.lastDuration)
  }

  function Forward(t: Track, p: Packet): Option<Packet> {
    var r := Rebased(t, p);
    if Skips(r, p.dts + r.dtsDiff) then None else Some(Shift(p, r.dtsDiff))
  }

  datatype Event = Arrival(pkt: Packet) | Break

  /** All streams together: a packet moves its own, a discontinuity marks all. */
  function Moved(ts: seq<Track>, e: Event): (rs: seq<Track>)
    ensures |rs| == |ts|
  {
    match e
    case Arrival(p) => if p.stream < |ts| then ts[p.stream := Next(ts[p.stream], p)] else ts
    case Break => seq(|ts|, i requires 0 <= i < |ts| => ts[i].(broken := true))
  }

  /** What an event forwards; streams beyond the table pass as they are. */
  function Sent(ts: seq<Track>, e: Event): Option<Packet> {
    match e
    case Arrival(p) => if p.stream < |ts| then Forward(ts[p.stream], p) else Some(p)
    case Break => None
  }

  // ---------- the code ----------

  class InputCtx {
    const lastDts: array<int>
    const dtsDiff: array<int>
    const lastDuration: array<int>
    const discontinuity: array<bool>

    ghost predicate Valid() {
      && lastDts.Length == dtsDiff.Length == lastDuration.Length == discontinuity.Length == MAX_OUTPUT_SIZE
      && lastDts != dtsDiff && lastDts != lastDuration && dtsDiff != lastDuration
    }

    /** What is remembered, stream by stream. */
    ghost function Tracks(): (ts: seq<Track>)
      requires Valid()
      reads lastDts, dtsDiff, lastDuration, discontinuity
      ensures |ts| == MAX_OUTPUT_SIZE && forall i :: 0 <= i < MAX_OUTPUT_SIZE ==> ts[i] == At(i)
    {
      seq(MAX_OUTPUT_SIZE, i requires 0 <= i < MAX_OUTPUT_SIZE
        reads lastDts, dtsDiff, lastDuration, discontinuity => At(i))
    }

    ghost function At(i: nat): Track
      requires Valid() && i < MAX_OUTPUT_SIZE
      reads lastDts, dtsDiff, lastDuration, discontinuity
    {
      Track(lastDts[i], dtsDiff[i], lastDuration[i], discontinuity[i])
    }

    constructor ()
      ensures Valid() && fresh(lastDts) && fresh(dtsDiff) && fresh(lastDuration) && fresh(discontinuity)
      ensures forall i :: 0 <= i < MAX_OUTPUT_SIZE ==> At(i) == FRESH == Track(-1, 0, 0, false)
    {
      lastDts := new int[MAX_OUTPUT_SIZE](_ => -1);
      dtsDiff := new int[MAX_OUTPUT_SIZE](_ => 0);
      lastDuration := new int[MAX_OUTPUT_SIZE](_ => 0);
      discontinuity := new bool[MAX_OUTPUT_SIZE](_ => false);
    }

    method Discontinuity()
      requires Valid()
      modifies discontinuity
      ensures forall i :: 0 <= i < MAX_OUTPUT_SIZE ==> At(i) == old(At(i)).(broken := true)
      ensures Tracks() == Moved(old(Tracks()), Break)
    {
      for i := 0 to MAX_OUTPUT_SIZE
        invariant forall j :: 0 <= j < i ==> discontinuity[j]
      {
        discontinuity[i] := true;
      }
    }

    /** Streams beyond the table are forwarded as they are. */
    method Transmux(ipkt: Packet) returns (forwarded: Option<Packet>)
      requires Valid()
      modifies lastDts, dtsDiff, lastDuration, discontinuity
      ensures forall i :: 0 <= i < MAX_OUTPUT_SIZE ==>
                At(i) == if i == ipkt.stream then Next(old(At(i)), ipkt) else old(At(i))
      ensures Tracks() == Moved(old(Tracks()), Arrival(ipkt)) && forwarded == Sent(old(Tracks()), Arrival(ipkt))
      ensures forwarded == if ipkt.stream < MAX_OUTPUT_SIZE then Forward(old(At(ipkt.stream)), ipkt) else Some(ipkt)
    {
      var pkt := ipkt;
      var s := pkt.stream;
      if s < MAX_OUTPUT_SIZE {
        if discontinuity[s] {
          dtsDiff[s] := lastDts[s] + lastDuration[s] - pkt.dts;
          discontinuity[s] := false;
        }
        pkt := Shift(pkt, dtsDiff[s]);
        if lastDts[s] > -1 && pkt.dts <= lastDts[s] {
          return None;
        }
        lastDts[s] := pkt.dts;
        if pkt.duration != 0 {
          lastDuration[s] := pkt.duration;
        }
      }
      forwarded := Some(pkt);
    }
  }

  // ---------- runs of one stream ----------

  function Then(t: Track, e: Event): Track {
    match e
    case Arrival(p) => Next(t, p)
    case Break => t.(broken := true)
  }

  function After(t: Track, es: seq<Event>): (r: Track)
    decreases es
  {
    if es == [] then t else After(Then(t, es[0]), es[1..])
  }

  function Out(t: Track, es: seq<Event>): (ps: seq<Packet>)
    decreases es
  {
    if es == [] then [] else
      var rest := Out(Then(t, es[0]), es[1..]);
      if es[0].Arrival? && Forward(t, es[0].pkt).Some? then [Forward(t, es[0].pkt).value] + rest else rest
  }

  lemma {:induction false} OutAbove(t: Track, es: seq<Event>, j: nat)
    requires j < |Out(t, es)| && t.lastDts > -1
    ensures Out(t, es)[j].dts > t.lastDts
    decreases es
  {
    var t1 := Then(t, es[0]);
    var added := es[0].Arrival? && Forward(t, es[0].pkt).Some?;
    if added && j > 0 {
      OutAbove(t1, es[1..], j - 1);
    } else if !added {
      OutAbove(t1, es[1..], j);
    }
  }

  /** Once non-negative, the forwarded DTS of a stream strictly increase, across any discontinuities. */
  lemma {:induction false} OutClimbs(t: Track, es: seq<Event>, i: nat, j: nat)
    requires i < j < |Out(t, es)| && Out(t, es)[i].dts >= 0
    ensures Out(t, es)[i].dts < Out(t, es)[j].dts
    decreases es
  {
    var t1 := Then(t, es[0]);
    if es[0].Arrival? && Forward(t, es[0].pkt).Some? {
      if i == 0 {
        OutAbove(t1, es[1..], j - 1);
      } else {
        OutClimbs(t1, es[1..], i - 1, j - 1);
      }
    } else {
      OutClimbs(t1, es[1..], i, j);
    }
  }

  // ---------- all streams at once ----------

  /** The packets forwarded for events of all streams, in order. */
  function OutAll(ts: seq<Track>, es: seq<Event>): (ps: seq<Packet>)
    decreases es
  {
    if es == [] then [] else
      var rest := OutAll(Moved(ts, es[0]), es[1..]);
      if Sent(ts, es[0]).Some? then [Sent(ts, es[0]).value] + rest else rest
  }

  function OnStream(i: nat, ps: seq<Packet>): (rs: seq<Packet>) {
    if ps == [] then []
    else if ps[0].stream == i then [ps[0]] + OnStream(i, ps[1..])
    else OnStream(i, ps[1..])
  }

  /** The events that concern one stream: its packets and every discontinuity. */
  function EventsOf(i: nat, es: seq<Event>): (rs: seq<Event>) {
    if es == [] then []
    else if es[0].Arrival? && es[0].pkt.stream != i then EventsOf(i, es[1..])
    else [es[0]] + EventsOf(i, es[1..])
  }

  lemma OnStreamCons(i: nat, p: Packet, ps: seq<Packet>)
    ensures OnStream(i, [p] + ps) == if p.stream == i then [p] + OnStream(i, ps) else OnStream(i, ps)
  {
    assert ([p] + ps)[1..] == ps;
  }

  lemma OutCons(t: Track, e: Event, es: seq<Event>)
    ensures Out(t, [e] + es) ==
            if e.Arrival? && Forward(t, e.pkt).Some? then [Forward(t, e.pkt).value] + Out(Then(t, e), es)
            else Out(Then(t, e), es)
  {
    assert ([e] + es)[1..] == es;
  }

  /**
   Streams do not interfere: however packets and discontinuities are interleaved, each stream of the
   table is forwarded exactly what its own events alone would give.
   */
  lemma {:induction false} StreamsApart(ts: seq<Track>, es: seq<Event>, i: nat)
    requires i < |ts|
    ensures OnStream(i, OutAll(ts, es)) == Out(ts[i], EventsOf(i, es))
    decreases es
  {
    if es != [] {
      hide OnStream, Out, Next, Forward;
      var e, rest := es[0], OutAll(Moved(ts, es[0]), es[1..]);
      StreamsApart(Moved(ts, e), es[1..], i);
      if Sent(ts, e).Some? {
        OnStreamCons(i, Sent(ts, e).value, rest);
      }
      if e.Arrival? {
        ForwardKeepsStream(ts, e.pkt);
      }
      OutCons(ts[i], e, EventsOf(i, es[1..]));
    } else {
      NothingOut(ts[i], i);
    }
  }

  lemma ForwardKeepsStream(ts: seq<Track>, p: Packet)
    ensures Sent(ts, Arrival(p)).Some? ==> Sent(ts, Arrival(p)).value.stream == p.stream
  {
  }

  lemma NothingOut(t: Track, i: nat)
    ensures Out(t, []) == [] && OnStream(i, []) == []
  {
  }

  // ---------- between discontinuities ----------

  function Arrivals(ps: seq<Packet>): (es: seq<Event>)
    ensures |es| == |ps|
  {
    if ps == [] then [] else [Arrival(ps[0])] + Arrivals(ps[1..])
  }

  function ShiftAll(ps: seq<Packet>, shift: int): (rs: seq<Packet>)
    ensures |rs| == |ps|
  {
    if ps == [] then [] else [Shift(ps[0], shift)] + ShiftAll(ps[1..], shift)
  }

  /** The packets of a run that a stream whose shift stays fixed does not skip. */
  function Kept(t: Track, ps: seq<Packet>): (rs: seq<Packet>)
    requires !t.broken
    decreases ps
  {
    if ps == [] then []
    else if Skips(t, ps[0].dts + t.dtsDiff) then Kept(t, ps[1..])
    else [ps[0]] + Kept(Next(t, ps[0]), ps[1..])
  }

  /**
   Up to the next discontinuity one shift applies to PTS and DTS of every packet: the old one, or for
   a broken stream the one that puts the first packet at last DTS plus last non-zero duration.
   */
  lemma {:induction false} OneShift(t: Track, ps: seq<Packet>)
    requires ps != []
    ensures var r := Rebased(t, ps[0]);
            && Out(t, Arrivals(ps)) == ShiftAll(Kept(r, ps), r.dtsDiff)
            && After(t, Arrivals(ps)).dtsDiff == r.dtsDiff && !After(t, Arrivals(ps)).broken
            && (t.broken ==> Shift(ps[0], r.dtsDiff).dts == t.lastDts + t.lastDuration)
    decreases ps
  {
    var r := Rebased(t, ps[0]);
    var es := Arrivals(ps);
    assert es[0] == Arrival(ps[0]) && es[1..] == Arrivals(ps[1..]);
    var t1 := Next(t, ps[0]);
    if |ps| > 1 {
      OneShift(t1, ps[1..]);
    } else {
      assert ps[1..] == [];
    }
    if !Skips(r, ps[0].dts + r.dtsDiff) {
      var rest := Kept(t1, ps[1..]);
      assert ([ps[0]] + rest)[1..] == rest;
    }
  }

  /** The last duration that is not zero, or d if there is none. */
  function LastNonZero(ps: seq<Packet>, d: int): int {
    if ps == [] then d
    else if ps[|ps| - 1].duration != 0 then ps[|ps| - 1].duration
    else LastNonZero(ps[..|ps| - 1], d)
  }

  lemma {:induction false} LastNonZeroCons(p: Packet, ps: seq<Packet>, d: int)
    ensures LastNonZero([p] + ps, d) == LastNonZero(ps, if p.duration != 0 then p.duration else d)
  {
    if ps == [] {
      assert [p] + ps == [p] && [p][..0] == [];
    } else {
      assert ([p] + ps)[..|ps|] == [p] + ps[..|ps| - 1];
      LastNonZeroCons(p, ps[..|ps| - 1], d);
    }
  }

  /** The duration remembered is the last non-zero one among the packets forwarded. */
  lemma {:induction false} RemembersLastNonZero(t: Track, ps: seq<Packet>)
    requires ps != []
    ensures After(t, Arrivals(ps)).lastDuration == LastNonZero(Kept(Rebased(t, ps[0]), ps), t.lastDuration)
    decreases ps
  {
    hide LastNonZero;
    var r, t1 := Rebased(t, ps[0]), Next(t, ps[0]);
    var es := Arrivals(ps);
    assert es[0] == Arrival(ps[0]) && es[1..] == Arrivals(ps[1..]);
    if |ps| > 1 {
      RemembersLastNonZero(t1, ps[1..]);
    } else {
      assert ps[1..] == [];
      LastNonZeroNone(t1.lastDuration);
    }
    if !Skips(r, ps[0].dts + r.dtsDiff) {
      LastNonZeroCons(ps[0], Kept(t1, ps[1..]), t.lastDuration);
    }
  }

  lemma LastNonZeroNone(d: int)
    ensures LastNonZero([], d) == d
  {
  }

  /** Between discontinuities a packet is skipped exactly if it would not go past a non-negative last DTS. */
  lemma SkippedIff(t: Track, p: Packet)
    requires !t.broken
    ensures Forward(t, p) == None <==> 0 <= t.lastDts && p.dts + t.dtsDiff <= t.lastDts
  {
  }

  /** What is forwarded keeps the distance between its clocks, its duration and its stream. */
  lemma ForwardKeepsDistance(t: Track, p: Packet)
    ensures var q := Forward(t, p);
            q.Some? ==> && q.value.pts - q.value.dts == p.pts - p.dts
                        && q.value.duration == p.duration && q.value.stream == p.stream
  {
  }

  /** Where a stream goes on after a discontinuity: its first packet is not skipped. */
  predicate CanGoOn(t: Track) {
    t.lastDts < 0 || t.lastDuration > 0
  }

  /** The first packet after a discontinuity is lost exactly when no positive duration is known. */
  lemma FirstAfterBreakIff(t: Track, p: Packet)
    requires t.broken
    ensures (Forward(t, p) == Some(Shift(p, t.lastDts + t.lastDuration - p.dts))) <==> CanGoOn(t)
    ensures Forward(t, p) == None <==> !CanGoOn(t)
  {
  }

  /** From a fresh handle: a packet without duration, a discontinuity, and the packet after it is lost. */
  lemma FirstAfterBreakLost()
    ensures var first, second := Packet(0, 5, 5, 0), Packet(0, 100, 100, 40);
            Out(FRESH, [Arrival(first), Break, Arrival(second)]) == [first]
  {
    var first, second := Packet(0, 5, 5, 0), Packet(0, 100, 100, 40);
    var es := [Arrival(first), Break, Arrival(second)];
    var t := Next(FRESH, first);
    assert es[1..] == [Break, Arrival(second)] && es[1..][1..] == [Arrival(second)];
    assert Out(t.(broken := true), [Arrival(second)]) == [];
    assert Out(t, es[1..]) == [];
    assert Shift(first, 0) == first;
  }

  // ---------- well-formed segments join without a gap ----------

  predicate Increasing(ps: seq<Packet>) {
    forall i :: 0 < i < |ps| ==> ps[i - 1].dts < ps[i].dts
  }

  /** A segment whose DTS increase and whose last packet has a positive duration. */
  predicate WellFormed(ps: seq<Packet>) {
    ps != [] && Increasing(ps) && ps[|ps| - 1].duration > 0
  }

  predicate AllWellFormed(segs: seq<seq<Packet>>) {
    forall i :: 0 <= i < |segs| ==> WellFormed(segs[i])
  }

  lemma {:induction false} NothingSkipped(t: Track, ps: seq<Packet>)
    requires !t.broken && Increasing(ps)
    requires ps != [] ==> !Skips(t, ps[0].dts + t.dtsDiff)
    ensures Kept(t, ps) == ps
    decreases ps
  {
    if |ps| > 1 {
      var rest := ps[1..];
      assert ps[1 - 1].dts < ps[1].dts;
      forall i | 0 < i < |rest|
        ensures rest[i - 1].dts < rest[i].dts
      {
        assert ps[i + 1 - 1].dts < ps[i + 1].dts;
      }
      NothingSkipped(Next(t, ps[0]), rest);
    }
  }

  lemma {:induction false} AfterSegment(t: Track, ps: seq<Packet>)
    requires ps != [] && Kept(Rebased(t, ps[0]), ps) == ps
    ensures After(t, Arrivals(ps)).lastDts == ps[|ps| - 1].dts + Rebased(t, ps[0]).dtsDiff
    ensures ps[|ps| - 1].duration != 0 ==> After(t, Arrivals(ps)).lastDuration == ps[|ps| - 1].duration
    decreases ps
  {
    var r := Rebased(t, ps[0]);
    var es := Arrivals(ps);
    assert es[0] == Arrival(ps[0]) && es[1..] == Arrivals(ps[1..]);
    var t1 := Next(t, ps[0]);
    KeptShorter(r, ps[1..]);
    assert !Skips(r, ps[0].dts + r.dtsDiff);
    assert Kept(r, ps) == [ps[0]] + Kept(t1, ps[1..]);
    assert Kept(r, ps)[1..] == Kept(t1, ps[1..]);
    if |ps| > 1 {
      AfterSegment(t1, ps[1..]);
    } else {
      assert ps[1..] == [];
    }
  }

  lemma {:induction false} KeptShorter(t: Track, ps: seq<Packet>)
    requires !t.broken
    ensures |Kept(t, ps)| <= |ps|
    decreases ps
  {
    if ps != [] {
      KeptShorter(t, ps[1..]);
      KeptShorter(Next(t, ps[0]), ps[1..]);
    }
  }

  /** Segments with a discontinuity before each. */
  function Segments(segs: seq<seq<Packet>>): (es: seq<Event>) {
    if segs == [] then [] else [Break] + Arrivals(segs[0]) + Segments(segs[1..])
  }

  /** Each segment moved to where the one before it ends. */
  function Joined(at: int, segs: seq<seq<Packet>>): (ps: seq<Packet>)
    requires AllWellFormed(segs)
    decreases segs
  {
    if segs == [] then [] else
      var shift := at - segs[0][0].dts;
      var last := segs[0][|segs[0]| - 1];
      ShiftAll(segs[0], shift) + Joined(last.dts + shift + last.duration, segs[1..])
  }

  lemma {:induction false} OutAppend(t: Track, es: seq<Event>, fs: seq<Event>)
    ensures Out(t, es + fs) == Out(t, es) + Out(After(t, es), fs)
    decreases es
  {
    if es == [] {
      assert es + fs == fs;
    } else {
      assert (es + fs)[1..] == es[1..] + fs;
      OutAppend(Then(t, es[0]), es[1..], fs);
    }
  }

  /**
   Any number of well-formed segments is forwarded complete, each starting where the last packet of
   the one before it ends.
   */
  lemma {:induction false} Seamless(t: Track, segs: seq<seq<Packet>>)
    requires CanGoOn(t) && AllWellFormed(segs)
    ensures Out(t, Segments(segs)) == Joined(t.lastDts + t.lastDuration, segs)
    decreases segs
  {
    hide Out, After, ShiftAll, Segments, Joined, WellFormed, CanGoOn, AllWellFormed;
    if segs != [] {
      RestWellFormed(segs);
      JoinedHead(t.lastDts + t.lastDuration, segs);
      SegmentsHead(segs);
      SegmentsOut(t, segs[0], Segments(segs[1..]));
      Seamless(After(t.(broken := true), Arrivals(segs[0])), segs[1..]);
    } else {
      NoSegments(t);
    }
  }

  lemma RestWellFormed(segs: seq<seq<Packet>>)
    requires AllWellFormed(segs) && segs != []
    ensures segs[0] != [] && WellFormed(segs[0]) && AllWellFormed(segs[1..])
  {
    assert WellFormed(segs[0]);
  }

  lemma NoSegments(t: Track)
    ensures Out(t, Segments([])) == [] && forall at :: Joined(at, []) == []
  {
  }

  lemma OutBreakThen(t: Track, es: seq<Event>, fs: seq<Event>)
    ensures var b := t.(broken := true);
            Out(t, [Break] + (es + fs)) == Out(b, es) + Out(After(b, es), fs)
  {
    hide Out, After;
    OutCons(t, Break, es + fs);
    OutAppend(t.(broken := true), es, fs);
  }

  /** The first segment goes out shifted, and the stream goes on where its last packet ends. */
  lemma SegmentsOut(t: Track, ps: seq<Packet>, fs: seq<Event>)
    requires CanGoOn(t) && ps != [] && WellFormed(ps)
    ensures var r := After(t.(broken := true), Arrivals(ps));
            var shift := t.lastDts + t.lastDuration - ps[0].dts;
            && Out(t, [Break] + (Arrivals(ps) + fs)) == ShiftAll(ps, shift) + Out(r, fs)
            && CanGoOn(r) && r.lastDts + r.lastDuration == ps[|ps| - 1].dts + shift + ps[|ps| - 1].duration
  {
    assert ps[|ps| - 1].duration > 0;
    hide Out, After, Arrivals, ShiftAll, WellFormed;
    SegmentAlone(t.(broken := true), ps);
    OutBreakThen(t, Arrivals(ps), fs);
  }

  lemma SegmentsHead(segs: seq<seq<Packet>>)
    requires segs != []
    ensures Segments(segs) == [Break] + (Arrivals(segs[0]) + Segments(segs[1..]))
  {
  }

  lemma JoinedHead(at: int, segs: seq<seq<Packet>>)
    requires AllWellFormed(segs) && segs != []
    ensures segs[0] != []
    ensures var shift := at - segs[0][0].dts;
            var last := segs[0][|segs[0]| - 1];
            Joined(at, segs) == ShiftAll(segs[0], shift) + Joined(last.dts + shift + last.duration, segs[1..])
  {
    assert WellFormed(segs[0]);
  }

  lemma SegmentAlone(b: Track, ps: seq<Packet>)
    requires b.broken && CanGoOn(b) && WellFormed(ps)
    ensures var shift := b.lastDts + b.lastDuration - ps[0].dts;
            var last, r := ps[|ps| - 1], After(b, Arrivals(ps));
            && Out(b, Arrivals(ps)) == ShiftAll(ps, shift)
            && r.lastDts == last.dts + shift && r.lastDuration == last.duration
  {
    hide Out, After, Kept, Increasing, ShiftAll, Arrivals;
    var r := Rebased(b, ps[0]);
    NothingSkipped(r, ps);
    OneShift(b, ps);
    AfterSegment(b, ps);
  }

  /**
   The same from a fresh handle: the first segment, which no discontinuity precedes, is forwarded with
   its own timestamps, and all others follow it without a gap.
   */
  lemma SeamlessFromFresh(segs: seq<seq<Packet>>)
    requires segs != [] && AllWellFormed(segs)
    ensures Out(FRESH, Arrivals(segs[0]) + Segments(segs[1..])) == Joined(segs[0][0].dts, segs)
  {
    hide Out, After, Kept, Increasing, ShiftAll, Arrivals;
    var ps := segs[0];
    assert WellFormed(ps);
    NothingSkipped(FRESH, ps);
    OneShift(FRESH, ps);
    AfterSegment(FRESH, ps);
    OutAppend(FRESH, Arrivals(ps), Segments(segs[1..]));
    Seamless(After(FRESH, Arrivals(ps)), segs[1..]);
  }
}
