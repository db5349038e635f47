/**
 Concatenating Annex B units: which list of units the scanner reads back from a stream that was
 assembled from the units of another stream.
 */
module Reframing {
  import opened AnnexB

  // ---------- units ----------

  /** A start code, a non-empty body, and no start code inside when scanned on its own. */
  predicate IsUnit(u: seq<Byte>) {
    IsCode(u, 0) && NoCode(u, CodeLen(u, 0), |u|)
  }

  /** No start code bytes in the body, not even bare ones at its very end. */
  predicate Closed(u: seq<Byte>)
    requires IsCode(u, 0)
  {
    NoHeld(u, CodeLen(u, 0), |u|)
  }

  predicate NoHeld(b: seq<Byte>, lo: nat, hi: nat) {
    forall i: nat :: lo <= i < hi ==> !HoldsCode(b, i)
  }

  /** The zero before a three-byte start code would be read as part of a four-byte one. */
  predicate Smooth(a: seq<Byte>, t: seq<Byte>)
    requires IsCode(t, 0)
  {
    a == [] || a[|a| - 1] != 0 || CodeLen(t, 0) == 4
  }

  function Join(us: seq<seq<Byte>>): (b: seq<Byte>) {
    if us == [] then [] else us[0] + Join(us[1..])
  }

  predicate AllUnits(us: seq<seq<Byte>>) {
    forall k :: 0 <= k < |us| ==> IsUnit(us[k])
  }

  /** Every junction between two neighbours is read back where it was made. */
  predicate Joinable(us: seq<seq<Byte>>)
    requires AllUnits(us)
  {
    forall k :: 0 <= k < |us| - 1 ==> Closed(us[k]) && Smooth(us[k], us[k + 1])
  }

  function UnitType(u: seq<Byte>): (t: nat)
    requires IsCode(u, 0)
  {
    u[CodeLen(u, 0)] % 32
  }

  /** The list a faithful scan of lead + Join(us) has to report. */
  function Spans(us: seq<seq<Byte>>, off: nat): (nals: seq<Nal>)
    requires AllUnits(us)
    ensures |nals| == |us|
  {
    if us == [] then [] else [Nal(off, off + |us[0]|, UnitType(us[0]))] + Spans(us[1..], off + |us[0]|)
  }

  // ---------- late SEI ----------

  /** Whether a picture unit has been seen in the current access unit, after a unit of type t. */
  predicate SeenAfter(t: nat, seen: bool) {
    t != DELIMITER && (IsPicture(t) || seen)
  }

  /** Some SEI follows a picture unit with no delimiter in between. */
  predicate Late(nals: seq<Nal>, seen: bool) {
    nals != [] && ((nals[0].typ == SEI && seen) || Late(nals[1..], SeenAfter(nals[0].typ, seen)))
  }

  // ---------- start codes across a junction ----------

  lemma CodeInSuffix(a: seq<Byte>, t: seq<Byte>, i: nat)
    ensures IsCode(a + t, |a| + i) <==> IsCode(t, i)
    ensures IsCode(t, i) ==> CodeLen(a + t, |a| + i) == CodeLen(t, i)
  {
    var s := a + t;
    assert forall k: nat {:trigger s[|a| + i + k]} :: i + k < |t| ==> s[|a| + i + k] == t[i + k];
  }

  lemma CodeInPrefix(a: seq<Byte>, t: seq<Byte>, i: nat)
    requires IsCode(t, 0) && i < |a|
    ensures IsCode(a + t, i) <==> HoldsCode(a, i) || (i == |a| - 1 && !Smooth(a, t))
    ensures HoldsCode(a, i) ==> CodeLen(a + t, i) == CodeLen(a, i)
    ensures i == |a| - 1 && !Smooth(a, t) ==> CodeLen(a + t, i) == 4
  {
  }

  lemma NextInSuffix(a: seq<Byte>, t: seq<Byte>, k: nat)
    requires k <= |t|
    ensures NextCode(a + t, |a| + k) == |a| + NextCode(t, k)
  {
    var n := NextCode(t, k);
    NextCodeSkips(t, k);
    CodeInSuffix(a, t, n);
    forall i: nat | |a| + k <= i < |a| + n ensures !IsCode(a + t, i) {
      CodeInSuffix(a, t, i - |a|);
    }
    NextCodeIs(a + t, |a| + k, |a| + n);
  }

  function ShiftNal(n: Nal, d: nat): (r: Nal) {
    Nal(n.start + d, n.end + d, n.typ)
  }

  lemma RoundInSuffix(a: seq<Byte>, t: seq<Byte>, k: nat)
    requires k <= |t|
    ensures RoundAt(a + t, |a| + k) ==
            match RoundAt(t, k)
            case Stop => Stop
            case Pass(next) => Pass(|a| + next)
            case Report(nal, next) => Report(ShiftNal(nal, |a|), |a| + next)
  {
    NextInSuffix(a, t, k);
    var s := NextCode(t, k);
    if s < |t| {
      CodeInSuffix(a, t, s);
      NextInSuffix(a, t, s + CodeLen(t, s));
    }
  }

  /** Scanning from |a| on sees only t. */
  lemma {:induction false} ScanSuffix(a: seq<Byte>, t: seq<Byte>, k: nat)
    requires k <= |t|
    ensures Scan(a + t, |a| + k) == Shift(Scan(t, k), |a|)
    decreases |t| - k
  {
    hide NextCode, IsCode, CodeLen, RoundAt, Scan, Shift, ShiftNal;
    RoundInSuffix(a, t, k);
    ScanRound(t, k);
    ScanRound(a + t, |a| + k);
    match RoundAt(t, k)
    case Stop => ShiftNone(|a|);
    case Pass(next) => ScanSuffix(a, t, next);
    case Report(nal, next) =>
      ScanSuffix(a, t, next);
      ShiftCons(nal, Scan(t, next), |a|);
  }

  function Shift(nals: seq<Nal>, d: nat): (r: seq<Nal>)
    ensures |r| == |nals|
  {
    if nals == [] then [] else
      [ShiftNal(nals[0], d)] + Shift(nals[1..], d)
  }

  lemma ShiftNone(d: nat)
    ensures Shift([], d) == []
  {
  }

  lemma ShiftCons(n: Nal, ns: seq<Nal>, d: nat)
    ensures Shift([n] + ns, d) == [ShiftNal(n, d)] + Shift(ns, d)
  {
    assert ([n] + ns)[1..] == ns;
  }

  lemma {:induction false} ShiftLate(nals: seq<Nal>, d: nat, seen: bool)
    ensures Late(Shift(nals, d), seen) == Late(nals, seen)
  {
    if nals != [] {
      ShiftLate(nals[1..], d, SeenAfter(nals[0].typ, seen));
    }
  }

  lemma {:induction false} SpansShift(us: seq<seq<Byte>>, d: nat, off: nat)
    requires AllUnits(us)
    ensures Spans(us, d + off) == Shift(Spans(us, off), d)
  {
    if us != [] {
      SpansShift(us[1..], d, off + |us[0]|);
    }
  }

  function NextHeld(b: seq<Byte>, from: nat): (n: nat)
    requires from <= |b|
    ensures from <= n <= |b|
    ensures n < |b| ==> HoldsCode(b, n)
    decreases |b| - from
  {
    if from == |b| || HoldsCode(b, from) then from else NextHeld(b, from + 1)
  }

  lemma {:induction false} NextHeldSkips(b: seq<Byte>, from: nat)
    requires from <= |b|
    ensures NoHeld(b, from, NextHeld(b, from))
    decreases |b| - from
  {
    if from < |b| && !HoldsCode(b, from) {
      NextHeldSkips(b, from + 1);
    }
  }

  /** The first start code found from inside a, when a unit follows a. */
  lemma NextAcross(a: seq<Byte>, t: seq<Byte>, from: nat)
    requires from <= |a| && IsCode(t, 0)
    ensures NextCode(a + t, from) ==
            if NextHeld(a, from) < |a| then NextHeld(a, from)
            else if from < |a| && !Smooth(a, t) then |a| - 1
            else |a|
  {
    var h := NextHeld(a, from);
    NextHeldSkips(a, from);
    var n := if h < |a| then h else if from < |a| && !Smooth(a, t) then |a| - 1 else |a|;
    forall i: nat | from <= i < n ensures !IsCode(a + t, i) {
      CodeInPrefix(a, t, i);
    }
    if n < |a| {
      CodeInPrefix(a, t, n);
    } else {
      CodeInSuffix(a, t, 0);
    }
    NextCodeIs(a + t, from, n);
  }

  /** A place from which the scanner, going on, has only t to report. */
  predicate AtJunction(a: seq<Byte>, t: seq<Byte>, p: nat)
    requires IsCode(t, 0)
  {
    || p == |a|
    || (HoldsCode(a, p) && p + CodeLen(a, p) == |a|)
    || (p == |a| - 1 && !Smooth(a, t))
  }

  lemma JunctionRound(a: seq<Byte>, t: seq<Byte>, p: nat)
    requires IsCode(t, 0) && AtJunction(a, t, p)
    ensures p <= |a|
    ensures HoldsCode(a, p) ==> RoundAt(a + t, p) == Pass(|a|)
    ensures p == |a| - 1 ==>
              match RoundAt(a + t, |a|)
              case Stop => false
              case Pass(next) => RoundAt(a + t, p) == Pass(next)
              case Report(nal, next) => RoundAt(a + t, p) == Report(Nal(p, nal.end, nal.typ), next)
  {
    CodeInSuffix(a, t, 0);
    if p < |a| {
      CodeInPrefix(a, t, p);
      assert NextCode(a + t, p) == p;
    }
    assert NextCode(a + t, |a|) == |a|;
  }

  lemma ResumeLate(a: seq<Byte>, t: seq<Byte>, p: nat, seen: bool)
    requires IsCode(t, 0) && AtJunction(a, t, p)
    ensures p <= |a| && Late(Scan(a + t, p), seen) == Late(Scan(t, 0), seen)
  {
    JunctionRound(a, t, p);
    ScanSuffix(a, t, 0);
    ShiftLate(Scan(t, 0), |a|, seen);
  }

  lemma UnitRound(u: seq<Byte>, t: seq<Byte>)
    requires IsUnit(u) && IsCode(t, 0)
    ensures var c := CodeLen(u, 0);
            var p := NextCode(u + t, c);
            && AtJunction(u, t, p)
            && RoundAt(u + t, 0) == (if c < p then Report(Nal(0, p, UnitType(u)), p) else Pass(p))
            && (c == p ==> UnitType(u) == 0)
            && (p == |u| <==> Closed(u) && Smooth(u, t))
  {
    var c := CodeLen(u, 0);
    NextAcross(u, t, c);
    NextHeldSkips(u, c);
    CodeInPrefix(u, t, 0);
    var h := NextHeld(u, c);
    assert h < |u| ==> !IsCode(u, h);
  }

  lemma LoneRound(u: seq<Byte>)
    requires IsUnit(u)
    ensures Scan(u, 0) == [Nal(0, |u|, UnitType(u))]
  {
    NextCodeIs(u, CodeLen(u, 0), |u|);
    assert RoundAt(u, 0) == Report(Nal(0, |u|, UnitType(u)), |u|);
  }

  lemma JoinStarts(us: seq<seq<Byte>>)
    requires AllUnits(us) && us != []
    ensures IsCode(Join(us), 0) && CodeLen(Join(us), 0) == CodeLen(us[0], 0)
  {
    assert IsUnit(us[0]);
  }

  /** However the junctions are read, assembling units never adds or removes a late SEI. */
  lemma {:induction false} LateJoin(us: seq<seq<Byte>>, seen: bool)
    requires AllUnits(us)
    ensures Late(Scan(Join(us), 0), seen) == Late(Spans(us, 0), seen)
    decreases us
  {
    if |us| == 1 {
      assert Join(us) == us[0];
      LoneRound(us[0]);
      assert Spans(us, 0) == Scan(us[0], 0);
    } else if us != [] {
      hide Scan, Late, Spans, Shift, Join, IsUnit, UnitType, SeenAfter;
      LateStep(us, seen);
      SpansHead(us, 0);
      LateHead(Spans(us, 0), seen);
      var after := SeenAfter(UnitType(us[0]), seen);
      LateJoin(us[1..], after);
      SpansShift(us[1..], |us[0]|, 0);
      ShiftLate(Spans(us[1..], 0), |us[0]|, after);
    }
  }

  lemma LateStep(us: seq<seq<Byte>>, seen: bool)
    requires AllUnits(us) && |us| > 1
    ensures IsUnit(us[0])
    ensures Late(Scan(Join(us), 0), seen) ==
            ((UnitType(us[0]) == SEI && seen) || Late(Scan(Join(us[1..]), 0), SeenAfter(UnitType(us[0]), seen)))
  {
    var u, t := us[0], Join(us[1..]);
    JoinStarts(us[1..]);
    UnitRound(u, t);
    var p := NextCode(u + t, CodeLen(u, 0));
    ResumeLate(u, t, p, SeenAfter(UnitType(u), seen));
  }

  /** The scanner reads the units back exactly when every junction is clean. */
  lemma {:induction false} ScanJoin(us: seq<seq<Byte>>)
    requires AllUnits(us)
    ensures Scan(Join(us), 0) == Spans(us, 0) <==> Joinable(us)
    decreases us
  {
    if |us| == 1 {
      assert Join(us) == us[0];
      LoneRound(us[0]);
      assert Spans(us, 0) == Scan(us[0], 0);
    } else if us != [] {
      var u, t := us[0], Join(us[1..]);
      JoinStarts(us[1..]);
      ScanJoinStep(us);
      ScanJoin(us[1..]);
      assert Joinable(us) <==> Closed(u) && Smooth(u, us[1]) && Joinable(us[1..]) by {
        JoinableStep(us);
      }
    }
  }

  lemma JoinableStep(us: seq<seq<Byte>>)
    requires AllUnits(us) && |us| > 1
    ensures Joinable(us) <==> Closed(us[0]) && Smooth(us[0], us[1]) && Joinable(us[1..])
  {
    if Joinable(us) {
      forall k | 0 <= k < |us[1..]| - 1 ensures Closed(us[1..][k]) && Smooth(us[1..][k], us[1..][k + 1]) {
        assert us[1..][k] == us[k + 1] && us[1..][k + 1] == us[k + 2];
      }
    }
    if Closed(us[0]) && Smooth(us[0], us[1]) && Joinable(us[1..]) {
      forall k | 0 <= k < |us| - 1 ensures Closed(us[k]) && Smooth(us[k], us[k + 1]) {
        if k > 0 {
          assert us[1..][k - 1] == us[k] && us[1..][k] == us[k + 1];
        }
      }
    }
  }

  lemma JoinHead(us: seq<seq<Byte>>)
    requires us != []
    ensures Join(us) == us[0] + Join(us[1..])
  {
  }

  lemma SpansHead(us: seq<seq<Byte>>, off: nat)
    requires AllUnits(us) && us != []
    ensures Spans(us, off) == [Nal(off, off + |us[0]|, UnitType(us[0]))] + Spans(us[1..], off + |us[0]|)
  {
  }

  lemma LateHead(nals: seq<Nal>, seen: bool)
    requires nals != []
    ensures Late(nals, seen) == ((nals[0].typ == SEI && seen) || Late(nals[1..], SeenAfter(nals[0].typ, seen)))
  {
  }

  lemma ScanJoinStep(us: seq<seq<Byte>>)
    requires AllUnits(us) && |us| > 1
    requires IsCode(Join(us[1..]), 0)
    ensures Scan(Join(us), 0) == Spans(us, 0) <==>
            Closed(us[0]) && Smooth(us[0], Join(us[1..])) && Scan(Join(us[1..]), 0) == Spans(us[1..], 0)
  {
    hide Scan, Closed, Smooth, NextCode, NoCode, CodeLen, Join, Spans, Shift, UnitType;
    var u, t := us[0], Join(us[1..]);
    JoinHead(us);
    SpansHead(us, 0);
    if Closed(u) && Smooth(u, t) {
      CleanJunction(u, t);
      SpansShift(us[1..], |u|, 0);
      ShiftInjective(Scan(t, 0), Spans(us[1..], 0), |u|);
      ConsInjective(Nal(0, |u|, UnitType(u)), Shift(Scan(t, 0), |u|), Spans(us[1..], |u|));
    } else {
      UnclearJunction(u, t);
    }
  }

  lemma CleanJunction(u: seq<Byte>, t: seq<Byte>)
    requires IsUnit(u) && IsCode(t, 0) && Closed(u) && Smooth(u, t)
    ensures Scan(u + t, 0) == [Nal(0, |u|, UnitType(u))] + Shift(Scan(t, 0), |u|)
  {
    UnitRound(u, t);
    ScanSuffix(u, t, 0);
  }

  lemma UnclearJunction(u: seq<Byte>, t: seq<Byte>)
    requires IsUnit(u) && IsCode(t, 0) && !(Closed(u) && Smooth(u, t))
    ensures Scan(u + t, 0) != [] ==> Scan(u + t, 0)[0].start != 0 || Scan(u + t, 0)[0].end != |u|
  {
    UnitRound(u, t);
    ScanFrom(u + t, NextCode(u + t, CodeLen(u, 0)));
  }

  lemma ConsInjective<T>(x: T, a: seq<T>, b: seq<T>)
    ensures [x] + a == [x] + b <==> a == b
  {
    assert ([x] + a)[1..] == a && ([x] + b)[1..] == b;
  }

  lemma {:induction false} ScanFrom(b: seq<Byte>, pos: nat)
    requires pos <= |b|
    ensures forall k :: 0 <= k < |Scan(b, pos)| ==> pos <= Scan(b, pos)[k].start
    decreases |b| - pos
  {
    match RoundAt(b, pos)
    case Stop =>
    case Pass(next) => ScanFrom(b, next);
    case Report(_, next) => ScanFrom(b, next);
  }

  lemma {:induction false} ShiftInjective(a: seq<Nal>, b: seq<Nal>, d: nat)
    ensures Shift(a, d) == Shift(b, d) ==> a == b
  {
    if a != [] && b != [] && Shift(a, d) == Shift(b, d) {
      assert Shift(a, d)[0] == Shift(b, d)[0];
      assert Shift(a, d)[1..] == Shift(b, d)[1..];
      ShiftInjective(a[1..], b[1..], d);
      assert a == [a[0]] + a[1..] && b == [b[0]] + b[1..];
    }
  }

  // ---------- bytes before the first unit ----------

  /** From pos on, a holds nothing but a run of bare start codes that reaches its end, if any. */
  predicate Lead(a: seq<Byte>, pos: nat)
    requires pos <= |a|
    decreases |a| - pos
  {
    var p := NextHeld(a, pos);
    p == |a| || (var q := p + CodeLen(a, p); (q == |a| || HoldsCode(a, q)) && Lead(a, q))
  }

  lemma SkipTo(b: seq<Byte>, pos: nat)
    requires pos <= |b|
    ensures Scan(b, pos) == Scan(b, NextCode(b, pos))
  {
    assert NextCode(b, NextCode(b, pos)) == NextCode(b, pos);
    assert RoundAt(b, pos) == RoundAt(b, NextCode(b, pos));
  }

  lemma LeadRound(a: seq<Byte>, t: seq<Byte>, pos: nat)
    requires IsCode(t, 0) && pos <= |a| && NextHeld(a, pos) < |a|
    ensures var s := NextHeld(a, pos);
            var q := s + CodeLen(a, s);
            && NextCode(a + t, pos) == s && CodeLen(a + t, s) == CodeLen(a, s) && q <= |a|
            && (q == |a| ==> Smooth(a, t))
  {
    NextAcross(a, t, pos);
    CodeInPrefix(a, t, NextHeld(a, pos));
  }

  /** What precedes the first unit of a stream is such a lead. */
  lemma {:induction false} LeadOfScan(a: seq<Byte>, t: seq<Byte>, pos: nat)
    requires IsCode(t, 0) && pos <= |a|
    requires Scan(a + t, pos) != [] && Scan(a + t, pos)[0].start == |a|
    ensures Lead(a, pos) && (pos < |a| ==> Smooth(a, t))
    decreases |a| - pos
  {
    if NextHeld(a, pos) < |a| {
      LeadRound(a, t, pos);
      var s := NextHeld(a, pos);
      var q := s + CodeLen(a, s);
      assert RoundAt(a + t, pos) == Pass(q);
      LeadOfScan(a, t, q);
      if q < |a| {
        CodeInPrefix(a, t, q);
      }
    } else if pos < |a| && !Smooth(a, t) {
      NextAcross(a, t, pos);
      CodeInPrefix(a, t, |a| - 1);
      ScanFrom(a + t, NextCode(a + t, |a| + 3));
      assert false;
    }
  }

  /** A lead is read over whatever unit comes next, and never hides or makes a late SEI. */
  lemma {:induction false} AfterLead(a: seq<Byte>, t: seq<Byte>, pos: nat, seen: bool)
    requires IsCode(t, 0) && pos <= |a| && Lead(a, pos)
    ensures Late(Scan(a + t, pos), seen) == Late(Scan(t, 0), seen)
    ensures Smooth(a, t) ==> Scan(a + t, pos) == Shift(Scan(t, 0), |a|)
    decreases |a| - pos
  {
    if NextHeld(a, pos) < |a| {
      LeadRound(a, t, pos);
      var s := NextHeld(a, pos);
      var q := s + CodeLen(a, s);
      if q < |a| {
        CodeInPrefix(a, t, q);
      } else {
        CodeInSuffix(a, t, 0);
      }
      assert RoundAt(a + t, pos) == Pass(q);
      AfterLead(a, t, q, seen);
    } else {
      NextAcross(a, t, pos);
      SkipTo(a + t, pos);
      ResumeLate(a, t, NextCode(a + t, pos), seen);
      ScanSuffix(a, t, 0);
    }
  }

  lemma LeadReadBack(lead: seq<Byte>, t: seq<Byte>, want: seq<Nal>)
    requires IsCode(t, 0) && Lead(lead, 0)
    requires want != [] && want[0].start == 0
    ensures Scan(lead + t, 0) == Shift(want, |lead|) <==> Smooth(lead, t) && Scan(t, 0) == want
  {
    hide Scan, Lead, NextCode, HoldsCode;
    AfterLead(lead, t, 0, false);
    ShiftInjective(Scan(t, 0), want, |lead|);
    if Scan(lead + t, 0) == Shift(want, |lead|) {
      assert Shift(want, |lead|)[0].start == |lead|;
      LeadOfScan(lead, t, 0);
    }
  }

  /**
   The exact condition under which a reassembled stream is read back as assembled: no unit but the
   last ends in bare start code bytes, and no zero stands right before a three-byte start code.
   */
  lemma ReadBack(lead: seq<Byte>, us: seq<seq<Byte>>)
    requires AllUnits(us) && us != [] && Lead(lead, 0)
    ensures Scan(lead + Join(us), 0) == Spans(us, |lead|) <==> Smooth(lead, us[0]) && Joinable(us)
  {
    hide Scan, Joinable, Lead, IsUnit, NoCode, HoldsCode, Join;
    JoinStarts(us);
    ScanJoin(us);
    SpansShift(us, |lead|, 0);
    assert Spans(us, 0)[0].start == 0;
    LeadReadBack(lead, Join(us), Spans(us, 0));
  }
}
