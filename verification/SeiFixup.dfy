/**
 The elementary stream rewritten so that no SEI unit comes late: when its size is kept, and what a
 second scan finds in it.
 */
module SeiFixup {
  import opened AnnexB
  import opened Reframing
  import opened SeiOrder

  // ---------- bytes ----------

  predicate Within(ns: seq<Nal>, n: nat) {
    forall k :: 0 <= k < |ns| ==> ns[k].start <= ns[k].end <= n
  }

  function Bytes(es: seq<Byte>, ns: seq<Nal>): (b: seq<Byte>)
    requires Within(ns, |es|)
  {
    if ns == [] then [] else
      Bytes(es, ns[..|ns| - 1]) + es[ns[|ns| - 1].start..ns[|ns| - 1].end]
  }

  lemma BytesSnoc(es: seq<Byte>, ns: seq<Nal>, n: Nal)
    requires Within(ns, |es|) && n.start <= n.end <= |es|
    ensures Within(ns + [n], |es|) && Bytes(es, ns + [n]) == Bytes(es, ns) + es[n.start..n.end]
  {
    assert (ns + [n])[..|ns|] == ns;
  }

  lemma {:induction false} BytesConcat(es: seq<Byte>, a: seq<Nal>, b: seq<Nal>)
    requires Within(a, |es|) && Within(b, |es|)
    ensures Within(a + b, |es|) && Bytes(es, a + b) == Bytes(es, a) + Bytes(es, b)
    decreases |b|
  {
    if b == [] {
      assert a + b == a;
    } else {
      var front := b[..|b| - 1];
      hide Bytes;
      assert a + b == (a + front) + [b[|b| - 1]] && b == front + [b[|b| - 1]];
      BytesConcat(es, a, front);
      BytesSnoc(es, front, b[|b| - 1]);
      BytesSnoc(es, a + front, b[|b| - 1]);
    }
  }

  // ---------- the reordered elementary stream ----------

  lemma {:induction false} ScanValid(b: seq<Byte>, pos: nat)
    requires pos <= |b|
    ensures forall k :: 0 <= k < |Scan(b, pos)| ==> ValidNal(b, Scan(b, pos)[k]) && pos <= Scan(b, pos)[k].start
    decreases |b| - pos
  {
    var s := NextCode(b, pos);
    if s < |b| {
      NextCodeSkips(b, s + CodeLen(b, s));
      ScanValid(b, NextCode(b, s + CodeLen(b, s)));
    }
  }

  /** A maximal non-empty stretch between start codes. */
  predicate ValidNal(b: seq<Byte>, n: Nal) {
    && n.end <= |b| && IsCode(b, n.start)
    && n.start + CodeLen(b, n.start) < n.end
    && n.typ == b[n.start + CodeLen(b, n.start)] % 32
    && NoCode(b, n.start + CodeLen(b, n.start), n.end)
  }

  /** A unit begins with its start code; the five low bits of the byte behind it are its type. */
  lemma UnitIs(b: seq<Byte>, k: nat)
    requires k < |Scan(b, 0)|
    ensures var n := Scan(b, 0)[k];
            && n.start + 3 < n.end <= |b| && b[n.start] == 0 && b[n.start + 1] == 0
            && (if b[n.start + 2] == 1 then n.typ == b[n.start + 3] % 32
                else b[n.start + 2] == 0 && b[n.start + 3] == 1 && n.start + 4 < n.end && n.typ == b[n.start + 4] % 32)
  {
    hide Scan;
    ScanValid(b, 0);
  }

  predicate AllValid(b: seq<Byte>, ns: seq<Nal>) {
    forall k :: 0 <= k < |ns| ==> ValidNal(b, ns[k])
  }

  lemma {:induction false} ArrangedKeepsAll(nals: seq<Nal>)
    ensures multiset(Arranged(nals)) == multiset(nals)
    decreases |nals|
  {
    if nals != [] {
      var k := CutAt(nals);
      assert nals == nals[..k] + nals[k..];
      ArrangeKeepsAll(nals[..k]);
      ArrangedKeepsAll(nals[k..]);
    }
  }

  lemma SameUnitsValid(b: seq<Byte>, ns: seq<Nal>, ms: seq<Nal>)
    requires multiset(ns) == multiset(ms) && AllValid(b, ns)
    ensures AllValid(b, ms)
  {
    forall k | 0 <= k < |ms| ensures ValidNal(b, ms[k]) {
      assert ms[k] in multiset(ms);
      assert ms[k] in ns;
    }
  }

  lemma ArrangedValid(es: seq<Byte>)
    ensures AllValid(es, Scan(es, 0)) && AllValid(es, Arranged(Scan(es, 0)))
  {
    ScanValid(es, 0);
    ArrangedKeepsAll(Scan(es, 0));
    SameUnitsValid(es, Scan(es, 0), Arranged(Scan(es, 0)));
  }

  /** The bytes before the first unit. */
  function LeadBytes(es: seq<Byte>): (lead: seq<Byte>)
    requires Scan(es, 0) != []
    ensures lead <= es
  {
    ScanValid(es, 0);
    es[..Scan(es, 0)[0].start]
  }

  /** The elementary stream with every access unit rearranged. */
  function Fixed(es: seq<Byte>): (b: seq<Byte>)
    requires Scan(es, 0) != []
  {
    ArrangedValid(es);
    LeadBytes(es) + Bytes(es, Arranged(Scan(es, 0)))
  }

  /** Every unit ends where the next one starts. */
  predicate Tiled(nals: seq<Nal>) {
    forall k :: 0 <= k < |nals| - 1 ==> nals[k].end == nals[k + 1].start
  }

  function TotalLen(ns: seq<Nal>): (n: int) {
    if ns == [] then 0 else TotalLen(ns[..|ns| - 1]) + ns[|ns| - 1].end - ns[|ns| - 1].start
  }

  lemma {:induction false} BytesLen(es: seq<Byte>, ns: seq<Nal>)
    requires Within(ns, |es|)
    ensures |Bytes(es, ns)| == TotalLen(ns)
  {
    if ns != [] {
      BytesLen(es, ns[..|ns| - 1]);
    }
  }

  lemma {:induction false} TotalLenConcat(a: seq<Nal>, b: seq<Nal>)
    ensures TotalLen(a + b) == TotalLen(a) + TotalLen(b)
    decreases |b|
  {
    if b == [] {
      assert a + b == a;
    } else {
      assert (a + b)[..|a + b| - 1] == a + b[..|b| - 1];
      TotalLenConcat(a, b[..|b| - 1]);
    }
  }

  lemma {:induction false} SplitLen(ns: seq<Nal>)
    ensures TotalLen(OnlySei(ns)) + TotalLen(NoSei(ns)) == TotalLen(ns)
  {
    if ns != [] {
      var front, last := ns[..|ns| - 1], ns[|ns| - 1];
      SplitLen(front);
      TotalLenConcat(OnlySei(front), [last]);
      TotalLenConcat(NoSei(front), [last]);
      assert TotalLen([last]) == last.end - last.start;
    }
  }

  lemma {:induction false} ArrangedLen(nals: seq<Nal>)
    ensures TotalLen(Arranged(nals)) == TotalLen(nals)
    decreases |nals|
  {
    if nals != [] {
      var k := CutAt(nals);
      var seg := nals[..k];
      var f := FirstPicture(seg);
      assert nals == seg + nals[k..] && seg == seg[..f] + seg[f..];
      TotalLenConcat(seg, nals[k..]);
      TotalLenConcat(Arrange(seg), Arranged(nals[k..]));
      TotalLenConcat(seg[..f], seg[f..]);
      TotalLenConcat(seg[..f] + OnlySei(seg[f..]), NoSei(seg[f..]));
      TotalLenConcat(seg[..f], OnlySei(seg[f..]));
      SplitLen(seg[f..]);
      ArrangedLen(nals[k..]);
    }
  }

  predicate Ascending(nals: seq<Nal>) {
    && (forall k :: 0 <= k < |nals| ==> nals[k].start <= nals[k].end)
    && (forall k :: 0 <= k < |nals| - 1 ==> nals[k].end <= nals[k + 1].start)
  }

  lemma AscendingNone()
    ensures Ascending([])
  {
  }

  lemma AscendingCons(n: Nal, ns: seq<Nal>)
    requires n.start <= n.end && Ascending(ns) && (ns != [] ==> n.end <= ns[0].start)
    ensures Ascending([n] + ns)
  {
    var all := [n] + ns;
    forall k | 0 <= k < |all| - 1 ensures all[k].end <= all[k + 1].start {
      assert k > 0 ==> ns[k - 1].end <= ns[k - 1 + 1].start;
    }
  }

  /** Where a round reports a unit, and where the next one begins: at a start code or the end. */
  lemma RoundBounds(b: seq<Byte>, pos: nat)
    requires pos <= |b|
    ensures match RoundAt(b, pos)
            case Stop => NextCode(b, pos) == |b|
            case Pass(next) => NextCode(b, next) == next < |b|
            case Report(nal, next) =>
              pos <= nal.start <= nal.end == next <= |b| && (next < |b| ==> NextCode(b, next) == next)
  {
  }

  lemma {:induction false} ScanAscending(b: seq<Byte>, pos: nat)
    requires pos <= |b|
    ensures Ascending(Scan(b, pos))
    ensures Scan(b, pos) != [] ==> Scan(b, pos)[|Scan(b, pos)| - 1].end == |b| && pos <= Scan(b, pos)[0].start
    ensures Scan(b, pos) == [] ==> NextCode(b, pos) == |b|
    decreases |b| - pos
  {
    hide Scan, RoundAt, NextCode, IsCode, CodeLen, Ascending;
    ScanRound(b, pos);
    RoundBounds(b, pos);
    match RoundAt(b, pos)
    case Stop => AscendingNone();
    case Pass(next) => ScanAscending(b, next);
    case Report(nal, next) =>
      ScanAscending(b, next);
      AscendingCons(nal, Scan(b, next));
  }

  lemma {:induction false} TiledIffFull(nals: seq<Nal>)
    requires nals != [] && Ascending(nals)
    ensures TotalLen(nals) <= nals[|nals| - 1].end - nals[0].start
    ensures Tiled(nals) <==> TotalLen(nals) == nals[|nals| - 1].end - nals[0].start
    decreases |nals|
  {
    var front := nals[..|nals| - 1];
    if front != [] {
      TiledIffFull(front);
      assert Tiled(nals) <==> Tiled(front) && front[|front| - 1].end == nals[|nals| - 1].start;
    } else {
      assert TotalLen(front) == 0;
    }
  }

  /** The length guard lets exactly the gapless streams through. */
  lemma LengthGuard(es: seq<Byte>)
    requires Scan(es, 0) != []
    ensures |Fixed(es)| == |es| <==> Tiled(Scan(es, 0))
  {
    var nals := Scan(es, 0);
    ArrangedValid(es);
    BytesLen(es, Arranged(nals));
    ArrangedLen(nals);
    ScanAscending(es, 0);
    TiledIffFull(nals);
  }

  // ---------- reading the result again ----------

  function Units(es: seq<Byte>, ns: seq<Nal>): (us: seq<seq<Byte>>)
    requires Within(ns, |es|)
    ensures |us| == |ns|
  {
    seq(|ns|, i requires 0 <= i < |ns| => es[ns[i].start..ns[i].end])
  }

  lemma {:induction false} BytesAreUnits(es: seq<Byte>, ns: seq<Nal>)
    requires Within(ns, |es|)
    ensures Bytes(es, ns) == Join(Units(es, ns))
    decreases |ns|
  {
    if ns != [] {
      assert ns == [ns[0]] + ns[1..];
      BytesConcat(es, [ns[0]], ns[1..]);
      BytesAreUnits(es, ns[1..]);
      assert Units(es, ns)[1..] == Units(es, ns[1..]);
      assert Bytes(es, [ns[0]]) == Units(es, ns)[0];
    }
  }

  lemma UnitOfNal(es: seq<Byte>, n: Nal)
    requires ValidNal(es, n)
    ensures var u := es[n.start..n.end]; IsUnit(u) && UnitType(u) == n.typ
  {
    var u := es[n.start..n.end];
    var c := CodeLen(es, n.start);
    forall i: nat | c <= i < |u| ensures !IsCode(u, i) {
      assert !IsCode(es, n.start + i);
    }
  }

  lemma {:induction false} SpansLate(es: seq<Byte>, ns: seq<Nal>, off: nat, seen: bool)
    requires AllValid(es, ns)
    ensures AllUnits(Units(es, ns)) && Late(Spans(Units(es, ns), off), seen) == Late(ns, seen)
    decreases |ns|
  {
    forall k | 0 <= k < |ns| ensures IsUnit(Units(es, ns)[k]) && UnitType(Units(es, ns)[k]) == ns[k].typ {
      UnitOfNal(es, ns[k]);
    }
    if ns != [] {
      hide ValidNal, IsUnit, Late, Spans, UnitType, SeenAfter;
      var us := Units(es, ns);
      assert us[1..] == Units(es, ns[1..]);
      SpansLate(es, ns[1..], off + |us[0]|, SeenAfter(ns[0].typ, seen));
      LateHead(ns, seen);
      SpansHead(us, off);
      LateHead(Spans(us, off), seen);
    }
  }

  lemma LeadOf(es: seq<Byte>)
    requires Scan(es, 0) != []
    ensures Lead(LeadBytes(es), 0)
  {
    ScanValid(es, 0);
    var s := Scan(es, 0)[0].start;
    assert es == es[..s] + es[s..];
    assert IsCode(es[s..], 0);
    LeadOfScan(es[..s], es[s..], 0);
  }

  /** The units of the fixed stream, as they were assembled. */
  function FixedUnits(es: seq<Byte>): (us: seq<seq<Byte>>)
    requires Scan(es, 0) != []
    ensures AllUnits(us) && us != []
  {
    ArrangedValid(es);
    SpansLate(es, Arranged(Scan(es, 0)), 0, false);
    ArrangedKeepsAll(Scan(es, 0));
    assert Scan(es, 0)[0] in multiset(Arranged(Scan(es, 0)));
    Units(es, Arranged(Scan(es, 0)))
  }

  /**
   Fixing once is enough, for every stream: however the scanner reads the fixed stream, it finds
   no late SEI in it. Nothing is assumed about trailing zeros or truncated units.
   */
  lemma FixedNotLate(es: seq<Byte>)
    requires Scan(es, 0) != []
    ensures !Late(Scan(Fixed(es), 0), false)
  {
    var lead, us := LeadBytes(es), FixedUnits(es);
    ArrangedValid(es);
    BytesAreUnits(es, Arranged(Scan(es, 0)));
    LeadOf(es);
    JoinStarts(us);
    AfterLead(lead, Join(us), 0, false);
    LateJoin(us, false);
    SpansLate(es, Arranged(Scan(es, 0)), 0, false);
    ArrangedNotLate(Scan(es, 0));
  }

  /** Exactly when the fixed stream is read back as the rearranged list of units. */
  lemma FixedReadBack(es: seq<Byte>)
    requires Scan(es, 0) != []
    ensures Scan(Fixed(es), 0) == Spans(FixedUnits(es), |LeadBytes(es)|) <==>
            Smooth(LeadBytes(es), FixedUnits(es)[0]) && Joinable(FixedUnits(es))
  {
    ArrangedValid(es);
    BytesAreUnits(es, Arranged(Scan(es, 0)));
    LeadOf(es);
    ReadBack(LeadBytes(es), FixedUnits(es));
  }

  /** No trailing zeros anywhere, and no bare start code at the end of the stream. */
  predicate CleanEnds(es: seq<Byte>)
    requires Scan(es, 0) != []
  {
    ScanValid(es, 0);
    && (LeadBytes(es) == [] || LeadBytes(es)[|LeadBytes(es)| - 1] != 0)
    && (forall k :: 0 <= k < |Scan(es, 0)| ==> es[Scan(es, 0)[k].end - 1] != 0)
    && !(|es| >= 3 && es[|es| - 3] == 0 && es[|es| - 2] == 0 && es[|es| - 1] == 1)
  }

  predicate CleanOnItsOwn(u: seq<Byte>) {
    IsUnit(u) && Closed(u) && u[|u| - 1] != 0
  }

  lemma CleanUnit(es: seq<Byte>, n: Nal)
    requires ValidNal(es, n) && es[n.end - 1] != 0
    requires !(|es| >= 3 && es[|es| - 3] == 0 && es[|es| - 2] == 0 && es[|es| - 1] == 1)
    ensures CleanOnItsOwn(es[n.start..n.end])
  {
    UnitOfNal(es, n);
    var u := es[n.start..n.end];
    forall i: nat | CodeLen(u, 0) <= i < |u| ensures !HoldsCode(u, i) {
      assert !IsCode(es, n.start + i);
    }
  }

  lemma CleanFixedUnit(es: seq<Byte>, k: nat)
    requires Scan(es, 0) != [] && CleanEnds(es) && k < |FixedUnits(es)|
    ensures CleanOnItsOwn(FixedUnits(es)[k])
  {
    hide Scan, Arranged;
    var nals, ns := Scan(es, 0), Arranged(Scan(es, 0));
    ArrangedValid(es);
    ArrangedKeepsAll(nals);
    assert ns[k] in multiset(ns);
    assert ns[k] in nals;
    CleanUnit(es, ns[k]);
  }

  /** A condition on the input alone under which the fixed stream is read back faithfully. */
  lemma CleanReadBack(es: seq<Byte>)
    requires Scan(es, 0) != [] && CleanEnds(es)
    ensures Scan(Fixed(es), 0) == Spans(FixedUnits(es), |LeadBytes(es)|)
  {
    hide Scan, Arranged, FixedUnits, LeadBytes;
    var us := FixedUnits(es);
    forall k | 0 <= k < |us| ensures CleanOnItsOwn(us[k]) {
      CleanFixedUnit(es, k);
    }
    assert forall k :: 0 <= k < |us| - 1 ==> Closed(us[k]) && Smooth(us[k], us[k + 1]);
    FixedReadBack(es);
  }

  lemma SwapPair(a: Nal, b: Nal)
    requires IsPicture(a.typ) && b.typ == SEI
    ensures Arranged([a, b]) == [b, a]
  {
    var nals := [a, b];
    assert CutAt(nals) == 2 && nals[..2] == nals && nals[2..] == [];
    assert nals[..1] == [a] && nals[0..] == nals;
    assert OnlySei([a]) == [] && NoSei([a]) == [a];
    assert OnlySei(nals) == [b] && NoSei(nals) == [a];
    assert Arranged([]) == [];
  }

  const TRAILING_ZERO: seq<Byte> := [0, 0, 1, 0x65, 0x88, 0, 0, 1, 6, 5, 0]

  lemma ScanTrailingZero()
    ensures Scan(TRAILING_ZERO, 0) == [Nal(0, 5, 5), Nal(5, 11, 6)]
  {
    var es := TRAILING_ZERO;
    NextCodeIs(es, 3, 5);
    NextCodeIs(es, 8, 11);
    assert RoundAt(es, 5) == Report(Nal(5, 11, 6), 11);
    assert RoundAt(es, 0) == Report(Nal(0, 5, 5), 5);
    assert Scan(es, 11) == [];
    assert Scan(es, 5) == [Nal(5, 11, 6)] + Scan(es, 11);
  }

  /** A trailing zero in the last unit is enough to lose the boundary after the move. */
  lemma TrailingZeroNotReadBack()
    ensures var es := TRAILING_ZERO;
            && Scan(es, 0) != [] && Late(Scan(es, 0), false) && Tiled(Scan(es, 0))
            && Scan(Fixed(es), 0) != Spans(FixedUnits(es), |LeadBytes(es)|)
  {
    hide Scan, NextCode, RoundAt, Arranged;
    var es := TRAILING_ZERO;
    ScanTrailingZero();
    SwapPair(Nal(0, 5, 5), Nal(5, 11, 6));
    FixedReadBack(es);
    assert FixedUnits(es)[0] == [0, 0, 1, 6, 5, 0];
    assert FixedUnits(es)[1] == [0, 0, 1, 0x65, 0x88];
    LateExample();
  }

  lemma LateExample()
    ensures Late([Nal(0, 5, 5), Nal(5, 11, 6)], false)
  {
    assert [Nal(0, 5, 5), Nal(5, 11, 6)][1..] == [Nal(5, 11, 6)];
  }
}
