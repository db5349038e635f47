/**
 The order of units in an access unit: SEI units that come after picture units are moved before
 the first of them (section 7.4.1.2.3 of ITU-T H.264).
 */
module SeiOrder {
  import opened AnnexB
  import opened Reframing

  // ---------- the new order of units ----------

  function FirstPicture(seg: seq<Nal>): (f: nat)
    ensures f <= |seg|
    ensures f < |seg| ==> IsPicture(seg[f].typ)
    ensures forall k :: 0 <= k < f ==> !IsPicture(seg[k].typ)
  {
    if seg == [] || IsPicture(seg[0].typ) then 0 else 1 + FirstPicture(seg[1..])
  }

  function OnlySei(ns: seq<Nal>): (r: seq<Nal>)
    ensures forall k :: 0 <= k < |r| ==> r[k].typ == SEI
  {
    if ns == [] then [] else
      var rest, last := OnlySei(ns[..|ns| - 1]), ns[|ns| - 1];
      if last.typ == SEI then rest + [last] else rest
  }

  function NoSei(ns: seq<Nal>): (r: seq<Nal>)
    ensures forall k :: 0 <= k < |r| ==> r[k].typ != SEI
  {
    if ns == [] then [] else
      var rest, last := NoSei(ns[..|ns| - 1]), ns[|ns| - 1];
      if last.typ != SEI then rest + [last] else rest
  }

  /** What precedes the first picture unit, then the SEI units that came after it, then the rest. */
  function Arrange(seg: seq<Nal>): (r: seq<Nal>) {
    var f := FirstPicture(seg);
    seg[..f] + OnlySei(seg[f..]) + NoSei(seg[f..])
  }

  predicate Misplaced(seg: seq<Nal>) {
    exists i :: FirstPicture(seg) < i < |seg| && seg[i].typ == SEI
  }

  /** Length of the first access unit: up to the next delimiter after position 0. */
  function CutAt(nals: seq<Nal>): (k: nat)
    requires nals != []
    ensures 1 <= k <= |nals|
    ensures k < |nals| ==> nals[k].typ == DELIMITER
    ensures forall i :: 1 <= i < k ==> nals[i].typ != DELIMITER
  {
    CutFrom(nals, 1)
  }

  function CutFrom(nals: seq<Nal>, i: nat): (k: nat)
    requires 1 <= i <= |nals|
    ensures i <= k <= |nals|
    ensures k < |nals| ==> nals[k].typ == DELIMITER
    ensures forall j :: i <= j < k ==> nals[j].typ != DELIMITER
    decreases |nals| - i
  {
    if i == |nals| || nals[i].typ == DELIMITER then i else CutFrom(nals, i + 1)
  }

  function AccessUnits(nals: seq<Nal>): (segs: seq<seq<Nal>>) {
    if nals == [] then [] else [nals[..CutAt(nals)]] + AccessUnits(nals[CutAt(nals)..])
  }

  function Arranged(nals: seq<Nal>): (r: seq<Nal>) {
    if nals == [] then [] else Arrange(nals[..CutAt(nals)]) + Arranged(nals[CutAt(nals)..])
  }

  lemma {:induction false} SeiConcat(a: seq<Nal>, b: seq<Nal>)
    ensures OnlySei(a + b) == OnlySei(a) + OnlySei(b)
    ensures NoSei(a + b) == NoSei(a) + NoSei(b)
    decreases |b|
  {
    if b == [] {
      assert a + b == a;
    } else {
      var front := b[..|b| - 1];
      assert (a + b)[..|a + b| - 1] == a + front;
      SeiConcat(a, front);
    }
  }

  lemma {:induction false} AllSei(ns: seq<Nal>)
    requires forall k :: 0 <= k < |ns| ==> ns[k].typ == SEI
    ensures OnlySei(ns) == ns && NoSei(ns) == []
  {
    if ns != [] {
      AllSei(ns[..|ns| - 1]);
    }
  }

  lemma {:induction false} NoneSei(ns: seq<Nal>)
    requires forall k :: 0 <= k < |ns| ==> ns[k].typ != SEI
    ensures OnlySei(ns) == [] && NoSei(ns) == ns
  {
    if ns != [] {
      NoneSei(ns[..|ns| - 1]);
    }
  }

  lemma KeepsOrderedUnits(seg: seq<Nal>)
    ensures !Misplaced(seg) ==> Arrange(seg) == seg
  {
    if !Misplaced(seg) {
      var f := FirstPicture(seg);
      assert forall k :: f < k < |seg| ==> seg[k].typ != SEI;
      NoneSei(seg[f..]);
    }
  }

  /** The order of the SEI units and the order of all other units are each preserved. */
  lemma ArrangeIsStable(seg: seq<Nal>)
    ensures OnlySei(Arrange(seg)) == OnlySei(seg)
    ensures NoSei(Arrange(seg)) == NoSei(seg)
  {
    var f := FirstPicture(seg);
    var s, n := OnlySei(seg[f..]), NoSei(seg[f..]);
    assert seg == seg[..f] + seg[f..];
    SeiConcat(seg[..f], seg[f..]);
    SeiConcat(seg[..f], s);
    SeiConcat(seg[..f] + s, n);
    AllSei(s);
    NoneSei(n);
  }

  /**
   All that stands before the first picture unit stays where it is, so the SEI units that move end up
   directly before that picture.
   */
  lemma ArrangeKeepsLead(seg: seq<Nal>, k: nat)
    requires k < |seg| && forall j :: 0 <= j <= k ==> !(1 <= seg[j].typ <= 5)
    ensures k < |Arrange(seg)| && Arrange(seg)[k] == seg[k]
  {
    var f := FirstPicture(seg);
    assert f < |seg| ==> IsPicture(seg[f].typ);
    assert k < f;
  }

  lemma ArrangeKeepsAll(seg: seq<Nal>)
    ensures multiset(Arrange(seg)) == multiset(seg)
  {
    var f := FirstPicture(seg);
    assert seg == seg[..f] + seg[f..];
    SplitKeepsAll(seg[f..]);
  }

  lemma {:induction false} SplitKeepsAll(ns: seq<Nal>)
    ensures multiset(OnlySei(ns)) + multiset(NoSei(ns)) == multiset(ns)
  {
    if ns != [] {
      SplitKeepsAll(ns[..|ns| - 1]);
      assert ns == ns[..|ns| - 1] + [ns[|ns| - 1]];
    }
  }

  // ---------- when the order changes, and what it changes to ----------

  predicate SeenEnd(ns: seq<Nal>, seen: bool) {
    if ns == [] then seen else SeenEnd(ns[1..], SeenAfter(ns[0].typ, seen))
  }

  lemma {:induction false} LateConcat(a: seq<Nal>, b: seq<Nal>, seen: bool)
    ensures Late(a + b, seen) == (Late(a, seen) || Late(b, SeenEnd(a, seen)))
    decreases |a|
  {
    if a == [] {
      assert a + b == b;
    } else {
      assert (a + b)[1..] == a[1..] + b;
      LateConcat(a[1..], b, SeenAfter(a[0].typ, seen));
    }
  }

  lemma {:induction false} NoPictureNotLate(ns: seq<Nal>)
    requires forall k :: 0 <= k < |ns| ==> !IsPicture(ns[k].typ)
    ensures !Late(ns, false) && !SeenEnd(ns, false)
  {
    if ns != [] {
      NoPictureNotLate(ns[1..]);
    }
  }

  lemma {:induction false} NoSeiNotLate(ns: seq<Nal>, seen: bool)
    requires forall k :: 0 <= k < |ns| ==> ns[k].typ != SEI
    ensures !Late(ns, seen)
  {
    if ns != [] {
      NoSeiNotLate(ns[1..], SeenAfter(ns[0].typ, seen));
    }
  }

  lemma ArrangeNotLate(seg: seq<Nal>)
    ensures !Late(Arrange(seg), false)
  {
    var f := FirstPicture(seg);
    var s, n := OnlySei(seg[f..]), NoSei(seg[f..]);
    NoPictureNotLate(seg[..f] + s);
    NoSeiNotLate(n, false);
    LateConcat(seg[..f] + s, n, false);
  }

  /** Inside one access unit, a late SEI is a unit the closure finds after the first picture unit. */
  lemma UnitLateIff(seg: seq<Nal>)
    requires forall k :: 1 <= k < |seg| ==> seg[k].typ != DELIMITER
    ensures Late(seg, false) == Misplaced(seg)
  {
    var f := FirstPicture(seg);
    assert seg == seg[..f] + seg[f..];
    NoPictureNotLate(seg[..f]);
    LateConcat(seg[..f], seg[f..], false);
    if f < |seg| {
      PictureOpens(seg, f);
    }
  }

  lemma PictureOpens(seg: seq<Nal>, f: nat)
    requires f < |seg| && IsPicture(seg[f].typ)
    requires forall k :: f < k < |seg| ==> seg[k].typ != DELIMITER
    ensures Late(seg[f..], false) <==> exists i :: f < i < |seg| && seg[i].typ == SEI
  {
    var rest := seg[f + 1..];
    assert seg[f..][1..] == rest;
    LateWhileSeen(rest);
    if i :| f < i < |seg| && seg[i].typ == SEI {
      assert rest[i - f - 1].typ == SEI;
    }
  }

  lemma {:induction false} LateWhileSeen(ns: seq<Nal>)
    requires forall k :: 0 <= k < |ns| ==> ns[k].typ != DELIMITER
    ensures Late(ns, true) <==> exists i :: 0 <= i < |ns| && ns[i].typ == SEI
  {
    if ns != [] {
      LateWhileSeen(ns[1..]);
      if i :| 0 <= i < |ns[1..]| && ns[1..][i].typ == SEI {
        assert ns[i + 1].typ == SEI;
      }
      if i :| 0 <= i < |ns| && ns[i].typ == SEI && i > 0 {
        assert ns[1..][i - 1].typ == SEI;
      }
    }
  }

  /** A stream that goes on with a delimiter starts over. */
  lemma DelimiterResets(ns: seq<Nal>, seen: bool)
    requires ns == [] || ns[0].typ == DELIMITER
    ensures Late(ns, seen) == Late(ns, false)
  {
  }

  lemma CutLate(nals: seq<Nal>)
    requires nals != []
    ensures var k := CutAt(nals);
            Late(nals, false) == (Misplaced(nals[..k]) || Late(nals[k..], false))
  {
    var k := CutAt(nals);
    assert nals == nals[..k] + nals[k..];
    LateConcat(nals[..k], nals[k..], false);
    UnitLateIff(nals[..k]);
    DelimiterResets(nals[k..], SeenEnd(nals[..k], false));
  }

  lemma ArrangeKeepsFirst(seg: seq<Nal>)
    requires seg != []
    ensures |Arrange(seg)| == |seg|
    ensures seg[0].typ == DELIMITER ==> Arrange(seg)[0] == seg[0]
  {
    ArrangeKeepsAll(seg);
    assert |multiset(Arrange(seg))| == |Arrange(seg)| && |multiset(seg)| == |seg|;
  }

  lemma ArrangedStarts(nals: seq<Nal>)
    ensures nals != [] && nals[0].typ == DELIMITER ==> Arranged(nals) != [] && Arranged(nals)[0] == nals[0]
    ensures nals == [] ==> Arranged(nals) == []
  {
    if nals != [] {
      ArrangeKeepsFirst(nals[..CutAt(nals)]);
    }
  }

  /** After the move no SEI follows a picture unit in its access unit. */
  lemma {:induction false} ArrangedNotLate(nals: seq<Nal>)
    ensures !Late(Arranged(nals), false)
    decreases |nals|
  {
    if nals != [] {
      var k := CutAt(nals);
      var seg, rest := Arrange(nals[..k]), Arranged(nals[k..]);
      ArrangeNotLate(nals[..k]);
      ArrangedNotLate(nals[k..]);
      ArrangedStarts(nals[k..]);
      LateConcat(seg, rest, false);
      DelimiterResets(rest, SeenEnd(seg, false));
    }
  }

  /** Nothing moves when no SEI is late. */
  lemma {:induction false} ArrangedKeepsGoodOrder(nals: seq<Nal>)
    ensures !Late(nals, false) <==> Arranged(nals) == nals
    decreases |nals|
  {
    hide Late, Arrange, Misplaced;
    if !Late(nals, false) && nals != [] {
      var k := CutAt(nals);
      CutLate(nals);
      KeepsOrderedUnits(nals[..k]);
      ArrangedKeepsGoodOrder(nals[k..]);
      assert nals == nals[..k] + nals[k..];
    }
    ArrangedNotLate(nals);
  }

  /** "Late" spelled out over positions. */
  lemma {:induction false} LateIff(nals: seq<Nal>)
    ensures Late(nals, false) <==> exists i, j :: LatePair(nals, i, j)
  {
    if i, j :| LatePair(nals, i, j) {
      LateFromPair(nals, i, j, false);
    }
    if Late(nals, false) {
      var j := PairFromLate(nals, false);
      var i :| 0 <= i < j && IsPicture(nals[i].typ) && forall k :: i < k <= j ==> nals[k].typ != DELIMITER;
      assert LatePair(nals, i, j);
    }
  }

  predicate LatePair(nals: seq<Nal>, i: int, j: int) {
    && 0 <= i < j < |nals| && 1 <= nals[i].typ <= 5 && nals[j].typ == 6
    && forall k :: i < k < j ==> nals[k].typ != 9
  }

  lemma {:induction false} LateFromPair(nals: seq<Nal>, i: nat, j: nat, seen: bool)
    requires LatePair(nals, i, j)
    ensures Late(nals, seen)
    decreases i
  {
    if i == 0 {
      assert nals == nals[..j] + nals[j..];
      LateConcat(nals[..j], nals[j..], seen);
      StaysSeen(nals[1..j]);
      assert nals[..j][1..] == nals[1..j];
    } else {
      assert LatePair(nals[1..], i - 1, j - 1);
      LateFromPair(nals[1..], i - 1, j - 1, SeenAfter(nals[0].typ, seen));
    }
  }

  lemma {:induction false} StaysSeen(ns: seq<Nal>)
    requires forall k :: 0 <= k < |ns| ==> ns[k].typ != DELIMITER
    ensures SeenEnd(ns, true)
  {
    if ns != [] {
      StaysSeen(ns[1..]);
    }
  }

  lemma {:induction false} PairFromLate(nals: seq<Nal>, seen: bool) returns (j: nat)
    requires Late(nals, seen)
    ensures j < |nals| && nals[j].typ == SEI
    ensures || (seen && forall k :: 0 <= k <= j ==> nals[k].typ != DELIMITER)
            || exists i :: 0 <= i < j && IsPicture(nals[i].typ) && forall k :: i < k <= j ==> nals[k].typ != DELIMITER
    decreases |nals|
  {
    if nals[0].typ == SEI && seen {
      return 0;
    }
    var seen' := SeenAfter(nals[0].typ, seen);
    var j' := PairFromLate(nals[1..], seen');
    j := j' + 1;
    if seen' && forall k :: 0 <= k <= j' ==> nals[1..][k].typ != DELIMITER {
      assert forall k :: 1 <= k <= j ==> nals[k] == nals[1..][k - 1];
    } else {
      var i :| 0 <= i < j' && IsPicture(nals[1..][i].typ) && forall k :: i < k <= j' ==> nals[1..][k].typ != DELIMITER;
      assert IsPicture(nals[i + 1].typ);
      assert forall k :: i + 1 < k <= j ==> nals[k] == nals[1..][k - 1];
    }
  }

  // ---------- access units stay what they were ----------

  function ArrangeEach(segs: seq<seq<Nal>>): (r: seq<seq<Nal>>)
    ensures |r| == |segs|
    ensures forall k :: 0 <= k < |segs| ==> r[k] == Arrange(segs[k])
  {
    if segs == [] then [] else [Arrange(segs[0])] + ArrangeEach(segs[1..])
  }

  lemma NoInnerDelimiter(seg: seq<Nal>)
    requires seg != [] && forall k :: 1 <= k < |seg| ==> seg[k].typ != DELIMITER
    ensures |Arrange(seg)| == |seg|
    ensures forall k :: 1 <= k < |seg| ==> Arrange(seg)[k].typ != DELIMITER
  {
    ArrangeKeepsFirst(seg);
    var f := FirstPicture(seg);
    var rest := seg[f..];
    forall k | 0 <= k < |NoSei(rest)| ensures NoSei(rest)[k].typ != DELIMITER {
      NoSeiFrom(rest, k);
    }
  }

  lemma {:induction false} NoSeiFrom(ns: seq<Nal>, k: nat)
    requires k < |NoSei(ns)|
    ensures exists i :: 0 <= i < |ns| && ns[i] == NoSei(ns)[k]
  {
    var front := ns[..|ns| - 1];
    if k < |NoSei(front)| {
      NoSeiFrom(front, k);
      var i :| 0 <= i < |front| && front[i] == NoSei(front)[k];
      assert ns[i] == NoSei(ns)[k];
    } else {
      assert ns[|ns| - 1] == NoSei(ns)[k];
    }
  }

  lemma CutIs(nals: seq<Nal>, k: nat)
    requires 1 <= k <= |nals|
    requires k < |nals| ==> nals[k].typ == DELIMITER
    requires forall i :: 1 <= i < k ==> nals[i].typ != DELIMITER
    ensures CutAt(nals) == k
  {
    if CutAt(nals) < |nals| {
      assert nals[CutAt(nals)].typ == DELIMITER;
    }
  }

  /** Cutting the new order at delimiters gives the old access units, each rearranged in itself. */
  lemma {:induction false} AccessUnitsKept(nals: seq<Nal>)
    ensures AccessUnits(Arranged(nals)) == ArrangeEach(AccessUnits(nals))
    decreases |nals|
  {
    if nals != [] {
      var k := CutAt(nals);
      var seg, rest := Arrange(nals[..k]), Arranged(nals[k..]);
      NoInnerDelimiter(nals[..k]);
      ArrangedStarts(nals[k..]);
      CutIs(seg + rest, k);
      assert (seg + rest)[..k] == seg && (seg + rest)[k..] == rest;
      AccessUnitsKept(nals[k..]);
      assert AccessUnits(nals) == [nals[..k]] + AccessUnits(nals[k..]);
    }
  }
}
