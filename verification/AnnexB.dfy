/**
 Byte-stream framing of Annex B of ITU-T H.264: start codes and the unit scanner.
 */
module AnnexB {

  type Byte = b: int | 0 <= b < 256

  datatype Nal = Nal(start: nat, end: nat, typ: nat)

  const SEI := 6
  const DELIMITER := 9

  predicate IsPicture(t: nat) {
    1 <= t <= 5
  }

  // ---------- start codes ----------

  /** A start code at i, followed by at least one byte: the scanner never sees a bare one at the end. */
  predicate IsCode(b: seq<Byte>, i: nat) {
    && i + 3 < |b| && b[i] == 0 && b[i + 1] == 0
    && (b[i + 2] == 1 || (i + 4 < |b| && b[i + 2] == 0 && b[i + 3] == 1))
  }

  /** A start code whose own bytes lie inside b, whether or not anything follows it. */
  predicate HoldsCode(b: seq<Byte>, i: nat) {
    && i + 2 < |b| && b[i] == 0 && b[i + 1] == 0
    && (b[i + 2] == 1 || (i + 3 < |b| && b[i + 2] == 0 && b[i + 3] == 1))
  }

  function CodeLen(b: seq<Byte>, i: nat): (n: nat)
    requires i + 2 < |b|
  {
    if b[i + 2] == 1 then 3 else 4
  }

  predicate NoCode(b: seq<Byte>, lo: nat, hi: nat) {
    forall i: nat :: lo <= i < hi ==> !IsCode(b, i)
  }

  /** The first start code at or after from; |b| when there is none. */
  function NextCode(b: seq<Byte>, from: nat): (n: nat)
    requires from <= |b|
    ensures from <= n <= |b|
    ensures n < |b| ==> IsCode(b, n)
    decreases |b| - from
  {
    if from == |b| || IsCode(b, from) then from else NextCode(b, from + 1)
  }

  lemma {:induction false} NextCodeSkips(b: seq<Byte>, from: nat)
    requires from <= |b|
    ensures NoCode(b, from, NextCode(b, from))
    decreases |b| - from
  {
    if from < |b| && !IsCode(b, from) {
      NextCodeSkips(b, from + 1);
    }
  }

  lemma NextCodeIs(b: seq<Byte>, from: nat, n: nat)
    requires from <= n <= |b|
    requires n < |b| ==> IsCode(b, n)
    requires NoCode(b, from, n)
    ensures NextCode(b, from) == n
  {
    NextCodeSkips(b, from);
  }

  method FindStartCode(b: seq<Byte>, from: nat) returns (start: int, scLen: nat)
    ensures start >= 0 ==> from <= start && IsCode(b, start) && scLen == CodeLen(b, start)
    ensures start >= 0 ==> NoCode(b, from, start)
    ensures start < 0 ==> start == -1 && scLen == 0 && NoCode(b, from, |b|)
  {
    var i := from;
    while i + 3 < |b|
      invariant from <= i
      invariant NoCode(b, from, i)
    {
      if b[i] != 0 || b[i + 1] != 0 {
        i := i + 1;
        continue;
      }
      if b[i + 2] == 1 {
        return i, 3;
      }
      if i + 4 < |b| && b[i + 2] == 0 && b[i + 3] == 1 {
        return i, 4;
      }
      i := i + 1;
    }
    return -1, 0;
  }

  // ---------- the scanner ----------

  /** What one round of the scanner does: stop, pass over an empty unit, or report a unit. */
  datatype Round = Stop | Pass(next: nat) | Report(nal: Nal, next: nat)

  function RoundAt(b: seq<Byte>, pos: nat): (r: Round)
    requires pos <= |b|
    ensures !r.Stop? ==> pos < r.next <= |b|
  {
    var s := NextCode(b, pos);
    if s == |b| then Stop else
      var body := s + CodeLen(b, s);
      var e := NextCode(b, body);
      if body < e then Report(Nal(s, e, b[body] % 32), e) else Pass(e)
  }

  /** Units from pos on. A start code directly followed by another one yields no unit. */
  function Scan(b: seq<Byte>, pos: nat): (nals: seq<Nal>)
    requires pos <= |b|
    decreases |b| - pos
  {
    match RoundAt(b, pos)
    case Stop => []
    case Pass(next) => Scan(b, next)
    case Report(nal, next) => [nal] + Scan(b, next)
  }

  lemma ScanRound(b: seq<Byte>, pos: nat)
    requires pos <= |b|
    ensures Scan(b, pos) == match RoundAt(b, pos)
                            case Stop => []
                            case Pass(next) => Scan(b, next)
                            case Report(nal, next) => [nal] + Scan(b, next)
  {
  }

  lemma ScanNothing(b: seq<Byte>)
    ensures Scan(b, |b|) == []
  {
  }

  method ScanNALs(es: seq<Byte>) returns (nals: seq<Nal>)
    ensures nals == Scan(es, 0)
  {
    hide Scan, NextCode, IsCode, NoCode;
    nals := [];
    var pos := 0;
    ScanNothing(es);
    while pos < |es|
      invariant pos <= |es|
      invariant nals + Scan(es, pos) == Scan(es, 0)
    {
      ghost var before := nals;
      ScanRound(es, pos);
      var start, scLen := FindStartCode(es, pos);
      if start < 0 {
        NextCodeIs(es, pos, |es|);
        break;
      }
      NextCodeIs(es, pos, start);
      var nextStart, _ := FindStartCode(es, start + scLen);
      var end := |es|;
      if nextStart >= 0 {
        end := nextStart;
      }
      NextCodeIs(es, start + scLen, end);
      if start + scLen < end {
        nals := nals + [Nal(start, end, es[start + scLen] % 32)];
      }
      Regroup(before, nals[|before|..], Scan(es, end));
      if nextStart < 0 {
        break;
      }
      pos := nextStart;
    }
  }

  lemma Regroup<T>(a: seq<T>, b: seq<T>, c: seq<T>)
    ensures a + b + c == a + (b + c)
  {
  }
}
