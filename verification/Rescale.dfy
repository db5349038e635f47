/**
 Time-base conversion: a * b / c rounded to the nearest integer, halves away from zero.
 */
module Rescale {
  /** A positive rational, as every time base and frame rate here is. */
  datatype Rational = Rational(num: int, den: int)

  predicate Positive(q: Rational) {
    q.num > 0 && q.den > 0
  }

  predicate SameRate(a: Rational, b: Rational) {
    a.num * b.den == b.num * a.den
  }

  /** n / c to nearest; the negative side mirrors the positive one. */
  function Round(n: int, c: int): (q: int)
    requires c > 0
  {
    if n >= 0 then (n + c / 2) / c else -((-n + c / 2) / c)
  }

  /** q is an integer nearest to n / c, the one further from zero on a tie. */
  predicate Nearest(n: int, c: int, q: int) {
    if n >= 0 then 2 * (q * c) - c <= 2 * n < 2 * (q * c) + c
    else 2 * (q * c) - c < 2 * n <= 2 * (q * c) + c
  }

  lemma Quotient(x: int, c: int, q: int)
    requires c > 0 && x >= 0 && q == x / c
    ensures q * c <= x < q * c + c
  {
  }

  lemma Halves(c: int, x: int, y: int)
    requires x <= y + c / 2 < x + c
    ensures 2 * x - c <= 2 * y < 2 * x + c
  {
    assert c == 2 * (c / 2) + c % 2;
  }

  lemma Scaled(q: int, r: int, c: int)
    requires c > 0 && q <= r
    ensures q * c <= r * c
  {
  }

  lemma Opposite(q: int, c: int)
    ensures (-q) * c == -(q * c)
  {
  }

  lemma NextMultiple(q: int, c: int)
    ensures (q + 1) * c == q * c + c
  {
  }

  lemma RoundIsNearest(n: int, c: int)
    requires c > 0
    ensures Nearest(n, c, Round(n, c))
  {
    var m := if n >= 0 then n else -n;
    var p := (m + c / 2) / c;
    Quotient(m + c / 2, c, p);
    Halves(c, p * c, m);
    Opposite(p, c);
  }

  lemma NearestInOrder(m: int, n: int, c: int, p: int, q: int)
    requires c > 0 && m <= n && Nearest(m, c, p) && Nearest(n, c, q)
    ensures p <= q
    ensures n >= m + c ==> p + 1 <= q
  {
    if q < p {
      Scaled(q + 1, p, c);
      NextMultiple(q, c);
      assert false;
    }
    if n >= m + c && q <= p {
      Scaled(q, p, c);
      assert false;
    }
  }

  /** Rounding is characterised by Nearest, on every numerator. */
  lemma RoundIff(n: int, c: int, q: int)
    requires c > 0
    ensures Nearest(n, c, q) <==> q == Round(n, c)
  {
    RoundIsNearest(n, c);
    if Nearest(n, c, q) {
      NearestInOrder(n, n, c, q, Round(n, c));
      NearestInOrder(n, n, c, Round(n, c), q);
    }
  }

  /** av_rescale_q: a counted in units of from, counted in units of to. */
  function RescaleQ(a: int, from: Rational, to: Rational): int
    requires Positive(from) && Positive(to)
  {
    MulPositive(from.den, to.num);
    Round(a * (from.num * to.den), from.den * to.num)
  }

  lemma MulPositive(x: int, y: int)
    requires x > 0 && y > 0
    ensures x * y > 0
  {
  }

  /** Instants a and b are at least one tick of the new time base apart. */
  predicate TickApart(a: int, b: int, from: Rational, to: Rational) {
    (b - a) * (from.num * to.den) >= from.den * to.num
  }

  /** Conversion keeps order, and instants a whole tick apart stay distinct. */
  lemma RescaleInOrder(a: int, b: int, from: Rational, to: Rational)
    requires Positive(from) && Positive(to) && a <= b
    ensures RescaleQ(a, from, to) <= RescaleQ(b, from, to)
    ensures TickApart(a, b, from, to) ==> RescaleQ(a, from, to) < RescaleQ(b, from, to)
  {
    var k, c := from.num * to.den, from.den * to.num;
    MulPositive(from.num, to.den);
    MulPositive(from.den, to.num);
    Scaled(a, b, k);
    assert b * k - a * k == (b - a) * k;
    RoundIsNearest(a * k, c);
    RoundIsNearest(b * k, c);
    NearestInOrder(a * k, b * k, c, Round(a * k, c), Round(b * k, c));
  }

  /** Equal rates convert without change, however they are written. */
  lemma RescaleSameRate(a: int, from: Rational, to: Rational)
    requires Positive(from) && Positive(to) && SameRate(from, to)
    ensures RescaleQ(a, from, to) == a
  {
    var c := from.den * to.num;
    MulPositive(from.den, to.num);
    assert from.num * to.den == c;
    RoundIff(a * c, c, a);
  }
}
