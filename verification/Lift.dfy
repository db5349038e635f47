/**
 The least strictly increasing sequence above a given one: each element is raised to at least one
 more than the element before it. Every timestamp clamp of the pipeline refines it.
 */
module Lift {
  import opened Common

  /** AV_NOPTS_VALUE, the smallest 64-bit integer. */
  const NOPTS: int := -0x8000_0000_0000_0000

  /** A timestamp field: undefined, or a number above NOPTS. Overflow at the top is not modelled. */
  type Stamp = t: int | t >= NOPTS witness NOPTS

  predicate Defined(t: int) {
    t > NOPTS
  }

  predicate AllDefined(xs: seq<int>) {
    forall i :: 0 <= i < |xs| ==> Defined(xs[i])
  }

  function Before(prev: int, xs: seq<int>, i: nat): int
    requires i < |xs|
  {
    if i == 0 then prev else xs[i - 1]
  }

  /** Each element exceeds its predecessor, and the first exceeds prev. */
  predicate Climbs(prev: int, xs: seq<int>) {
    forall i :: 0 <= i < |xs| ==> Before(prev, xs, i) < xs[i]
  }

  predicate Above(xs: seq<int>, ys: seq<int>) {
    |xs| == |ys| && forall i :: 0 <= i < |xs| ==> xs[i] <= ys[i]
  }

  /** With prev undefined, prev + 1 is below every defined x, so x itself is kept. */
  function Lifted(prev: int, xs: seq<int>): (ys: seq<int>)
    ensures |ys| == |xs|
    decreases xs
  {
    if xs == [] then [] else
      var y := Max(xs[0], prev + 1);
      [y] + Lifted(y, xs[1..])
  }

  lemma {:induction false} LiftedAt(prev: int, xs: seq<int>, i: nat)
    requires i < |xs|
    ensures var ys := Lifted(prev, xs);
            ys[i] == Max(xs[i], Before(prev, ys, i) + 1)
    decreases i
  {
    var y := Max(xs[0], prev + 1);
    if i > 0 {
      LiftedAt(y, xs[1..], i - 1);
    }
  }

  /** The result climbs and lies above both prev and its input. */
  lemma LiftedClimbs(prev: int, xs: seq<int>)
    ensures Climbs(prev, Lifted(prev, xs)) && Above(xs, Lifted(prev, xs))
  {
    var ys := Lifted(prev, xs);
    forall i | 0 <= i < |xs|
      ensures Before(prev, ys, i) < ys[i] && xs[i] <= ys[i]
    {
      LiftedAt(prev, xs, i);
    }
  }

  /** And it is the least such sequence. */
  lemma {:induction false} LiftedLeast(prev: int, xs: seq<int>, zs: seq<int>, i: nat)
    requires i < |xs| && Climbs(prev, zs) && Above(xs, zs)
    ensures Lifted(prev, xs)[i] <= zs[i]
  {
    LiftedAt(prev, xs, i);
    assert Before(prev, zs, i) < zs[i] && xs[i] <= zs[i];
    if i > 0 {
      LiftedLeast(prev, xs, zs, i - 1);
    }
  }

  /** The clamp changes nothing exactly when there was nothing to repair. */
  lemma LiftedSameIff(prev: int, xs: seq<int>)
    ensures Lifted(prev, xs) == xs <==> Climbs(prev, xs)
  {
    var ys := Lifted(prev, xs);
    LiftedClimbs(prev, xs);
    if Climbs(prev, xs) {
      forall i | 0 <= i < |xs|
        ensures ys[i] == xs[i]
      {
        LiftedLeast(prev, xs, xs, i);
      }
      assert ys == xs;
    }
  }

  /** v is the maximum of x[j] + (n - j) over all j up to n. */
  ghost predicate IsPeak(xs: seq<int>, n: nat, v: int)
    requires n < |xs|
  {
    && (forall j :: 0 <= j <= n ==> xs[j] + (n - j) <= v)
    && (exists j :: 0 <= j <= n && xs[j] + (n - j) == v)
  }

  lemma {:induction false} LiftedPeak(prev: int, xs: seq<int>, n: nat)
    requires n < |xs| && prev < xs[0]
    ensures IsPeak(xs, n, Lifted(prev, xs)[n])
  {
    LiftedAt(prev, xs, n);
    var v := Lifted(prev, xs)[n];
    if n == 0 {
      assert xs[0] + (0 - 0) == v;
    } else {
      LiftedPeak(prev, xs, n - 1);
      var u := Lifted(prev, xs)[n - 1];
      var j :| 0 <= j <= n - 1 && xs[j] + (n - 1 - j) == u;
      assert xs[j] + (n - j) == u + 1;
      assert xs[n] + (n - n) == xs[n];
      forall k | 0 <= k <= n
        ensures xs[k] + (n - k) <= v
      {
        assert k < n ==> xs[k] + (n - 1 - k) <= u;
      }
    }
  }

  /** From an undefined start the whole run has the closed form. */
  lemma LiftedFromUndefined(xs: seq<int>)
    requires AllDefined(xs)
    ensures forall n :: 0 <= n < |xs| ==> IsPeak(xs, n, Lifted(NOPTS, xs)[n])
    ensures AllDefined(Lifted(NOPTS, xs))
  {
    LiftedClimbs(NOPTS, xs);
    forall n | 0 <= n < |xs|
      ensures IsPeak(xs, n, Lifted(NOPTS, xs)[n])
    {
      assert Defined(xs[0]);
      LiftedPeak(NOPTS, xs, n);
    }
  }
}
