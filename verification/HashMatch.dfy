/**
 The comparison of two segments by the hashes of their audio packets: a hash of the shorter list is
 looked for in a window of the longer one, and a few may be missing.
 */
module HashMatch {
  import opened Common

  type Hash = int

  const MAX_AMISMATCH: int := 10

  /** Position j of the longer list is in the window around position i of the shorter one. */
  predicate InWindow(diff: int, size: int, i: int, j: int) {
    Max(0, i - (diff + 1)) <= j < Min(size, i + (diff + 1))
  }

  predicate HasPartner(first: seq<Hash>, second: seq<Hash>, i: int)
    requires 0 <= i < |first|
  {
    exists j :: 0 <= j < |second| && InWindow(|second| - |first|, |second|, i, j) && first[i] == second[j]
  }

  /** How many of the first n hashes of the shorter list have no partner. */
  function Lonely(first: seq<Hash>, second: seq<Hash>, n: nat): (k: nat)
    requires n <= |first|
    ensures k <= n
  {
    if n == 0 then 0 else Lonely(first, second, n - 1) + if HasPartner(first, second, n - 1) then 0 else 1
  }

  /** On a tie the second argument is searched for in the first. */
  function Shorter(a: seq<Hash>, b: seq<Hash>): seq<Hash> {
    if |a| < |b| then a else b
  }

  function Longer(a: seq<Hash>, b: seq<Hash>): seq<Hash> {
    if |a| < |b| then b else a
  }

  predicate Accepts(a: seq<Hash>, b: seq<Hash>) {
    var first, second := Shorter(a, b), Longer(a, b);
    |second| - |first| <= MAX_AMISMATCH && Lonely(first, second, |first|) < MAX_AMISMATCH
  }

  method IsValidMd5Data(info1: seq<Hash>, info2: seq<Hash>) returns (valid: bool)
    ensures valid <==> Accepts(info1, info2)
  {
    var first := if |info1| < |info2| then info1 else info2;
    var second := if |info1| >= |info2| then info1 else info2;
    var packetDiff := |second| - |first|;
    if packetDiff > MAX_AMISMATCH {
      return false;
    }
    var matchingCount := 0;
    for i := 0 to |first|
      invariant matchingCount == i - Lonely(first, second, i)
    {
      var scanScope := packetDiff + 1;
      var start := Max(0, i - scanScope);
      var end := Min(|second|, i + scanScope);
      var j := start;
      ghost var found := false;
      while j < end
        invariant start <= j && !found
        invariant forall k :: start <= k < j && k < end ==> first[i] != second[k]
      {
        if first[i] == second[j] {
          assert InWindow(packetDiff, |second|, i, j);
          matchingCount := matchingCount + 1;
          found := true;
          break;
        }
        j := j + 1;
      }
      assert found <==> HasPartner(first, second, i);
    }
    var realDiff := |first| - matchingCount;
    valid := realDiff < MAX_AMISMATCH;
  }

  // ---------- completeness ----------

  /** Where each entry of the shorter list comes from in the longer one: in order, none used twice. */
  predicate Embeds(e: seq<nat>, small: nat, large: nat) {
    && |e| == small
    && (forall i :: 0 <= i < small ==> e[i] < large)
    && (forall i, j :: 0 <= i < j < small ==> e[i] < e[j])
  }

  /** How many of the first n entries were altered on the way. */
  function Altered(a: seq<Hash>, b: seq<Hash>, e: seq<nat>, n: nat): (k: nat)
    requires n <= |a| && Embeds(e, |a|, |b|)
  {
    if n == 0 then 0 else Altered(a, b, e, n - 1) + if a[n - 1] == b[e[n - 1]] then 0 else 1
  }

  lemma {:induction false} EmbeddingFromBelow(e: seq<nat>, small: nat, large: nat, i: nat)
    requires Embeds(e, small, large) && i < small
    ensures i <= e[i]
    decreases i
  {
    if i > 0 {
      EmbeddingFromBelow(e, small, large, i - 1);
      assert e[i - 1] < e[i];
    }
  }

  lemma {:induction false} EmbeddingFromAbove(e: seq<nat>, small: nat, large: nat, i: nat)
    requires Embeds(e, small, large) && i < small
    ensures e[i] + (small - i) <= large
    decreases small - i
  {
    if i + 1 < small {
      EmbeddingFromAbove(e, small, large, i + 1);
      assert e[i] < e[i + 1];
    }
  }

  /** An entry that survived unaltered is found in the window. */
  lemma SurvivorHasPartner(a: seq<Hash>, b: seq<Hash>, e: seq<nat>, i: nat)
    requires Embeds(e, |a|, |b|) && i < |a| && a[i] == b[e[i]]
    ensures HasPartner(a, b, i)
  {
    EmbeddingFromBelow(e, |a|, |b|, i);
    EmbeddingFromAbove(e, |a|, |b|, i);
    assert InWindow(|b| - |a|, |b|, i, e[i]);
  }

  lemma {:induction false} LonelyWereAltered(a: seq<Hash>, b: seq<Hash>, e: seq<nat>, n: nat)
    requires n <= |a| && Embeds(e, |a|, |b|)
    ensures Lonely(a, b, n) <= Altered(a, b, e, n)
  {
    if n > 0 {
      LonelyWereAltered(a, b, e, n - 1);
      if a[n - 1] == b[e[n - 1]] {
        SurvivorHasPartner(a, b, e, n - 1);
      }
    }
  }

  /** Equal lengths leave no freedom: the embedding is the identity. */
  lemma {:induction false} AlteredSwap(a: seq<Hash>, b: seq<Hash>, e: seq<nat>, n: nat)
    requires |a| == |b| && Embeds(e, |a|, |b|) && n <= |a|
    ensures Altered(b, a, e, n) == Altered(a, b, e, n)
  {
    if n > 0 {
      AlteredSwap(a, b, e, n - 1);
      EmbeddingFromBelow(e, |a|, |b|, n - 1);
      EmbeddingFromAbove(e, |a|, |b|, n - 1);
    }
  }

  /**
   Complete: a list made from another by deleting at most 10 entries anywhere and altering at most 9 of
   the rest is accepted, in either order of the arguments.
   */
  lemma Complete(a: seq<Hash>, b: seq<Hash>, e: seq<nat>)
    requires Embeds(e, |a|, |b|) && |b| - |a| <= MAX_AMISMATCH
    requires Altered(a, b, e, |a|) < MAX_AMISMATCH
    ensures Accepts(a, b) && Accepts(b, a)
  {
    LonelyWereAltered(a, b, e, |a|);
    if |a| > 0 {
      EmbeddingFromAbove(e, |a|, |b|, 0);
    }
    if |a| == |b| {
      AlteredSwap(a, b, e, |a|);
      LonelyWereAltered(b, a, e, |b|);
    }
  }

  // ---------- soundness ----------

  /** All indexes below n whose hash has no partner. */
  function LonelyAt(first: seq<Hash>, second: seq<Hash>, n: nat): (s: set<int>)
    requires n <= |first|
  {
    set i | 0 <= i < n && !HasPartner(first, second, i)
  }

  lemma LonelyStep(first: seq<Hash>, second: seq<Hash>, n: nat)
    requires 0 < n <= |first|
    ensures Lonely(first, second, n) == Lonely(first, second, n - 1) + if HasPartner(first, second, n - 1) then 0 else 1
  {
  }

  lemma LonelyAtStep(first: seq<Hash>, second: seq<Hash>, n: nat)
    requires 0 < n <= |first|
    ensures var t := LonelyAt(first, second, n - 1);
            n - 1 !in t && LonelyAt(first, second, n) == if HasPartner(first, second, n - 1) then t else t + {n - 1}
  {
    hide HasPartner;
  }

  lemma {:induction false} LonelyIsSize(first: seq<Hash>, second: seq<Hash>, n: nat)
    requires n <= |first|
    ensures |LonelyAt(first, second, n)| == Lonely(first, second, n)
  {
    if n > 0 {
      hide HasPartner, Lonely, LonelyAt;
      LonelyIsSize(first, second, n - 1);
      LonelyStep(first, second, n);
      LonelyAtStep(first, second, n);
    }
  }

  /** Sound: accepted lists differ in length by at most 10, and at most 9 entries have no equal partner. */
  lemma SoundIff(a: seq<Hash>, b: seq<Hash>)
    ensures var first, second := Shorter(a, b), Longer(a, b);
            Accepts(a, b) <==> |second| - |first| <= 10 && |LonelyAt(first, second, |first|)| <= 9
  {
    LonelyIsSize(Shorter(a, b), Longer(a, b), |Shorter(a, b)|);
  }

  // ---------- the window ----------

  /** n hashes, all different, and the same late by s. */
  function Steady(n: nat): (a: seq<Hash>)
    ensures |a| == n
  {
    seq(n, i => i)
  }

  function Late(n: nat, s: int): (a: seq<Hash>)
    ensures |a| == n
  {
    seq(n, i => i - s)
  }

  lemma LatePartnerIff(n: nat, d: int, s: int, i: nat)
    requires i < n && d >= 0
    ensures HasPartner(Late(n, s), Steady(n + d), i) <==> 0 <= i - s && -d <= s <= d + 1
  {
    if 0 <= i - s && -d <= s <= d + 1 {
      assert InWindow(d, n + d, i, i - s) && Late(n, s)[i] == Steady(n + d)[i - s];
    }
  }

  /**
   How far the window reaches. Against a list longer by d, a list that runs late by s loses at most
   its first s hashes if s is from -d to d + 1, and all of them otherwise.
   */
  lemma {:induction false} WindowReach(n: nat, d: int, s: int, k: nat)
    requires k <= n && d >= 0
    ensures Lonely(Late(n, s), Steady(n + d), k) ==
            if -d <= s <= d + 1 then Max(0, Min(s, k)) else k
  {
    if k > 0 {
      WindowReach(n, d, s, k - 1);
      LatePartnerIff(n, d, s, k - 1);
    }
  }

  // ---------- the order of the arguments ----------

  /** n hashes, all different, and the same late by one. */
  function OnTime(n: nat): (a: seq<Hash>)
    ensures |a| == n
  {
    seq(n, i => i)
  }

  function LateByOne(n: nat): (a: seq<Hash>)
    ensures |a| == n
  {
    seq(n, i => i - 1)
  }

  lemma {:induction false} LateFound(n: nat, k: nat)
    requires k <= n
    ensures Lonely(LateByOne(n), OnTime(n), k) <= 1
  {
    if k > 1 {
      LateFound(n, k - 1);
      assert InWindow(0, n, k - 1, k - 2) && LateByOne(n)[k - 1] == OnTime(n)[k - 2];
    }
  }

  lemma {:induction false} OnTimeNotFound(n: nat, k: nat)
    requires k <= n
    ensures Lonely(OnTime(n), LateByOne(n), k) == k
  {
    if k > 0 {
      OnTimeNotFound(n, k - 1);
      assert !HasPartner(OnTime(n), LateByOne(n), k - 1);
    }
  }

  /** The window reaches one back but none ahead: from ten hashes on, lists of one length can disagree. */
  lemma OrderMatters(n: nat)
    requires n >= MAX_AMISMATCH
    ensures Accepts(OnTime(n), LateByOne(n)) && !Accepts(LateByOne(n), OnTime(n))
  {
    LateFound(n, n);
    OnTimeNotFound(n, n);
  }

  /** All lists of lengths m and n are judged alike in either order. */
  ghost predicate OrderFree(m: nat, n: nat) {
    forall a: seq<Hash>, b: seq<Hash> :: |a| == m && |b| == n ==> (Accepts(a, b) <==> Accepts(b, a))
  }

  /** The order of the arguments never matters if and only if the lengths differ or are below ten. */
  lemma OrderNeverMattersIff(m: nat, n: nat)
    ensures OrderFree(m, n) <==> m != n || m < MAX_AMISMATCH
  {
    if m == n >= MAX_AMISMATCH {
      OrderMatters(n);
      assert |OnTime(n)| == m && |LateByOne(n)| == n;
    }
  }
}
