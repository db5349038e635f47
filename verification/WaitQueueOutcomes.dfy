/**
 What the calls of the blocking queue hand out and leave behind, and that disposal is final.
 */
module WaitQueueOutcomes {
  import opened WaitQueue
  import opened WaitQueueSteps
  import opened WaitQueueRuns

  /** got was handed out from the front of the queue. */
  predicate HandsOut(st: State, r: State, got: seq<Item>) {
    r.taken == st.taken + got && st.items == got + r.items
  }

  // ---------- taking ----------

  /** What a thread takes with its next step, by number. */
  predicate TakesUpTo(pc: Pc, n: nat) {
    match pc
    case Inside(Take(n', _)) => n' == n
    case Waiting(_, WokenTake(n', _)) => n' == n
    case _ => false
  }

  /**
   A Poll for n items, woken or not, is handed the first n of the queue; if there are fewer, it is
   handed all of them. It never gets none.
   */
  lemma PollGetsAsMany(st: State, t: Tid, c: Choice, n: nat) returns (got: seq<Item>)
    requires Inv(st) && Enabled(st, t, c) && TakesUpTo(PcOf(st, t), n)
    ensures var r := Apply(st, t, c); HandsOut(st, r, got) && (|got| == n || r.items == [])
    ensures 1 <= |got| <= n
  {
    InvGivesBasis(st, t);
    assert ThreadInv(st, t);
    got := st.items[..Count(n, |st.items|)];
  }

  /** TakeUntil is handed the items up to the first one the checker refuses, and no further. */
  lemma TakeUntilStopsAtRefusal(st: State, t: Tid, c: Choice) returns (got: seq<Item>)
    requires Inv(st) && Enabled(st, t, c) && PcOf(st, t).Inside? && PcOf(st, t).at.TakeWhile?
    ensures var r, accept := Apply(st, t, c), PcOf(st, t).at.accept;
            && HandsOut(st, r, got)
            && (forall i :: 0 <= i < |got| ==> got[i] in accept)
            && (r.items != [] ==> r.items[0] !in accept)
  {
    InvGivesBasis(st, t);
    assert ThreadInv(st, t);
    got := st.items[..Accepted(st.items, PcOf(st, t).at.accept)];
  }

  /** Dispose is handed everything, and leaves neither items nor waiters. */
  lemma DisposeGetsAll(st: State, t: Tid, c: Choice)
    requires Inv(st) && Enabled(st, t, c) && PcOf(st, t).Inside? && PcOf(st, t).at.Drop?
    ensures var r := Apply(st, t, c);
            HandsOut(st, r, st.items) && r.items == [] && r.waiters == [] && r.disposed
  {
    InvGivesBasis(st, t);
    assert ThreadInv(st, t);
  }

  // ---------- putting and serving ----------

  /** Put appends all its items at the end. */
  lemma PutAppendsAll(st: State, t: Tid, c: Choice)
    requires Inv(st) && Enabled(st, t, c) && PcOf(st, t).Inside? && PcOf(st, t).at.Append?
    ensures var r, xs := Apply(st, t, c), PcOf(st, t).at.xs;
            r.items == st.items + xs && r.put == st.put + xs && r.taken == st.taken
  {
    InvGivesBasis(st, t);
    assert ThreadInv(st, t);
  }

  /** Waiters are served in the order in which they began to wait. */
  lemma ServesLongestWaiting(st: State, t: Tid, c: Choice)
    requires Inv(st) && Enabled(st, t, c) && PcOf(st, t).Inside? && PcOf(st, t).at.Serve?
    ensures var r := Apply(st, t, c);
            if st.waiters == [] then PcOf(r, t) == Inside(Release) && r.waiters == []
            else PcOf(r, t) == Inside(AddTo(st.waiters[0])) && [st.waiters[0]] + r.waiters == st.waiters
  {
  }

  lemma {:induction false} WithoutConcat(a: seq<Sid>, b: seq<Sid>, s: Sid)
    ensures Without(a + b, s) == Without(a, s) + Without(b, s)
    ensures Without([], s) == [] && Without([s], s) == [] && forall x :: x != s ==> Without([x], s) == [x]
  {
    if a == [] {
      assert a + b == b;
    } else {
      assert (a + b)[1..] == a[1..] + b;
      WithoutConcat(a[1..], b, s);
    }
  }

  /** Others join at the end of the line, and leave it without changing its order. */
  lemma LineKeepsOrder(st: State, t: Tid, c: Choice)
    requires Enabled(st, t, c) && AtEntry(PcOf(st, t))
    ensures var r := Apply(st, t, c);
            match PcOf(st, t).at.call
            case Poll(_, _) => r.waiters == st.waiters || r.waiters == st.waiters + [st.next]
            case Retire(s) => r.waiters == Without(st.waiters, s)
            case _ => r.waiters == st.waiters
    ensures PcOf(st, t).at.call.Poll? ==>
              (Apply(st, t, c).waiters != st.waiters <==> !st.disposed && st.items == [])
  {
    assert |st.waiters + [st.next]| == |st.waiters| + 1;
  }

  // ---------- disposal ----------

  /**
   With the lock in hand, a disposed queue refuses every call but Dispose and gives nothing; otherwise
   Put goes on to append, Poll to take or, with no items, to wait, and TakeUntil to take.
   */
  lemma EntryDecides(st: State, t: Tid, c: Choice)
    requires Enabled(st, t, c) && AtEntry(PcOf(st, t))
    ensures var r := Apply(st, t, c);
            var next := PcOf(r, t);
            && r.items == st.items && r.put == st.put && r.taken == st.taken
            && match PcOf(st, t).at.call
               case Put(xs) => next == Inside(if st.disposed then Release else Append(xs, st.items))
               case Poll(n, timed) =>
                 next == Inside(if st.disposed then Release
                                else if st.items == [] then Park(st.next, n, timed) else Take(n, st.items))
               case Until(accept) => next == Inside(if st.disposed then Release else TakeWhile(accept, st.items))
               case Retire(_) => next == Inside(Release)
               case Dispose => next == Inside(Mark(st.waiters)) && r.disposed
  {
  }

  /** A Poll woken by Dispose returns without taking anything. */
  lemma WokenByDispose(st: State, t: Tid, c: Choice)
    requires Enabled(st, t, c) && PcOf(st, t).Waiting? && PcOf(st, t).how.Woken?
    ensures var r := Apply(st, t, c);
            && r.items == st.items && r.taken == st.taken
            && (PcOf(r, t) == Idle <==> st.disposed)
  {
  }

  /** No step takes a disposal back or puts anything after it. */
  lemma DisposedStep(st: State, t: Tid, c: Choice)
    requires Inv(st) && Enabled(st, t, c) && st.disposed
    ensures Apply(st, t, c).disposed && Apply(st, t, c).put == st.put
  {
    InvGivesBasis(st, t);
    assert ThreadInv(st, t);
  }

  lemma DisposedStays(a: State, b: State)
    requires Inv(a) && Step(a, b) && a.disposed
    ensures b.disposed && b.put == a.put
  {
    hide Inv, Apply, Enabled;
    var t, c :| Enabled(a, t, c) && b == Apply(a, t, c);
    DisposedStep(a, t, c);
  }

  lemma RunSteps(states: seq<State>, j: nat)
    requires IsRun(states) && 0 < j < |states|
    ensures Step(states[j - 1], states[j])
  {
    hide Step;
    assert Step(states[j - 1], states[j - 1 + 1]);
  }

  /** Once disposed, a queue stays disposed, and no Put succeeds any more. */
  lemma {:induction false} DisposedIsFinal(states: seq<State>, i: nat, j: nat)
    requires IsRun(states) && i <= j < |states| && states[i].disposed
    ensures states[j].disposed && states[j].put == states[i].put
    decreases j - i
  {
    hide Inv, Step, IsRun;
    if i < j {
      DisposedIsFinal(states, i, j - 1);
      RunInv(states, j - 1);
      RunSteps(states, j);
      DisposedStays(states[j - 1], states[j]);
    }
  }
}
