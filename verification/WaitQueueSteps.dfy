/**
 The proof that every step of the blocking queue keeps its invariant, one kind of step at a time.
 */
module WaitQueueSteps {
  import opened WaitQueue

  // ---------- one step, seen by one other thread ----------

  /** The parts of the invariant every step relies on. */
  predicate Basis(st: State, t: Tid) {
    && (st.lock.Some? ==> PcOf(st, st.lock.value).Inside?)
    && st.next !in st.semas && st.next !in st.owner && st.next !in st.left
    && ThreadInv(st, t) && MayTake(st, t)
  }

  /** Who may act on a snapshot besides the lock holder: the Poll whose answer the holder awaits. */
  predicate MayTake(st: State, t: Tid) {
    match PcOf(st, t)
    case Waiting(s, WokenTake(_, _)) => Holder(st) == Await(s)
    case Waiting(s, Woken(_)) => st.disposed || (Holder(st) == Await(s) && st.items != [])
    case _ => true
  }

  predicate AtEntry(pc: Pc) {
    pc.Inside? && pc.at.Enter?
  }

  predicate AtSelect(pc: Pc) {
    pc.Waiting? && (pc.how.Select? || pc.how.TimedOut?)
  }

  predicate AtTaking(pc: Pc) {
    pc.Inside? && (pc.at.Park? || pc.at.Take? || pc.at.TakeWhile? || pc.at.Drop? || pc.at.Release?)
  }

  predicate AtServing(pc: Pc) {
    pc.Inside? && (Serving(pc.at) || pc.at.Append?)
  }

  predicate AtFirst(pc: Pc) {
    pc.Inside? && (pc.at.Append? || pc.at.Serve? || pc.at.AddTo?)
  }

  lemma ThreadAtPut(st: State, t: Tid, c: Choice, u: Tid)
    requires Enabled(st, t, c) && Basis(st, t)
    requires AtEntry(PcOf(st, t)) && (PcOf(st, t).at.call.Put? || PcOf(st, t).at.call.Until?)
    requires ThreadInv(st, u) && MayTake(st, u)
    ensures ThreadInv(Apply(st, t, c), u)
  {
  }

  lemma ThreadAtEntry(st: State, t: Tid, c: Choice, u: Tid)
    requires Enabled(st, t, c) && Basis(st, t)
    requires AtEntry(PcOf(st, t)) && (PcOf(st, t).at.call.Retire? || PcOf(st, t).at.call.Dispose?)
    requires ThreadInv(st, u) && MayTake(st, u)
    ensures ThreadInv(Apply(st, t, c), u)
  {
  }

  lemma ThreadAtPoll(st: State, t: Tid, c: Choice, u: Tid)
    requires Enabled(st, t, c) && Basis(st, t)
    requires AtEntry(PcOf(st, t)) && PcOf(st, t).at.call.Poll?
    requires ThreadInv(st, u) && MayTake(st, u)
    ensures ThreadInv(Apply(st, t, c), u)
  {
  }

  lemma ThreadAppending(st: State, t: Tid, c: Choice, u: Tid)
    requires Enabled(st, t, c) && Basis(st, t) && AtFirst(PcOf(st, t))
    requires ThreadInv(st, u) && MayTake(st, u)
    ensures ThreadInv(Apply(st, t, c), u)
  {
  }

  lemma ThreadServing(st: State, t: Tid, c: Choice, u: Tid)
    requires Enabled(st, t, c) && Basis(st, t) && AtServing(PcOf(st, t)) && !AtFirst(PcOf(st, t))
    requires ThreadInv(st, u) && MayTake(st, u)
    ensures ThreadInv(Apply(st, t, c), u)
  {
  }

  lemma ThreadSelecting(st: State, t: Tid, c: Choice, u: Tid)
    requires Enabled(st, t, c) && Basis(st, t) && PcOf(st, t).Waiting? && PcOf(st, t).how.Select?
    requires ThreadInv(st, u) && MayTake(st, u)
    ensures ThreadInv(Apply(st, t, c), u)
  {
  }

  lemma ThreadTimedOut(st: State, t: Tid, c: Choice, u: Tid)
    requires Enabled(st, t, c) && Basis(st, t) && PcOf(st, t).Waiting? && PcOf(st, t).how.TimedOut?
    requires ThreadInv(st, u) && MayTake(st, u)
    ensures ThreadInv(Apply(st, t, c), u)
  {
  }

  lemma ThreadWaiting(st: State, t: Tid, c: Choice, u: Tid)
    requires Enabled(st, t, c) && Basis(st, t)
    requires PcOf(st, t).Waiting? && (PcOf(st, t).how.Woken? || PcOf(st, t).how.WokenTake?)
    requires ThreadInv(st, u) && MayTake(st, u)
    ensures ThreadInv(Apply(st, t, c), u)
  {
  }

  lemma ThreadAnswering(st: State, t: Tid, c: Choice, u: Tid)
    requires Enabled(st, t, c) && Basis(st, t) && PcOf(st, t).Waiting? && PcOf(st, t).how.Answer?
    requires ThreadInv(st, u) && MayTake(st, u)
    ensures ThreadInv(Apply(st, t, c), u)
  {
  }

  lemma ThreadTaking(st: State, t: Tid, c: Choice, u: Tid)
    requires Enabled(st, t, c) && Basis(st, t) && AtTaking(PcOf(st, t))
    requires ThreadInv(st, u) && MayTake(st, u)
    ensures ThreadInv(Apply(st, t, c), u)
  {
  }

  lemma ThreadMark(st: State, t: Tid, c: Choice, u: Tid)
    requires Enabled(st, t, c) && Basis(st, t)
    requires PcOf(st, t).Inside? && PcOf(st, t).at.Mark?
    requires ThreadInv(st, u) && MayTake(st, u)
    ensures ThreadInv(Apply(st, t, c), u)
  {
  }

  lemma ThreadMarkSend(st: State, t: Tid, c: Choice, u: Tid)
    requires Enabled(st, t, c) && Basis(st, t)
    requires PcOf(st, t).Inside? && PcOf(st, t).at.MarkSend?
    requires ThreadInv(st, u) && MayTake(st, u)
    ensures ThreadInv(Apply(st, t, c), u)
  {
  }

  lemma ThreadIdle(st: State, t: Tid, c: Choice, u: Tid)
    requires Enabled(st, t, c) && Basis(st, t) && PcOf(st, t).Idle?
    requires ThreadInv(st, u) && MayTake(st, u)
    ensures ThreadInv(Apply(st, t, c), u)
  {
  }

  lemma ThreadAcquire(st: State, t: Tid, c: Choice, u: Tid)
    requires Enabled(st, t, c) && Basis(st, t) && PcOf(st, t).Acquire?
    requires ThreadInv(st, u) && MayTake(st, u)
    ensures ThreadInv(Apply(st, t, c), u)
  {
  }

  lemma ThreadStep(st: State, t: Tid, c: Choice, u: Tid)
    requires Enabled(st, t, c) && Basis(st, t) && ThreadInv(st, u) && MayTake(st, u)
    ensures ThreadInv(Apply(st, t, c), u)
  {
    hide ThreadInv, MayTake, Basis, Apply, Enabled;
    if AtEntry(PcOf(st, t)) && PcOf(st, t).at.call.Poll? {
      ThreadAtPoll(st, t, c, u);
    } else if AtEntry(PcOf(st, t)) {
      if PcOf(st, t).at.call.Put? || PcOf(st, t).at.call.Until? {
        ThreadAtPut(st, t, c, u);
      } else {
        ThreadAtEntry(st, t, c, u);
      }
    } else if AtFirst(PcOf(st, t)) {
      ThreadAppending(st, t, c, u);
    } else if AtServing(PcOf(st, t)) {
      ThreadServing(st, t, c, u);
    } else if AtSelect(PcOf(st, t)) {
      if PcOf(st, t).how.TimedOut? {
        ThreadTimedOut(st, t, c, u);
      } else {
        ThreadSelecting(st, t, c, u);
      }
    } else if PcOf(st, t).Waiting? {
      if PcOf(st, t).how.Answer? {
        ThreadAnswering(st, t, c, u);
      } else {
        ThreadWaiting(st, t, c, u);
      }
    } else if AtTaking(PcOf(st, t)) {
      ThreadTaking(st, t, c, u);
    } else if PcOf(st, t).Idle? {
      ThreadIdle(st, t, c, u);
    } else if PcOf(st, t).Acquire? {
      ThreadAcquire(st, t, c, u);
    } else if PcOf(st, t).at.Mark? {
      ThreadMark(st, t, c, u);
    } else {
      ThreadMarkSend(st, t, c, u);
    }
  }

  // ---------- one step, seen by the items and the waiters ----------

  lemma QueueServing(st: State, t: Tid, c: Choice)
    requires Enabled(st, t, c) && Basis(st, t) && QueueInv(st) && AtServing(PcOf(st, t))
    ensures QueueInv(Apply(st, t, c))
  {
  }

  lemma QueueParking(st: State, t: Tid, c: Choice)
    requires Enabled(st, t, c) && Basis(st, t) && QueueInv(st)
    requires PcOf(st, t).Inside? && (PcOf(st, t).at.Park? || PcOf(st, t).at.Release?)
    ensures QueueInv(Apply(st, t, c))
  {
  }

  lemma QueueStoring(st: State, t: Tid, c: Choice)
    requires Enabled(st, t, c) && Basis(st, t) && QueueInv(st)
    requires PcOf(st, t).Inside? && (PcOf(st, t).at.Take? || PcOf(st, t).at.TakeWhile?)
    ensures QueueInv(Apply(st, t, c))
  {
  }

  lemma QueueDropping(st: State, t: Tid, c: Choice)
    requires Enabled(st, t, c) && Basis(st, t) && QueueInv(st)
    requires PcOf(st, t).Inside? && PcOf(st, t).at.Drop?
    ensures QueueInv(Apply(st, t, c))
  {
  }

  lemma QueueInside(st: State, t: Tid, c: Choice)
    requires Enabled(st, t, c) && Basis(st, t) && QueueInv(st)
    requires PcOf(st, t).Inside? && !AtServing(PcOf(st, t)) && !AtTaking(PcOf(st, t)) && !AtEntry(PcOf(st, t))
    ensures QueueInv(Apply(st, t, c))
  {
  }

  lemma QueueAtEntry(st: State, t: Tid, c: Choice)
    requires Enabled(st, t, c) && Basis(st, t) && QueueInv(st) && AtEntry(PcOf(st, t))
    ensures QueueInv(Apply(st, t, c))
  {
  }

  lemma QueueOutside(st: State, t: Tid, c: Choice)
    requires Enabled(st, t, c) && Basis(st, t) && QueueInv(st)
    requires PcOf(st, t).Idle? || PcOf(st, t).Acquire?
    ensures QueueInv(Apply(st, t, c))
  {
  }

  lemma QueueWaiting(st: State, t: Tid, c: Choice)
    requires Enabled(st, t, c) && Basis(st, t) && QueueInv(st) && PcOf(st, t).Waiting?
    ensures QueueInv(Apply(st, t, c))
  {
  }

  lemma {:induction false} WithoutIs(ws: seq<Sid>, x: Sid)
    requires Distinct(ws)
    ensures forall s :: s in Without(ws, x) <==> s in ws && s != x
    ensures Distinct(Without(ws, x))
  {
    if ws != [] {
      WithoutIs(ws[1..], x);
      var rest := Without(ws[1..], x);
      assert forall s :: s in ws <==> s == ws[0] || s in ws[1..];
      assert ws[0] !in ws[1..] && ws[0] !in rest;
      assert forall s :: s in Without(ws, x) <==> (ws[0] != x && s == ws[0]) || s in rest;
    }
  }

  lemma WaitersRetire(st: State, t: Tid, c: Choice)
    requires Enabled(st, t, c) && Basis(st, t) && WaitersInv(st)
    requires AtEntry(PcOf(st, t)) && PcOf(st, t).at.call.Retire?
    ensures WaitersInv(Apply(st, t, c))
  {
    var s := PcOf(st, t).at.call.s;
    var ws := Without(st.waiters, s);
    WithoutIs(st.waiters, s);
    forall i | 0 <= i < |ws| ensures ws[i] in st.semas {
      assert ws[i] in st.waiters;
    }
  }

  lemma WaitersPoll(st: State, t: Tid, c: Choice)
    requires Enabled(st, t, c) && Basis(st, t) && WaitersInv(st)
    requires AtEntry(PcOf(st, t)) && PcOf(st, t).at.call.Poll?
    ensures WaitersInv(Apply(st, t, c))
  {
  }

  lemma WaitersDispose(st: State, t: Tid, c: Choice)
    requires Enabled(st, t, c) && Basis(st, t) && WaitersInv(st)
    requires AtEntry(PcOf(st, t)) && PcOf(st, t).at.call.Dispose?
    ensures WaitersInv(Apply(st, t, c))
  {
    hide Distinct;
    assert st.waiters[0..] == st.waiters;
    assert Holder(Apply(st, t, c)) == Mark(st.waiters);
  }

  lemma WaitersAtEntry(st: State, t: Tid, c: Choice)
    requires Enabled(st, t, c) && Basis(st, t) && WaitersInv(st)
    requires AtEntry(PcOf(st, t)) && (PcOf(st, t).at.call.Put? || PcOf(st, t).at.call.Until?)
    ensures WaitersInv(Apply(st, t, c))
  {
    hide Distinct;
  }

  lemma WaitersAppending(st: State, t: Tid, c: Choice)
    requires Enabled(st, t, c) && Basis(st, t) && WaitersInv(st) && AtFirst(PcOf(st, t))
    ensures WaitersInv(Apply(st, t, c))
  {
  }

  lemma WaitersServing(st: State, t: Tid, c: Choice)
    requires Enabled(st, t, c) && Basis(st, t) && WaitersInv(st)
    requires AtServing(PcOf(st, t)) && !AtFirst(PcOf(st, t))
    ensures WaitersInv(Apply(st, t, c))
  {
  }

  lemma WaitersInside(st: State, t: Tid, c: Choice)
    requires Enabled(st, t, c) && Basis(st, t) && WaitersInv(st)
    requires PcOf(st, t).Inside? && !AtEntry(PcOf(st, t)) && !AtServing(PcOf(st, t))
    ensures WaitersInv(Apply(st, t, c))
  {
  }

  lemma WaitersOutside(st: State, t: Tid, c: Choice)
    requires Enabled(st, t, c) && Basis(st, t) && WaitersInv(st)
    requires PcOf(st, t).Idle? || PcOf(st, t).Acquire?
    ensures WaitersInv(Apply(st, t, c))
  {
    hide Distinct, IsSuffix;
  }

  lemma WaitersSelecting(st: State, t: Tid, c: Choice)
    requires Enabled(st, t, c) && Basis(st, t) && WaitersInv(st) && AtSelect(PcOf(st, t))
    ensures WaitersInv(Apply(st, t, c))
  {
    hide Distinct, IsSuffix;
  }

  lemma WaitersWaiting(st: State, t: Tid, c: Choice)
    requires Enabled(st, t, c) && Basis(st, t) && WaitersInv(st)
    requires PcOf(st, t).Waiting? && !AtSelect(PcOf(st, t))
    ensures WaitersInv(Apply(st, t, c))
  {
    hide Distinct, IsSuffix;
  }

  // ---------- one step, seen by one semaphore ----------

  predicate SemaBasis(st: State, t: Tid, s: Sid) {
    && Basis(st, t) && WaitersInv(st) && QueueInv(st)
    && s in st.semas && s in st.owner && SemaInv(st, s) && ThreadInv(st, st.owner[s])
    && match PcOf(st, t)
       case Waiting(s', _) => s' in st.owner && SemaInv(st, s')
       case _ => true
  }

  lemma SemaAcquiring(st: State, t: Tid, c: Choice, s: Sid)
    requires Enabled(st, t, c) && SemaBasis(st, t, s)
    requires !PcOf(st, t).Inside? && !PcOf(st, t).Waiting?
    ensures SemaInv(Apply(st, t, c), s)
  {
  }

  lemma SemaRetire(st: State, t: Tid, c: Choice, s: Sid)
    requires Enabled(st, t, c) && SemaBasis(st, t, s)
    requires AtEntry(PcOf(st, t)) && PcOf(st, t).at.call.Retire?
    ensures SemaInv(Apply(st, t, c), s)
  {
    WithoutIs(st.waiters, PcOf(st, t).at.call.s);
  }

  lemma SemaAtPoll(st: State, t: Tid, c: Choice, s: Sid)
    requires Enabled(st, t, c) && SemaBasis(st, t, s)
    requires AtEntry(PcOf(st, t)) && PcOf(st, t).at.call.Poll?
    ensures SemaInv(Apply(st, t, c), s)
  {
  }

  lemma SemaAtDispose(st: State, t: Tid, c: Choice, s: Sid)
    requires Enabled(st, t, c) && SemaBasis(st, t, s)
    requires AtEntry(PcOf(st, t)) && PcOf(st, t).at.call.Dispose?
    ensures SemaInv(Apply(st, t, c), s)
  {
  }

  lemma SemaAtEntry(st: State, t: Tid, c: Choice, s: Sid)
    requires Enabled(st, t, c) && SemaBasis(st, t, s)
    requires AtEntry(PcOf(st, t)) && (PcOf(st, t).at.call.Put? || PcOf(st, t).at.call.Until?)
    ensures SemaInv(Apply(st, t, c), s)
  {
  }

  lemma SemaAppend(st: State, t: Tid, c: Choice, s: Sid)
    requires Enabled(st, t, c) && SemaBasis(st, t, s)
    requires AtFirst(PcOf(st, t))
    ensures SemaInv(Apply(st, t, c), s)
  {
    assert st.waiters != [] ==> (s in st.waiters <==> s == st.waiters[0] || s in st.waiters[1..]);
  }

  lemma SemaSendTo(st: State, t: Tid, c: Choice, s: Sid)
    requires Enabled(st, t, c) && SemaBasis(st, t, s)
    requires PcOf(st, t).Inside? && PcOf(st, t).at.SendTo?
    ensures SemaInv(Apply(st, t, c), s)
  {
  }

  lemma SemaAwait(st: State, t: Tid, c: Choice, s: Sid)
    requires Enabled(st, t, c) && SemaBasis(st, t, s)
    requires PcOf(st, t).Inside? && PcOf(st, t).at.Await?
    ensures SemaInv(Apply(st, t, c), s)
  {
  }

  lemma SemaRecheck(st: State, t: Tid, c: Choice, s: Sid)
    requires Enabled(st, t, c) && SemaBasis(st, t, s)
    requires PcOf(st, t).Inside? && PcOf(st, t).at.Recheck?
    ensures SemaInv(Apply(st, t, c), s)
  {
  }

  lemma SemaTake(st: State, t: Tid, c: Choice, s: Sid)
    requires Enabled(st, t, c) && SemaBasis(st, t, s)
    requires AtTaking(PcOf(st, t))
    ensures SemaInv(Apply(st, t, c), s)
  {
  }

  lemma SemaMark(st: State, t: Tid, c: Choice, s: Sid)
    requires Enabled(st, t, c) && SemaBasis(st, t, s)
    requires PcOf(st, t).Inside? && PcOf(st, t).at.Mark?
    ensures SemaInv(Apply(st, t, c), s)
  {
    var rest := PcOf(st, t).at.rest;
    if rest != [] {
      assert Holder(Apply(st, t, c)) == MarkSend(rest);
    }
  }

  lemma SemaMarkSend(st: State, t: Tid, c: Choice, s: Sid)
    requires Enabled(st, t, c) && SemaBasis(st, t, s)
    requires PcOf(st, t).Inside? && PcOf(st, t).at.MarkSend?
    ensures SemaInv(Apply(st, t, c), s)
  {
  }

  lemma SemaWake(st: State, t: Tid, c: Choice, s: Sid)
    requires Enabled(st, t, c) && SemaBasis(st, t, s)
    requires PcOf(st, t).Waiting? && PcOf(st, t).how.Select? && c.Go?
    ensures SemaInv(Apply(st, t, c), s)
  {
  }

  lemma SemaSelect(st: State, t: Tid, c: Choice, s: Sid)
    requires Enabled(st, t, c) && SemaBasis(st, t, s)
    requires PcOf(st, t).Waiting? && PcOf(st, t).how.Select? && !c.Go?
    ensures SemaInv(Apply(st, t, c), s)
  {
  }

  lemma SemaWoken(st: State, t: Tid, c: Choice, s: Sid)
    requires Enabled(st, t, c) && SemaBasis(st, t, s)
    requires PcOf(st, t).Waiting? && (PcOf(st, t).how.Woken? || PcOf(st, t).how.WokenTake?)
    ensures SemaInv(Apply(st, t, c), s)
  {
  }

  lemma SemaAnswer(st: State, t: Tid, c: Choice, s: Sid)
    requires Enabled(st, t, c) && SemaBasis(st, t, s)
    requires PcOf(st, t).Waiting? && PcOf(st, t).how.Answer?
    ensures SemaInv(Apply(st, t, c), s)
  {
  }

  lemma SemaTimedOut(st: State, t: Tid, c: Choice, s: Sid)
    requires Enabled(st, t, c) && SemaBasis(st, t, s)
    requires PcOf(st, t).Waiting? && PcOf(st, t).how.TimedOut?
    ensures SemaInv(Apply(st, t, c), s)
  {
  }

  lemma SemaNew(st: State, t: Tid, c: Choice)
    requires Enabled(st, t, c) && Basis(st, t) && WaitersInv(st)
    requires AtEntry(PcOf(st, t)) && PcOf(st, t).at.call.Poll? && !st.disposed && st.items == []
    ensures st.next in Apply(st, t, c).owner && SemaInv(Apply(st, t, c), st.next)
  {
  }
}
