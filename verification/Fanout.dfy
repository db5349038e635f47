/**
 The fan-out of an RTMP stream as interleaved steps: one worker that writes packets to a cached
 copy of the listener map, and any number of threads that add listeners, delete them or close the
 stream. Each section under a lock is split into its single reads and writes.
 */
module Fanout {
  type Tid = nat
  type Id = nat
  type Dst = int
  type Pkt = int

  datatype Op = Add(dst: Dst) | Delete(id: Id)

  /** A thread outside and inside the listener lock, and outside and inside the close lock. */
  datatype Pc =
    | Idle
    | Want(op: Op)
    | Change(op: Op)
    | MarkDirty
    | Unlock
    | WantClose
    | CheckClosed
    | SetClosed
    | CloseEof
    | UnlockClose

  datatype Worker =
    | Ready
    | Fetched(pkt: Pkt)
    | CheckDirty(pkt: Pkt)
    | Copying(pkt: Pkt, todo: set<Id>)
    | Leaving(pkt: Pkt)
    | Writing(pkt: Pkt, todo: set<Id>)
    | Stopped

  datatype Holder = Nobody | TheWorker | Thread(t: Tid)

  /**
   Below cache: received are the packets taken from the channel, refreshed those past the lock section,
   log what was written under which id to which writer; writer, since and until say with which writer
   an id was registered, and how many packets had been refreshed when it was added and deleted.
   */
  datatype State = State(
    listeners: map<Id, Dst>, dirty: bool, cache: map<Id, Dst>, lock: Holder, pcs: map<Tid, Pc>,
    worker: Worker, closed: bool, closeLock: Holder, eofCloses: nat,
    received: seq<Pkt>, refreshed: seq<Pkt>, log: map<(Id, Dst), seq<Pkt>>,
    writer: map<Id, Dst>, since: map<Id, nat>, until: map<Id, nat>)

  function PcOf(st: State, t: Tid): (pc: Pc) {
    if t in st.pcs then st.pcs[t] else Idle
  }

  function LogOf(st: State, id: Id, d: Dst): seq<Pkt> {
    if (id, d) in st.log then st.log[(id, d)] else []
  }

  function Init(): State {
    State(map[], false, map[], Nobody, map[], Ready, false, Nobody, 0, [], [], map[], map[], map[], map[])
  }

  // ---------- steps ----------

  datatype Step =
    | Call(t: Tid, op: Op)
    | Acquire(t: Tid)
    | Put(t: Tid, id: Id)
    | Remove(t: Tid)
    | Soil(t: Tid)
    | Release(t: Tid)
    | CallClose(t: Tid)
    | AcquireClose(t: Tid)
    | TestClosed(t: Tid)
    | MarkClosed(t: Tid)
    | ShutEof(t: Tid)
    | ReleaseClose(t: Tid)
    | Receive(pkt: Pkt)
    | Quit
    | WorkerLock
    | TestDirty
    | Copy(id: Id)
    | EndCopy
    | WorkerUnlock
    | Write(id: Id, ok: bool, helper: Tid)
    | EndWrite

  predicate IsThreadStep(s: Step) {
    s.Call? || s.Acquire? || s.Put? || s.Remove? || s.Soil? || s.Release?
  }

  predicate IsCloseStep(s: Step) {
    s.CallClose? || s.AcquireClose? || s.TestClosed? || s.MarkClosed? || s.ShutEof? || s.ReleaseClose?
  }

  predicate Enabled(st: State, s: Step) {
    match s
    case Call(t, _) => PcOf(st, t).Idle?
    case Acquire(t) => PcOf(st, t).Want? && st.lock.Nobody?
    // random ids are taken to be new
    case Put(t, id) => PcOf(st, t).Change? && PcOf(st, t).op.Add? && id !in st.writer
    case Remove(t) => PcOf(st, t).Change? && PcOf(st, t).op.Delete?
    case Soil(t) => PcOf(st, t).MarkDirty?
    case Release(t) => PcOf(st, t).Unlock?
    case CallClose(t) => PcOf(st, t).Idle?
    case AcquireClose(t) => PcOf(st, t).WantClose? && st.closeLock.Nobody?
    case TestClosed(t) => PcOf(st, t).CheckClosed?
    case MarkClosed(t) => PcOf(st, t).SetClosed?
    case ShutEof(t) => PcOf(st, t).CloseEof?
    case ReleaseClose(t) => PcOf(st, t).UnlockClose?
    case Receive(_) => st.worker.Ready?
    case Quit => st.worker.Ready? && st.eofCloses > 0
    case WorkerLock => st.worker.Fetched? && st.lock.Nobody?
    case TestDirty => st.worker.CheckDirty?
    case Copy(id) => st.worker.Copying? && id in st.worker.todo && id in st.listeners
    case EndCopy => st.worker.Copying? && st.worker.todo == {}
    case WorkerUnlock => st.worker.Leaving?
    case Write(id, ok, helper) =>
      st.worker.Writing? && id in st.worker.todo && id in st.cache && (ok || PcOf(st, helper).Idle?)
    case EndWrite => st.worker.Writing? && st.worker.todo == {}
  }

  function At(st: State, t: Tid, pc: Pc): State {
    st.(pcs := st.pcs[t := pc])
  }

  function ThreadStep(st: State, s: Step): State
    requires Enabled(st, s) && IsThreadStep(s)
  {
    match s
    case Call(t, op) => At(st, t, Want(op))
    case Acquire(t) => At(st, t, Change(PcOf(st, t).op)).(lock := Thread(t))
    case Put(t, id) =>
      var dst := PcOf(st, t).op.dst;
      At(st, t, MarkDirty).(listeners := st.listeners[id := dst], writer := st.writer[id := dst],
                            since := st.since[id := |st.refreshed|])
    case Remove(t) =>
      var id := PcOf(st, t).op.id;
      At(st, t, MarkDirty).(listeners := st.listeners - {id},
                            until := if id in st.listeners then st.until[id := |st.refreshed|] else st.until)
    case Soil(t) => At(st, t, Unlock).(dirty := true)
    case Release(t) => At(st, t, Idle).(lock := Nobody)
  }

  function CloseStep(st: State, s: Step): State
    requires Enabled(st, s) && IsCloseStep(s)
  {
    match s
    case CallClose(t) => At(st, t, WantClose)
    case AcquireClose(t) => At(st, t, CheckClosed).(closeLock := Thread(t))
    case TestClosed(t) => At(st, t, if st.closed then UnlockClose else SetClosed)
    case MarkClosed(t) => At(st, t, CloseEof).(closed := true)
    case ShutEof(t) => At(st, t, UnlockClose).(eofCloses := st.eofCloses + 1)
    case ReleaseClose(t) => At(st, t, Idle).(closeLock := Nobody)
  }

  function WorkerStep(st: State, s: Step): State
    requires Enabled(st, s) && !IsThreadStep(s) && !IsCloseStep(s)
  {
    match s
    case Receive(pkt) => st.(worker := Fetched(pkt), received := st.received + [pkt])
    case Quit => st.(worker := Stopped)
    case WorkerLock => st.(worker := CheckDirty(st.worker.pkt), lock := TheWorker)
    case TestDirty =>
      if st.dirty then st.(worker := Copying(st.worker.pkt, st.listeners.Keys), cache := map[])
      else st.(worker := Leaving(st.worker.pkt))
    case Copy(id) =>
      st.(worker := Copying(st.worker.pkt, st.worker.todo - {id}), cache := st.cache[id := st.listeners[id]])
    case EndCopy => st.(worker := Leaving(st.worker.pkt), dirty := false)
    case WorkerUnlock =>
      st.(worker := Writing(st.worker.pkt, st.cache.Keys), lock := Nobody,
          refreshed := st.refreshed + [st.worker.pkt])
    case Write(id, ok, helper) =>
      var d := st.cache[id];
      var st1 := if ok then st else At(st, helper, Want(Delete(id)));
      st1.(worker := Writing(st.worker.pkt, st.worker.todo - {id}),
           log := st.log[(id, d) := LogOf(st, id, d) + [st.worker.pkt]])
    case EndWrite => st.(worker := Ready)
  }

  function Apply(st: State, s: Step): State
    requires Enabled(st, s)
  {
    if IsThreadStep(s) then ThreadStep(st, s)
    else if IsCloseStep(s) then CloseStep(st, s)
    else WorkerStep(st, s)
  }

  // ---------- invariants ----------

  predicate InLock(pc: Pc) {
    pc.Change? || pc.MarkDirty? || pc.Unlock?
  }

  predicate WorkerInLock(w: Worker) {
    w.CheckDirty? || w.Copying? || w.Leaving?
  }

  predicate InCloseLock(pc: Pc) {
    pc.CheckClosed? || pc.SetClosed? || pc.CloseEof? || pc.UnlockClose?
  }

  ghost predicate LockInv(st: State) {
    && (forall t :: InLock(PcOf(st, t)) <==> st.lock == Thread(t))
    && (WorkerInLock(st.worker) <==> st.lock == TheWorker)
  }

  /** Someone has changed the map and not yet said so. */
  predicate Unsaid(st: State) {
    st.lock.Thread? && PcOf(st, st.lock.t).MarkDirty?
  }

  /** A clear dirty flag means that the cache is the map. */
  predicate CacheInv(st: State) {
    && (st.worker.Copying? ==> st.dirty && st.worker.todo <= st.listeners.Keys
                               && st.cache == st.listeners - st.worker.todo)
    && (st.worker.Leaving? ==> !st.dirty)
    && (!st.dirty && !Unsaid(st) ==> st.cache == st.listeners)
  }

  function Until(st: State, id: Id): nat {
    if id in st.until then st.until[id] else |st.refreshed|
  }

  /** The ids in the map are those added and not deleted, with the writer they were added with. */
  ghost predicate RegisterInv(st: State) {
    && st.since.Keys == st.writer.Keys
    && (forall id :: id in st.listeners <==> id in st.writer && id !in st.until)
    && (forall id :: id in st.until ==> id in st.writer)
    && (forall id :: id in st.listeners ==> st.listeners[id] == st.writer[id])
    && (forall id :: id in st.since ==> st.since[id] <= Until(st, id) <= |st.refreshed|)
  }

  /** The cache names only registered ids, with their writers, and the worker writes to cached ids. */
  ghost predicate OwnerInv(st: State) {
    && (forall id :: id in st.cache ==> id in st.writer && st.cache[id] == st.writer[id])
    && (st.worker.Writing? ==> st.worker.todo <= st.cache.Keys)
  }

  /** What the uncached machine would have written: all packets refreshed between adding and deleting. */
  function Due(st: State, id: Id, d: Dst): seq<Pkt> {
    if id in st.writer && st.writer[id] == d && id in st.since && st.since[id] <= Until(st, id) <= |st.refreshed|
    then st.refreshed[st.since[id]..Until(st, id)] else []
  }

  /** The packet the worker has still to write to this listener. */
  function Pending(st: State, id: Id, d: Dst): seq<Pkt> {
    if st.worker.Writing? && id in st.worker.todo && id in st.cache && st.cache[id] == d then [st.worker.pkt] else []
  }

  ghost predicate DeliveryInv(st: State) {
    forall id, d :: LogOf(st, id, d) + Pending(st, id, d) == Due(st, id, d)
  }

  /** A packet between channel and unlock. */
  function InHand(st: State): seq<Pkt> {
    if st.worker.Fetched? || WorkerInLock(st.worker) then [st.worker.pkt] else []
  }

  predicate FlowInv(st: State) {
    st.received == st.refreshed + InHand(st)
  }

  ghost predicate CloseInv(st: State) {
    && (forall t :: InCloseLock(PcOf(st, t)) <==> st.closeLock == Thread(t))
    && !st.closeLock.TheWorker?
    && st.eofCloses <= 1
    && (st.eofCloses == 1 ==> st.closed)
    && (forall t :: PcOf(st, t).SetClosed? ==> !st.closed)
    && (forall t :: PcOf(st, t).CloseEof? ==> st.closed && st.eofCloses == 0)
    && (st.closed && st.eofCloses == 0 ==> st.closeLock.Thread? && PcOf(st, st.closeLock.t).CloseEof?)
  }

  ghost predicate Inv(st: State) {
    LockInv(st) && CacheInv(st) && RegisterInv(st) && OwnerInv(st) && DeliveryInv(st) && FlowInv(st) && CloseInv(st)
  }

  lemma InitInv()
    ensures Inv(Init())
  {
  }

  // ---------- each invariant over each kind of step ----------

  lemma LockKeptByThread(st: State, s: Step)
    requires Enabled(st, s) && LockInv(st) && IsThreadStep(s)
    ensures LockInv(ThreadStep(st, s))
  {
    var r := ThreadStep(st, s);
    forall t
      ensures InLock(PcOf(r, t)) <==> r.lock == Thread(t)
    {
      assert InLock(PcOf(st, t)) <==> st.lock == Thread(t);
    }
  }

  lemma LockKeptByClose(st: State, s: Step)
    requires Enabled(st, s) && LockInv(st) && IsCloseStep(s)
    ensures LockInv(CloseStep(st, s))
  {
    var r := CloseStep(st, s);
    forall t
      ensures InLock(PcOf(r, t)) <==> r.lock == Thread(t)
    {
      assert InLock(PcOf(st, t)) <==> st.lock == Thread(t);
    }
  }

  /** A worker step moves at most one idle thread, to wanting the lock, and leaves closing alone. */
  lemma WorkerStepFrame(st: State, s: Step, t: Tid)
    requires Enabled(st, s) && !IsThreadStep(s) && !IsCloseStep(s)
    ensures var r := WorkerStep(st, s);
            && (PcOf(r, t) == PcOf(st, t) || (PcOf(st, t).Idle? && PcOf(r, t).Want?))
            && r.closed == st.closed && r.eofCloses == st.eofCloses && r.closeLock == st.closeLock
  {
  }

  /** The lock changes hands only with the worker's own entering and leaving. */
  lemma WorkerStepLock(st: State, s: Step)
    requires Enabled(st, s) && !IsThreadStep(s) && !IsCloseStep(s)
    ensures var r := WorkerStep(st, s);
            || (r.lock == st.lock && (WorkerInLock(r.worker) <==> WorkerInLock(st.worker)))
            || (st.lock == Nobody && r.lock == TheWorker && WorkerInLock(r.worker))
            || (WorkerInLock(st.worker) && r.lock == Nobody && !WorkerInLock(r.worker))
  {
  }

  lemma LockKeptByWorker(st: State, s: Step)
    requires Enabled(st, s) && LockInv(st) && !IsThreadStep(s) && !IsCloseStep(s)
    ensures LockInv(WorkerStep(st, s))
  {
    hide WorkerStep, Enabled, PcOf;
    var r := WorkerStep(st, s);
    WorkerStepLock(st, s);
    forall t
      ensures InLock(PcOf(r, t)) <==> r.lock == Thread(t)
    {
      assert InLock(PcOf(st, t)) <==> st.lock == Thread(t);
      WorkerStepFrame(st, s, t);
    }
  }

  lemma CacheKeptByThread(st: State, s: Step)
    requires Enabled(st, s) && LockInv(st) && CacheInv(st) && IsThreadStep(s)
    ensures CacheInv(ThreadStep(st, s))
  {
    assert InLock(PcOf(st, s.t)) <==> st.lock == Thread(s.t);
    assert st.lock.Thread? ==> InLock(PcOf(st, st.lock.t));
  }

  lemma CacheKeptByWorker(st: State, s: Step)
    requires Enabled(st, s) && LockInv(st) && CacheInv(st) && !IsThreadStep(s) && !IsCloseStep(s)
    ensures CacheInv(WorkerStep(st, s))
  {
    var r := WorkerStep(st, s);
    if s.TestDirty? && st.dirty {
      assert st.listeners - st.listeners.Keys == map[];
    } else if s.Copy? {
      assert r.cache == r.listeners - r.worker.todo;
    } else if s.EndCopy? {
      assert st.listeners - {} == st.listeners;
    }
    if st.lock.Thread? {
      assert InLock(PcOf(st, st.lock.t));
    }
  }

  lemma CacheKeptByClose(st: State, s: Step)
    requires Enabled(st, s) && LockInv(st) && CacheInv(st) && IsCloseStep(s)
    ensures CacheInv(CloseStep(st, s))
  {
    assert InLock(PcOf(st, s.t)) <==> st.lock == Thread(s.t);
  }

  /** Nothing that registration is about has changed. */
  predicate SameRegister(st: State, r: State) {
    && r.listeners == st.listeners && r.writer == st.writer && r.since == st.since && r.until == st.until
    && |st.refreshed| <= |r.refreshed|
  }

  lemma SameRegisterByThread(st: State, s: Step)
    requires Enabled(st, s) && IsThreadStep(s) && !s.Put? && !s.Remove?
    ensures SameRegister(st, ThreadStep(st, s))
  {
  }

  lemma SameRegisterByClose(st: State, s: Step)
    requires Enabled(st, s) && IsCloseStep(s)
    ensures SameRegister(st, CloseStep(st, s))
  {
  }

  lemma SameRegisterByWorker(st: State, s: Step)
    requires Enabled(st, s) && !IsThreadStep(s) && !IsCloseStep(s)
    ensures SameRegister(st, WorkerStep(st, s))
  {
    hide LogOf;
  }

  lemma RegisterSame(st: State, r: State)
    requires RegisterInv(st) && SameRegister(st, r)
    ensures RegisterInv(r)
  {
    forall id | id in r.since
      ensures r.since[id] <= Until(r, id) <= |r.refreshed|
    {
      assert st.since[id] <= Until(st, id) <= |st.refreshed|;
    }
  }

  lemma RegisterKeptByPut(st: State, s: Step)
    requires Enabled(st, s) && s.Put? && RegisterInv(st)
    ensures RegisterInv(ThreadStep(st, s))
  {
    var r := ThreadStep(st, s);
    forall id | id in r.since
      ensures r.since[id] <= Until(r, id) <= |r.refreshed|
    {
      assert id != s.id ==> st.since[id] <= Until(st, id) <= |st.refreshed|;
    }
  }

  lemma RegisterKeptByRemove(st: State, s: Step)
    requires Enabled(st, s) && s.Remove? && RegisterInv(st)
    ensures RegisterInv(ThreadStep(st, s))
  {
    var r := ThreadStep(st, s);
    forall id | id in r.since
      ensures r.since[id] <= Until(r, id) <= |r.refreshed|
    {
      assert st.since[id] <= Until(st, id) <= |st.refreshed|;
    }
  }

  lemma RegisterKept(st: State, s: Step)
    requires Enabled(st, s) && RegisterInv(st)
    ensures RegisterInv(Apply(st, s))
  {
    hide Enabled, RegisterInv, ThreadStep, CloseStep, WorkerStep, SameRegister;
    if s.Put? {
      RegisterKeptByPut(st, s);
    } else if s.Remove? {
      RegisterKeptByRemove(st, s);
    } else {
      if IsThreadStep(s) {
        SameRegisterByThread(st, s);
      } else if IsCloseStep(s) {
        SameRegisterByClose(st, s);
      } else {
        SameRegisterByWorker(st, s);
      }
      RegisterSame(st, Apply(st, s));
    }
  }

  lemma OwnerKeptByThread(st: State, s: Step)
    requires Enabled(st, s) && OwnerInv(st) && IsThreadStep(s)
    ensures OwnerInv(ThreadStep(st, s))
  {
  }

  lemma OwnerKeptByClose(st: State, s: Step)
    requires Enabled(st, s) && OwnerInv(st) && IsCloseStep(s)
    ensures OwnerInv(CloseStep(st, s))
  {
  }

  lemma OwnerKeptByWorker(st: State, s: Step)
    requires Enabled(st, s) && OwnerInv(st) && RegisterInv(st) && !IsThreadStep(s) && !IsCloseStep(s)
    ensures OwnerInv(WorkerStep(st, s))
  {
    if s.Copy? {
      assert s.id in st.listeners <==> s.id in st.writer && s.id !in st.until;
    }
  }

  lemma PutOwesNothing(st: State, s: Step, id: Id, d: Dst)
    requires Enabled(st, s) && RegisterInv(st) && s.Put?
    ensures Due(ThreadStep(st, s), id, d) == Due(st, id, d)
  {
  }

  lemma RemoveOwesNothing(st: State, s: Step, id: Id, d: Dst)
    requires Enabled(st, s) && RegisterInv(st) && s.Remove?
    ensures Due(ThreadStep(st, s), id, d) == Due(st, id, d)
  {
    assert id in st.since ==> st.since[id] <= Until(st, id) <= |st.refreshed|;
  }

  lemma OtherOwesNothing(st: State, s: Step, id: Id, d: Dst)
    requires Enabled(st, s) && IsThreadStep(s) && !s.Put? && !s.Remove?
    ensures Due(ThreadStep(st, s), id, d) == Due(st, id, d)
  {
  }

  lemma ThreadWritesNothing(st: State, s: Step, id: Id, d: Dst)
    requires Enabled(st, s) && IsThreadStep(s)
    ensures var r := ThreadStep(st, s); LogOf(r, id, d) == LogOf(st, id, d) && Pending(r, id, d) == Pending(st, id, d)
  {
  }

  lemma DeliveryKeptByThread(st: State, s: Step)
    requires Enabled(st, s) && RegisterInv(st) && DeliveryInv(st) && IsThreadStep(s)
    ensures DeliveryInv(ThreadStep(st, s))
  {
    hide Enabled, ThreadStep, RegisterInv, Due, LogOf, Pending;
    var r := ThreadStep(st, s);
    forall id, d
      ensures LogOf(r, id, d) + Pending(r, id, d) == Due(r, id, d)
    {
      assert LogOf(st, id, d) + Pending(st, id, d) == Due(st, id, d);
      if s.Put? {
        PutOwesNothing(st, s, id, d);
      } else if s.Remove? {
        RemoveOwesNothing(st, s, id, d);
      } else {
        OtherOwesNothing(st, s, id, d);
      }
      ThreadWritesNothing(st, s, id, d);
    }
  }

  lemma CurrentAtUnlock(st: State)
    requires st.worker.Leaving? && CacheInv(st) && LockInv(st)
    ensures st.cache == st.listeners
  {
  }

  /** An id in the map is owed the packet of this round. */
  lemma UnlockOwesLive(st: State, id: Id, d: Dst)
    requires Enabled(st, WorkerUnlock) && st.cache == st.listeners
    requires LogOf(st, id, d) == Due(st, id, d)
    requires id in st.listeners && id in st.writer && id !in st.until && id in st.since
    requires st.listeners[id] == st.writer[id] == d && st.since[id] <= |st.refreshed|
    ensures var r := WorkerStep(st, WorkerUnlock); LogOf(r, id, d) + Pending(r, id, d) == Due(r, id, d)
  {
    var r, from := WorkerStep(st, WorkerUnlock), st.since[id];
    assert Due(st, id, d) == st.refreshed[from..];
    assert Due(r, id, d) == r.refreshed[from..];
    assert r.refreshed[from..] == st.refreshed[from..] + [st.worker.pkt];
  }

  /** Any other is owed nothing new. */
  lemma UnlockOwesOthers(st: State, id: Id, d: Dst)
    requires Enabled(st, WorkerUnlock) && st.cache == st.listeners
    requires LogOf(st, id, d) == Due(st, id, d)
    requires id in st.listeners ==> id in st.writer && st.listeners[id] == st.writer[id] != d
    requires id !in st.listeners && id in st.writer ==> id in st.until && st.until[id] <= |st.refreshed|
    ensures var r := WorkerStep(st, WorkerUnlock); LogOf(r, id, d) + Pending(r, id, d) == Due(r, id, d)
  {
    hide LogOf;
    var r := WorkerStep(st, WorkerUnlock);
    assert Pending(r, id, d) == [];
    assert Due(r, id, d) == Due(st, id, d) by {
      if id in st.writer && st.writer[id] == d && id in st.since && st.since[id] <= st.until[id] {
        assert r.refreshed[st.since[id]..st.until[id]] == st.refreshed[st.since[id]..st.until[id]];
      }
    }
    assert LogOf(r, id, d) == LogOf(st, id, d) by {
      assert r.log == st.log;
      SameLog(st, r, id, d);
    }
  }

  lemma SameLog(st: State, r: State, id: Id, d: Dst)
    requires r.log == st.log
    ensures LogOf(r, id, d) == LogOf(st, id, d)
  {
  }

  lemma DeliveryKeptByUnlock(st: State)
    requires Enabled(st, WorkerUnlock) && RegisterInv(st) && DeliveryInv(st) && CacheInv(st) && LockInv(st)
    ensures DeliveryInv(WorkerStep(st, WorkerUnlock))
  {
    hide WorkerStep, Due, LogOf, CacheInv, LockInv;
    var r := WorkerStep(st, WorkerUnlock);
    CurrentAtUnlock(st);
    forall id, d
      ensures LogOf(r, id, d) + Pending(r, id, d) == Due(r, id, d)
    {
      assert LogOf(st, id, d) + Pending(st, id, d) == Due(st, id, d);
      assert Pending(st, id, d) == [];
      assert LogOf(st, id, d) + [] == LogOf(st, id, d);
      assert id in st.listeners <==> id in st.writer && id !in st.until;
      if id in st.listeners && st.writer[id] == d {
        assert st.since[id] <= Until(st, id) <= |st.refreshed|;
        UnlockOwesLive(st, id, d);
      } else {
        assert id in st.since ==> st.since[id] <= Until(st, id) <= |st.refreshed|;
        UnlockOwesOthers(st, id, d);
      }
    }
  }

  lemma DeliveryKeptByWrite(st: State, s: Step)
    requires Enabled(st, s) && s.Write? && DeliveryInv(st)
    ensures DeliveryInv(WorkerStep(st, s))
  {
    var r := WorkerStep(st, s);
    forall id, d
      ensures LogOf(r, id, d) + Pending(r, id, d) == Due(r, id, d)
    {
      assert LogOf(st, id, d) + Pending(st, id, d) == Due(st, id, d);
      assert Due(r, id, d) == Due(st, id, d);
    }
  }

  lemma DeliveryKeptByRest(st: State, s: Step)
    requires Enabled(st, s) && DeliveryInv(st) && !IsThreadStep(s) && !s.Write? && !s.WorkerUnlock?
    ensures DeliveryInv(Apply(st, s))
  {
    var r := Apply(st, s);
    forall id, d
      ensures LogOf(r, id, d) + Pending(r, id, d) == Due(r, id, d)
    {
      assert LogOf(st, id, d) + Pending(st, id, d) == Due(st, id, d);
    }
  }

  lemma FlowKept(st: State, s: Step)
    requires Enabled(st, s) && FlowInv(st)
    ensures FlowInv(Apply(st, s))
  {
  }

  lemma CloseKeptByThread(st: State, s: Step)
    requires Enabled(st, s) && CloseInv(st) && IsThreadStep(s)
    ensures CloseInv(ThreadStep(st, s))
  {
    var r := ThreadStep(st, s);
    forall t
      ensures InCloseLock(PcOf(r, t)) <==> r.closeLock == Thread(t)
      ensures PcOf(r, t).SetClosed? ==> !r.closed
      ensures PcOf(r, t).CloseEof? ==> r.closed && r.eofCloses == 0
    {
      assert InCloseLock(PcOf(st, t)) <==> st.closeLock == Thread(t);
      assert PcOf(st, t).SetClosed? ==> !st.closed;
      assert PcOf(st, t).CloseEof? ==> st.closed && st.eofCloses == 0;
    }
  }

  lemma CloseKeptByClose(st: State, s: Step)
    requires Enabled(st, s) && CloseInv(st) && IsCloseStep(s)
    ensures CloseInv(CloseStep(st, s))
  {
    var r := CloseStep(st, s);
    forall t
      ensures InCloseLock(PcOf(r, t)) <==> r.closeLock == Thread(t)
      ensures PcOf(r, t).SetClosed? ==> !r.closed
      ensures PcOf(r, t).CloseEof? ==> r.closed && r.eofCloses == 0
    {
      assert InCloseLock(PcOf(st, t)) <==> st.closeLock == Thread(t);
      assert PcOf(st, t).SetClosed? ==> !st.closed;
      assert PcOf(st, t).CloseEof? ==> st.closed && st.eofCloses == 0;
    }
  }

  lemma CloseKeptByWorker(st: State, s: Step)
    requires Enabled(st, s) && CloseInv(st) && !IsThreadStep(s) && !IsCloseStep(s)
    ensures CloseInv(WorkerStep(st, s))
  {
    hide WorkerStep, Enabled, PcOf;
    var r := WorkerStep(st, s);
    forall t
      ensures InCloseLock(PcOf(r, t)) <==> r.closeLock == Thread(t)
      ensures PcOf(r, t).SetClosed? ==> !r.closed
      ensures PcOf(r, t).CloseEof? ==> r.closed && r.eofCloses == 0
    {
      WorkerStepFrame(st, s, t);
      assert InCloseLock(PcOf(st, t)) <==> st.closeLock == Thread(t);
      assert PcOf(st, t).SetClosed? ==> !st.closed;
      assert PcOf(st, t).CloseEof? ==> st.closed && st.eofCloses == 0;
    }
    WorkerStepFrame(st, s, if st.closeLock.Thread? then st.closeLock.t else 0);
  }

  lemma InvKept(st: State, s: Step)
    requires Enabled(st, s) && Inv(st)
    ensures Inv(Apply(st, s))
  {
    hide Enabled, LockInv, CacheInv, RegisterInv, OwnerInv, DeliveryInv, FlowInv, CloseInv;
    hide ThreadStep, CloseStep, WorkerStep;
    RegisterKept(st, s);
    FlowKept(st, s);
    if IsThreadStep(s) {
      LockKeptByThread(st, s);
      CloseKeptByThread(st, s);
      OwnerKeptByThread(st, s);
      CacheKeptByThread(st, s);
      DeliveryKeptByThread(st, s);
    } else if IsCloseStep(s) {
      LockKeptByClose(st, s);
      CloseKeptByClose(st, s);
      OwnerKeptByClose(st, s);
      CacheKeptByClose(st, s);
      DeliveryKeptByRest(st, s);
    } else {
      LockKeptByWorker(st, s);
      CloseKeptByWorker(st, s);
      OwnerKeptByWorker(st, s);
      CacheKeptByWorker(st, s);
      if s.Write? {
        DeliveryKeptByWrite(st, s);
      } else if s.WorkerUnlock? {
        DeliveryKeptByUnlock(st);
      } else {
        DeliveryKeptByRest(st, s);
      }
    }
  }

  // ---------- runs ----------

  predicate IsRun(st: State, steps: seq<Step>)
    decreases steps
  {
    steps == [] || (Enabled(st, steps[0]) && IsRun(Apply(st, steps[0]), steps[1..]))
  }

  function End(st: State, steps: seq<Step>): State
    requires IsRun(st, steps)
    decreases steps
  {
    if steps == [] then st else End(Apply(st, steps[0]), steps[1..])
  }

  lemma {:induction false} RunInv(st: State, steps: seq<Step>)
    requires Inv(st) && IsRun(st, steps)
    ensures Inv(End(st, steps))
    decreases steps
  {
    hide Inv, Apply, Enabled;
    if steps != [] {
      InvKept(st, steps[0]);
      RunInv(Apply(st, steps[0]), steps[1..]);
    }
  }

  /** In every interleaving, a clear flag seen with the lock free means that the cache is current. */
  lemma CacheAgrees(steps: seq<Step>)
    requires IsRun(Init(), steps)
    ensures var st := End(Init(), steps); st.lock.Nobody? && !st.dirty ==> st.cache == st.listeners
  {
    InitInv();
    RunInv(Init(), steps);
  }

  /**
   Caching is invisible. Under every id only its own writer is written to, and what it got, with the
   packet just being written, is exactly what was refreshed from its adding to its deleting, once
   each and in order; and of the packets received only the newest may not have been refreshed yet.
   */
  lemma ExactDelivery(steps: seq<Step>, id: Id, d: Dst)
    requires IsRun(Init(), steps)
    ensures var st := End(Init(), steps);
            && st.received == st.refreshed + InHand(st)
            && LogOf(st, id, d) + Pending(st, id, d) == Due(st, id, d)
            && (id in st.writer ==> id in st.since && st.since[id] <= Until(st, id) <= |st.refreshed|)
            && (id in st.writer ==> Due(st, id, st.writer[id]) == st.refreshed[st.since[id]..Until(st, id)])
            && (id !in st.writer || st.writer[id] != d ==> LogOf(st, id, d) == [])
  {
    InitInv();
    RunInv(Init(), steps);
    var st := End(Init(), steps);
    assert FlowInv(st) && DeliveryInv(st) && RegisterInv(st);
    assert LogOf(st, id, d) + Pending(st, id, d) == Due(st, id, d);
  }

  /** Seeing the channel closed, the worker stops; a stopped worker takes and writes nothing any more. */
  lemma StoppedForGood(st: State, s: Step)
    requires Enabled(st, s)
    ensures s.Quit? ==> Apply(st, s).worker.Stopped? && st.eofCloses > 0
    ensures var r := Apply(st, s);
            st.worker.Stopped? ==> r.worker.Stopped? && r.received == st.received && r.log == st.log
    ensures !st.worker.Stopped? && Apply(st, s).worker.Stopped? ==> s.Quit?
    ensures Apply(st, s).eofCloses >= st.eofCloses
  {
    hide PcOf, LogOf;
  }

  lemma {:induction false} StoppedOnlyAfterClose(st: State, steps: seq<Step>)
    requires IsRun(st, steps) && (st.worker.Stopped? ==> st.eofCloses > 0)
    ensures End(st, steps).worker.Stopped? ==> End(st, steps).eofCloses > 0
    decreases steps
  {
    hide Apply, Enabled;
    if steps != [] {
      StoppedForGood(st, steps[0]);
      StoppedOnlyAfterClose(Apply(st, steps[0]), steps[1..]);
    }
  }

  /** A writer that fails is written to no differently, and a thread is started that deletes it. */
  lemma FailedWriteDeletes(st: State, id: Id, helper: Tid)
    requires Enabled(st, Write(id, false, helper)) && Enabled(st, Write(id, true, helper))
    ensures var failed, written := Apply(st, Write(id, false, helper)), Apply(st, Write(id, true, helper));
            PcOf(failed, helper) == Want(Delete(id)) && failed.(pcs := st.pcs) == written
  {
  }

  /** However many threads call Close, the channel is closed at most once, and no step closes it again. */
  lemma EofClosedOnce(steps: seq<Step>, t: Tid)
    requires IsRun(Init(), steps)
    ensures var st := End(Init(), steps);
            && st.eofCloses <= 1
            && (Enabled(st, ShutEof(t)) ==> st.eofCloses == 0)
            && (st.closed && st.closeLock.Nobody? ==> st.eofCloses == 1)
  {
    InitInv();
    RunInv(Init(), steps);
    var st := End(Init(), steps);
    assert CloseInv(st);
    assert PcOf(st, t).CloseEof? ==> st.closed && st.eofCloses == 0;
  }

  // ---------- the sections as they run undisturbed under their lock ----------

  lemma {:induction false} RunAppend(st: State, steps: seq<Step>, s: Step)
    requires IsRun(st, steps) && Enabled(End(st, steps), s)
    ensures IsRun(st, steps + [s]) && End(st, steps + [s]) == Apply(End(st, steps), s)
    decreases steps
  {
    hide Enabled, Apply;
    if steps == [] {
      assert steps + [s] == [s] && [s][1..] == [];
    } else {
      assert (steps + [s])[1..] == steps[1..] + [s];
      RunAppend(Apply(st, steps[0]), steps[1..], s);
    }
  }

  /**
   The fields of the stream. Every method adds the steps it makes to steps, so whatever holds of all
   runs of the step relation holds of every use of this class.
   */
  class RtmpStream {
    var listeners: map<Id, Dst>
    var dirty: bool
    var cache: map<Id, Dst>
    var closed: bool
    var eofCloses: nat
    ghost var steps: seq<Step>

    ghost predicate Ran()
      reads this
    {
      IsRun(Init(), steps)
    }

    /** The state of the step relation that the stream is in. */
    ghost function Now(): State
      requires Ran()
      reads this
    {
      End(Init(), steps)
    }

    ghost predicate Valid()
      reads this
    {
      && Ran()
      && listeners == Now().listeners && dirty == Now().dirty && cache == Now().cache
      && closed == Now().closed && eofCloses == Now().eofCloses
    }

    constructor ()
      ensures Valid() && Now() == Init()
    {
      listeners, dirty, cache, closed, eofCloses := map[], false, map[], false, 0;
      steps := [];
    }

    ghost method Make(s: Step)
      requires Ran() && Enabled(Now(), s)
      modifies this`steps
      ensures Ran() && Now() == Apply(old(Now()), s)
    {
      RunAppend(Init(), steps, s);
      steps := steps + [s];
    }

    /** Thread t asks for the listener lock and gets it. */
    ghost method Enter(t: Tid, op: Op)
      requires Ran() && Now().lock.Nobody? && PcOf(Now(), t).Idle?
      modifies this`steps
      ensures Ran() && PcOf(Now(), t) == Change(op) && Now().lock == Thread(t)
      ensures SameData(old(Now()), Now()) && Now().dirty == old(Now().dirty)
    {
      hide IsRun, End;
      Make(Call(t, op));
      Make(Acquire(t));
    }

    /** Thread t, having changed the map, says so and unlocks. */
    ghost method Leave(t: Tid)
      requires Ran() && PcOf(Now(), t).MarkDirty?
      modifies this`steps
      ensures Ran() && Now().lock.Nobody? && Now().dirty && SameData(old(Now()), Now())
    {
      hide IsRun, End;
      Make(Soil(t));
      Make(Release(t));
    }

    /** The lock section of ReadRTMPFromStream, run by thread t. */
    method AddListener(ghost t: Tid, id: Id, dst: Dst)
      requires Valid() && Now().lock.Nobody? && PcOf(Now(), t).Idle? && id !in Now().writer
      modifies this`listeners, this`dirty, this`steps
      ensures Valid() && dirty && listeners == old(listeners)[id := dst]
      ensures Now().lock.Nobody? && Now().worker == old(Now().worker)
    {
      hide IsRun, End;
      Enter(t, Add(dst));
      listeners := listeners[id := dst];
      Make(Put(t, id));
      dirty := true;
      Leave(t);
    }

    method DeleteListener(ghost t: Tid, id: Id)
      requires Valid() && Now().lock.Nobody? && PcOf(Now(), t).Idle?
      modifies this`listeners, this`dirty, this`steps
      ensures Valid() && dirty && listeners == old(listeners) - {id}
      ensures Now().lock.Nobody? && Now().worker == old(Now().worker)
    {
      hide IsRun, End;
      Enter(t, Delete(id));
      listeners := listeners - {id};
      Make(Remove(t));
      dirty := true;
      Leave(t);
    }

    /** The worker takes a packet and the lock, and looks at the flag. */
    ghost method EnterWorker(pkt: Pkt)
      requires Ran() && Now().lock.Nobody? && Now().worker.Ready?
      modifies this`steps
      ensures Ran() && Now().listeners == old(Now().listeners) && Now().dirty == old(Now().dirty)
      ensures Now().closed == old(Now().closed) && Now().eofCloses == old(Now().eofCloses)
      ensures Now().refreshed == old(Now().refreshed)
      ensures Now().worker == (if Now().dirty then Copying(pkt, Now().listeners.Keys) else Leaving(pkt))
      ensures Now().cache == if Now().dirty then map[] else old(Now().cache)
    {
      hide IsRun, End;
      Make(Receive(pkt));
      Make(WorkerLock);
      Make(TestDirty);
    }

    /** The worker copies the map into an empty cache and clears the flag. */
    method CopyListeners(ghost pkt: Pkt)
      requires Valid() && dirty && cache == map[] && Now().worker == Copying(pkt, listeners.Keys)
      modifies this`cache, this`dirty, this`steps
      ensures Valid() && !dirty && Now().worker == Leaving(pkt) && Now().refreshed == old(Now().refreshed)
    {
      hide IsRun, End;
      var todo := listeners.Keys;
      while todo != {}
        invariant Valid() && dirty && todo <= listeners.Keys
        invariant Now().worker == Copying(pkt, todo) && Now().refreshed == old(Now().refreshed)
        decreases todo
      {
        var id :| id in todo;
        cache := cache[id := listeners[id]];
        Make(Copy(id));
        todo := todo - {id};
      }
      dirty := false;
      Make(EndCopy);
    }

    /** The invariant of the step relation holds of every stream. */
    lemma Holds()
      requires Ran()
      ensures Inv(Now())
    {
      InitInv();
      RunInv(Init(), steps);
    }

    /** The worker's section: whatever happened since the last packet, the cache is then the map. */
    method Refresh(pkt: Pkt)
      requires Valid() && Now().lock.Nobody? && Now().worker.Ready?
      modifies this`cache, this`dirty, this`steps
      ensures Valid() && !dirty && cache == listeners
      ensures Now().lock.Nobody? && Now().worker == Writing(pkt, cache.Keys)
      ensures Now().refreshed == old(Now().refreshed) + [pkt]
    {
      hide IsRun, End, Inv;
      EnterWorker(pkt);
      if dirty {
        cache := map[];
        CopyListeners(pkt);
      }
      Holds();
      Current(Now());
      Make(WorkerUnlock);
    }

    /** The worker's loop over the cache, with writers that report no error. */
    method WriteAll()
      requires Valid() && Now().worker.Writing? && Now().worker.todo == cache.Keys
      modifies this`steps
      ensures Valid() && Now().worker.Ready? && Now().lock == old(Now().lock)
      ensures forall id, d :: LogOf(Now(), id, d) == Due(Now(), id, d)
    {
      hide IsRun, End, Inv;
      var todo := cache.Keys;
      while todo != {}
        invariant Valid() && todo <= cache.Keys && Now().lock == old(Now().lock)
        invariant Now().worker.Writing? && Now().worker.todo == todo
        decreases todo
      {
        var id :| id in todo;
        Make(Write(id, true, 0));
        todo := todo - {id};
      }
      Make(EndWrite);
      Holds();
      NothingPending(Now());
    }

    /** Thread t asks for the close lock, gets it and looks at the flag. */
    ghost method EnterClose(t: Tid)
      requires Ran() && Now().closeLock.Nobody? && PcOf(Now(), t).Idle?
      modifies this`steps
      ensures Ran() && PcOf(Now(), t) == (if Now().closed then UnlockClose else SetClosed)
      ensures SameData(old(Now()), Now()) && Now().dirty == old(Now().dirty)
    {
      hide IsRun, End;
      Make(CallClose(t));
      Make(AcquireClose(t));
      Make(TestClosed(t));
    }

    /** The part of Close that only the first caller runs. */
    method CloseChannel(ghost t: Tid)
      requires Valid() && PcOf(Now(), t).SetClosed?
      modifies this`closed, this`eofCloses, this`steps
      ensures Valid() && closed && PcOf(Now(), t).UnlockClose?
    {
      hide IsRun, End;
      closed := true;
      Make(MarkClosed(t));
      eofCloses := eofCloses + 1;
      Make(ShutEof(t));
    }

    method Close(ghost t: Tid)
      requires Valid() && Now().closeLock.Nobody? && PcOf(Now(), t).Idle?
      modifies this`closed, this`eofCloses, this`steps
      ensures Valid() && closed && eofCloses == 1 && Now().closeLock.Nobody?
    {
      hide IsRun, End, Inv;
      EnterClose(t);
      if !closed {
        CloseChannel(t);
      }
      Make(ReleaseClose(t));
      Holds();
      ClosedOnce(Now());
    }
  }

  /** Everything but locks, program counters and the dirty flag. */
  predicate SameData(st: State, r: State) {
    && r.listeners == st.listeners && r.cache == st.cache && r.worker == st.worker
    && r.closed == st.closed && r.eofCloses == st.eofCloses
    && r.writer == st.writer && r.refreshed == st.refreshed
  }

  lemma Current(st: State)
    requires Inv(st) && st.worker.Leaving?
    ensures st.cache == st.listeners
  {
    CurrentAtUnlock(st);
  }

  lemma ClosedOnce(st: State)
    requires Inv(st) && st.closed && st.closeLock.Nobody?
    ensures st.eofCloses == 1
  {
    assert CloseInv(st);
  }

  lemma NothingPending(st: State)
    requires Inv(st) && !st.worker.Writing?
    ensures forall id, d :: LogOf(st, id, d) == Due(st, id, d)
  {
    assert DeliveryInv(st);
    forall id, d
      ensures LogOf(st, id, d) == Due(st, id, d)
    {
      assert LogOf(st, id, d) + Pending(st, id, d) == Due(st, id, d);
      assert Pending(st, id, d) == [];
    }
  }
}
