/**
 What holds in every run of the blocking queue: nothing is lost or reordered, no wakeup is missed,
 the handoff is exclusive, and a waiting Put gets on exactly when its Poll has not left.
 */
module WaitQueueRuns {
  import opened Common
  import opened WaitQueue
  import opened WaitQueueSteps

  // ---------- every step, every run ----------

  lemma SemaStep(st: State, t: Tid, c: Choice, s: Sid)
    requires Enabled(st, t, c) && SemaBasis(st, t, s)
    ensures SemaInv(Apply(st, t, c), s)
  {
    hide SemaInv, ThreadInv, WaitersInv, QueueInv, Apply, Enabled;
    var pc := PcOf(st, t);
    if AtEntry(pc) {
      if pc.at.call.Retire? {
        SemaRetire(st, t, c, s);
      } else if pc.at.call.Poll? {
        SemaAtPoll(st, t, c, s);
      } else if pc.at.call.Dispose? {
        SemaAtDispose(st, t, c, s);
      } else {
        SemaAtEntry(st, t, c, s);
      }
    } else if AtFirst(pc) {
      SemaAppend(st, t, c, s);
    } else if AtServing(pc) {
      if pc.at.SendTo? {
        SemaSendTo(st, t, c, s);
      } else if pc.at.Await? {
        SemaAwait(st, t, c, s);
      } else {
        SemaRecheck(st, t, c, s);
      }
    } else if AtTaking(pc) {
      SemaTake(st, t, c, s);
    } else if pc.Inside? {
      if pc.at.Mark? {
        SemaMark(st, t, c, s);
      } else {
        SemaMarkSend(st, t, c, s);
      }
    } else if pc.Waiting? {
      if pc.how.Select? {
        if c.Go? {
          SemaWake(st, t, c, s);
        } else {
          SemaSelect(st, t, c, s);
        }
      } else if pc.how.TimedOut? {
        SemaTimedOut(st, t, c, s);
      } else if pc.how.Answer? {
        SemaAnswer(st, t, c, s);
      } else {
        SemaWoken(st, t, c, s);
      }
    } else {
      SemaAcquiring(st, t, c, s);
    }
  }

  lemma WaitersStep(st: State, t: Tid, c: Choice)
    requires Enabled(st, t, c) && Basis(st, t) && WaitersInv(st)
    ensures WaitersInv(Apply(st, t, c))
  {
    hide ThreadInv, WaitersInv, Apply, Enabled, Basis;
    var pc := PcOf(st, t);
    if AtEntry(pc) {
      if pc.at.call.Retire? {
        WaitersRetire(st, t, c);
      } else if pc.at.call.Poll? {
        WaitersPoll(st, t, c);
      } else if pc.at.call.Dispose? {
        WaitersDispose(st, t, c);
      } else {
        WaitersAtEntry(st, t, c);
      }
    } else if AtFirst(pc) {
      WaitersAppending(st, t, c);
    } else if AtServing(pc) {
      WaitersServing(st, t, c);
    } else if pc.Inside? {
      WaitersInside(st, t, c);
    } else {
      if pc.Idle? || pc.Acquire? {
        WaitersOutside(st, t, c);
      } else if AtSelect(pc) {
        WaitersSelecting(st, t, c);
      } else {
        WaitersWaiting(st, t, c);
      }
    }
  }

  lemma QueueStep(st: State, t: Tid, c: Choice)
    requires Enabled(st, t, c) && Basis(st, t) && QueueInv(st)
    ensures QueueInv(Apply(st, t, c))
  {
    hide ThreadInv, QueueInv, Apply, Enabled, Basis;
    var pc := PcOf(st, t);
    if AtServing(pc) {
      QueueServing(st, t, c);
    } else if AtTaking(pc) {
      if pc.at.Park? || pc.at.Release? {
        QueueParking(st, t, c);
      } else if pc.at.Drop? {
        QueueDropping(st, t, c);
      } else {
        QueueStoring(st, t, c);
      }
    } else if AtEntry(pc) {
      QueueAtEntry(st, t, c);
    } else if pc.Inside? {
      QueueInside(st, t, c);
    } else if pc.Waiting? {
      QueueWaiting(st, t, c);
    } else {
      QueueOutside(st, t, c);
    }
  }

  lemma InvGivesBasis(st: State, t: Tid)
    requires Inv(st)
    ensures Basis(st, t) && WaitersInv(st) && QueueInv(st)
  {
    if st.lock.Some? {
      assert ThreadInv(st, st.lock.value);
    }
    forall s | s in st.semas ensures s < st.next {
      assert SemaInv(st, s);
    }
    assert ThreadInv(st, t);
    if SemaOf(PcOf(st, t)).Some? {
      assert SemaInv(st, SemaOf(PcOf(st, t)).value);
    }
  }

  lemma InvGivesSemaBasis(st: State, t: Tid, s: Sid)
    requires Inv(st) && s in st.semas
    ensures SemaBasis(st, t, s)
  {
    InvGivesBasis(st, t);
    assert ThreadInv(st, st.owner[s]);
    match PcOf(st, t)
    case Waiting(s', _) => assert SemaInv(st, s');
    case _ =>
  }

  /** Only a Poll that finds the queue empty makes a semaphore. */
  lemma SemasAfter(st: State, t: Tid, c: Choice)
    requires Enabled(st, t, c) && Basis(st, t) && WaitersInv(st) && st.semas.Keys == st.owner.Keys
    ensures var r := Apply(st, t, c);
            && r.semas.Keys == r.owner.Keys
            && (r.semas.Keys == st.semas.Keys
                || (&& r.semas.Keys == st.semas.Keys + {st.next}
                    && AtEntry(PcOf(st, t)) && PcOf(st, t).at.call.Poll? && !st.disposed && st.items == []))
  {
    hide MayTake, Distinct, PcOk, Holder, Without, Count, Accepted, Called;
    match PcOf(st, t)
    case Inside(at) => SemasInside(st, t, at);
    case _ =>
  }

  lemma SemasInside(st: State, t: Tid, at: Critical)
    requires PcOf(st, t) == Inside(at) && Enabled(st, t, Go) && Basis(st, t)
    requires WaitersInv(st) && st.semas.Keys == st.owner.Keys
    ensures var r := ApplyInside(st, t, at);
            && r.semas.Keys == r.owner.Keys
            && (r.semas.Keys == st.semas.Keys
                || (&& r.semas.Keys == st.semas.Keys + {st.next}
                    && at.Enter? && at.call.Poll? && !st.disposed && st.items == []))
  {
    hide MayTake, Distinct, PcOk, Without, Count, Accepted, Called;
    assert Holder(st) == at;
  }

  /** Every step of every thread keeps the invariant. */
  lemma StepInv(st: State, t: Tid, c: Choice)
    requires Inv(st) && Enabled(st, t, c)
    ensures Inv(Apply(st, t, c))
  {
    hide ThreadInv, SemaInv, WaitersInv, QueueInv, Apply, Enabled, Basis, SemaBasis;
    var r := Apply(st, t, c);
    InvGivesBasis(st, t);
    WaitersStep(st, t, c);
    QueueStep(st, t, c);
    SemasAfter(st, t, c);
    forall u ensures ThreadInv(r, u) {
      OtherThread(st, t, c, u);
    }
    forall s | s in r.semas ensures SemaInv(r, s) {
      if s in st.semas {
        InvGivesSemaBasis(st, t, s);
        SemaStep(st, t, c, s);
      } else {
        SemaNew(st, t, c);
      }
    }
  }

  lemma OtherThread(st: State, t: Tid, c: Choice, u: Tid)
    requires Inv(st) && Enabled(st, t, c)
    ensures ThreadInv(Apply(st, t, c), u)
  {
    hide Apply, Enabled;
    InvGivesBasis(st, t);
    InvGivesBasis(st, u);
    ThreadStep(st, t, c, u);
  }

  ghost predicate Step(a: State, b: State) {
    exists t, c :: Enabled(a, t, c) && b == Apply(a, t, c)
  }

  /** A run: any interleaving of any calls by any threads. */
  ghost predicate IsRun(states: seq<State>) {
    && states != [] && states[0] == Init()
    && forall i :: 0 <= i < |states| - 1 ==> Step(states[i], states[i + 1])
  }

  lemma {:induction false} RunInv(states: seq<State>, i: nat)
    requires IsRun(states) && i < |states|
    ensures Inv(states[i])
  {
    hide Inv, Apply, Enabled;
    if i == 0 {
      InitInv();
    } else {
      RunInv(states, i - 1);
      assert Step(states[i - 1], states[i - 1 + 1]);
      var t, c :| Enabled(states[i - 1], t, c) && states[i] == Apply(states[i - 1], t, c);
      StepInv(states[i - 1], t, c);
    }
  }

  // ---------- what every run guarantees ----------

  /** All items put, in lock order, are the items handed out, in order, then the items still queued. */
  lemma NothingLost(states: seq<State>, i: nat)
    requires IsRun(states) && i < |states|
    ensures states[i].put == states[i].taken + states[i].items
  {
    RunInv(states, i);
  }

  /** When nobody holds the lock, there are no items or there is nobody waiting for them. */
  lemma NoLostWakeup(states: seq<State>, i: nat)
    requires IsRun(states) && i < |states| && states[i].lock == None
    ensures states[i].items == [] || states[i].waiters == []
  {
    RunInv(states, i);
  }

  /** A thread that has read the items and is about to store what it leaves of them. */
  predicate Touches(pc: Pc) {
    match pc
    case Inside(at) => at.Append? || at.Take? || at.TakeWhile? || at.Drop?
    case Waiting(_, how) => how.WokenTake?
    case _ => false
  }

  /** At most one thread at a time works on the items, although a woken Poll does so without the lock. */
  lemma OneAtATime(states: seq<State>, i: nat, t: Tid, u: Tid)
    requires IsRun(states) && i < |states|
    requires Touches(PcOf(states[i], t)) && Touches(PcOf(states[i], u))
    ensures t == u
  {
    RunInv(states, i);
    InvGivesBasis(states[i], t);
    InvGivesBasis(states[i], u);
    assert ThreadInv(states[i], t) && ThreadInv(states[i], u);
  }

  /** A woken Poll edits the items only while the Put that woke it holds the lock, and finds some. */
  lemma WokenPollFindsItems(states: seq<State>, i: nat, t: Tid)
    requires IsRun(states) && i < |states|
    requires PcOf(states[i], t).Waiting? && PcOf(states[i], t).how.WokenTake?
    ensures var st, how := states[i], PcOf(states[i], t).how;
            && st.lock.Some? && PcOf(st, st.lock.value) == Inside(Await(PcOf(st, t).s))
            && how.snap == st.items && 1 <= Count(how.n, |how.snap|) <= how.n
  {
    RunInv(states, i);
    InvGivesBasis(states[i], t);
  }

  /** Whoever is about to call Done finds the counter at one, so it never goes negative. */
  lemma DoneIsBalanced(states: seq<State>, i: nat, t: Tid)
    requires IsRun(states) && i < |states| && PcOf(states[i], t).Waiting?
    ensures var st, pc := states[i], PcOf(states[i], t);
            pc.how.Answer? || (pc.how.TimedOut? && SemaAt(st, pc.s).token) ==> SemaAt(st, pc.s).response == 1
    ensures forall s :: s in states[i].semas ==> states[i].semas[s].response >= 0
  {
    RunInv(states, i);
    InvGivesBasis(states[i], t);
    assert ThreadInv(states[i], t);
    assert SemaInv(states[i], PcOf(states[i], t).s);
    forall s | s in states[i].semas ensures states[i].semas[s].response >= 0 {
      assert SemaInv(states[i], s);
    }
  }

  // ---------- progress of the handoff ----------

  /** How many steps the woken Poll still has to make before it has called Done. */
  function StepsToDone(st: State, s: Sid): (n: nat)
    requires s in st.owner
  {
    match PcOf(st, st.owner[s])
    case Waiting(s', how) =>
      if s' != s then 0
      else (match how
            case Select(_, _) => 4
            case Woken(_) => 3
            case WokenTake(_, _) => 2
            case Answer => 1
            case TimedOut => 1)
    case _ => 0
  }

  /** What a step of the served Poll, or of any thread but it and the Put, does to the handoff. */
  ghost predicate Nearer(st: State, t: Tid, c: Choice, s: Sid)
    requires s in st.owner && Enabled(st, t, c)
  {
    var r := Apply(st, t, c);
    && Holder(r) == Await(s) && s !in r.left && r.lock == st.lock && s in r.owner
    && (if t == st.owner[s] && StepsToDone(st, s) > 0 then StepsToDone(r, s) < StepsToDone(st, s)
        else StepsToDone(r, s) == StepsToDone(st, s))
  }

  lemma HandoffEnabled(st: State, s: Sid)
    requires Inv(st) && Holder(st) == Await(s) && s !in st.left
    ensures s in st.owner && (StepsToDone(st, s) > 0 ==> Enabled(st, st.owner[s], Go))
    ensures StepsToDone(st, s) == 0 ==> Enabled(st, st.lock.value, Go)
  {
    assert SemaInv(st, s);
    assert ThreadInv(st, st.owner[s]);
  }

  lemma HandoffOwnStep(st: State, t: Tid, c: Choice, s: Sid)
    requires Inv(st) && Holder(st) == Await(s) && s !in st.left && s in st.owner
    requires Enabled(st, t, c) && t == st.owner[s] && !c.Cancel? && Some(t) != st.lock
    ensures Nearer(st, t, c, s)
  {
    InvGivesBasis(st, t);
    assert SemaInv(st, s);
    assert ThreadInv(st, t);
  }

  lemma HandoffOtherStep(st: State, t: Tid, c: Choice, s: Sid)
    requires Inv(st) && Holder(st) == Await(s) && s !in st.left && s in st.owner
    requires Enabled(st, t, c) && t != st.owner[s] && Some(t) != st.lock
    ensures Nearer(st, t, c, s)
  {
    InvGivesBasis(st, t);
    assert SemaInv(st, s);
    assert ThreadInv(st, t);
  }

  /**
   A Put that waits for a Poll still there: the Poll can always go on, each step it takes brings the
   answer nearer, no other thread sets it back, be it by leaving through its own context, and when it
   has answered the Put can go on.
   */
  lemma HandoffProgress(st: State, t: Tid, c: Choice, s: Sid)
    requires Inv(st) && Holder(st) == Await(s) && s !in st.left
    ensures s in st.owner && (StepsToDone(st, s) > 0 ==> Enabled(st, st.owner[s], Go))
    ensures StepsToDone(st, s) == 0 ==> Enabled(st, st.lock.value, Go)
    ensures Enabled(st, t, c) && (c.Cancel? ==> t != st.owner[s]) && Some(t) != st.lock ==> Nearer(st, t, c, s)
  {
    hide Inv, Enabled, Apply, Nearer;
    HandoffEnabled(st, s);
    if Enabled(st, t, c) && (c.Cancel? ==> t != st.owner[s]) && Some(t) != st.lock {
      if t == st.owner[s] {
        HandoffOwnStep(st, t, c, s);
      } else {
        HandoffOtherStep(st, t, c, s);
      }
    }
  }

  // ---------- one Done for each token ----------

  datatype Move = Move(t: Tid, c: Choice)

  /** The move with which a Poll calls Done on s. */
  predicate CallsDone(st: State, m: Move, s: Sid) {
    match PcOf(st, m.t)
    case Waiting(s', Answer) => s' == s
    case Waiting(s', TimedOut) => s' == s && SemaAt(st, s).token
    case _ => false
  }

  /** A move of any thread but the waiting Put, and not the served Poll's leaving by its context. */
  predicate Allowed(st: State, m: Move, s: Sid) {
    Enabled(st, m.t, m.c) && Some(m.t) != st.lock && s in st.owner && (m.c.Cancel? ==> m.t != st.owner[s])
  }

  ghost predicate AllAllowed(st: State, moves: seq<Move>, s: Sid)
    decreases moves
  {
    moves == [] ||
    (Allowed(st, moves[0], s) && AllAllowed(Apply(st, moves[0].t, moves[0].c), moves[1..], s))
  }

  ghost function AfterMoves(st: State, moves: seq<Move>, s: Sid): (r: State)
    requires AllAllowed(st, moves, s)
    decreases moves
  {
    if moves == [] then st else AfterMoves(Apply(st, moves[0].t, moves[0].c), moves[1..], s)
  }

  /** The calls of Done on s during the moves. */
  ghost function Dones(st: State, moves: seq<Move>, s: Sid): (n: nat)
    requires AllAllowed(st, moves, s)
    decreases moves
  {
    if moves == [] then 0 else
      (if CallsDone(st, moves[0], s) then 1 else 0) + Dones(Apply(st, moves[0].t, moves[0].c), moves[1..], s)
  }

  /** The moves that the owner of s makes for it. */
  ghost function OwnMoves(st: State, moves: seq<Move>, s: Sid): (n: nat)
    requires AllAllowed(st, moves, s)
    decreases moves
  {
    if moves == [] then 0 else
      (if moves[0].t == st.owner[s] && StepsToDone(st, s) > 0 then 1 else 0)
      + OwnMoves(Apply(st, moves[0].t, moves[0].c), moves[1..], s)
  }

  predicate Awaiting(st: State, s: Sid) {
    Holder(st) == Await(s) && s !in st.left && s in st.owner
  }

  /** The counter is one until the Poll has called Done, and then zero. */
  lemma AwaitedResponse(st: State, s: Sid)
    requires Inv(st) && Awaiting(st, s)
    ensures SemaAt(st, s).response == if StepsToDone(st, s) > 0 then 1 else 0
  {
    assert SemaInv(st, s);
    assert ThreadInv(st, st.owner[s]);
  }

  /** Only the move with which the owner calls Done brings it from some steps to none. */
  lemma DoneEndsIt(st: State, m: Move, s: Sid)
    requires Inv(st) && Awaiting(st, s) && Allowed(st, m, s) && m.t == st.owner[s]
    requires s in Apply(st, m.t, m.c).owner
    ensures CallsDone(st, m, s) <==> StepsToDone(st, s) > 0 && StepsToDone(Apply(st, m.t, m.c), s) == 0
  {
    InvGivesBasis(st, m.t);
    assert SemaInv(st, s);
    assert ThreadInv(st, m.t);
  }

  lemma OnlyOwnerCallsDone(st: State, m: Move, s: Sid)
    requires Inv(st) && Awaiting(st, s) && m.t != st.owner[s]
    ensures !CallsDone(st, m, s)
  {
    assert ThreadInv(st, m.t);
  }

  /** One move: the wait goes on, and the counter falls by one exactly if Done is called. */
  lemma AwaitMove(st: State, m: Move, s: Sid)
    requires Inv(st) && Awaiting(st, s) && Allowed(st, m, s)
    ensures var r := Apply(st, m.t, m.c);
            && Inv(r) && Awaiting(r, s) && r.lock == st.lock && r.owner[s] == st.owner[s]
            && SemaAt(r, s).response == SemaAt(st, s).response - (if CallsDone(st, m, s) then 1 else 0)
            && StepsToDone(r, s) + (if m.t == st.owner[s] && StepsToDone(st, s) > 0 then 1 else 0)
               <= StepsToDone(st, s)
  {
    hide Inv, Apply, Enabled, StepsToDone, CallsDone, Holder, SemaAt;
    var r := Apply(st, m.t, m.c);
    HandoffProgress(st, m.t, m.c, s);
    StepInv(st, m.t, m.c);
    OwnersStay(st, m.t, m.c, s);
    AwaitedResponse(st, s);
    AwaitedResponse(r, s);
    if m.t == st.owner[s] {
      DoneEndsIt(st, m, s);
    } else {
      OnlyOwnerCallsDone(st, m, s);
    }
  }

  lemma OwnersStay(st: State, t: Tid, c: Choice, s: Sid)
    requires Inv(st) && Enabled(st, t, c) && s in st.owner
    ensures var r := Apply(st, t, c); s in r.owner && r.owner[s] == st.owner[s]
  {
    InvGivesBasis(st, t);
  }

  /**
   A Put that has delivered a token and waits: along any moves of the other threads, as long as the
   served Poll does not leave by its context, the calls of Done are what is missing from the counter,
   so there is at most one; after at most four moves of that Poll there has been exactly one, the
   counter is zero, and the Put can go on.
   */
  lemma {:induction false} OneDonePerToken(st: State, moves: seq<Move>, s: Sid)
    requires Inv(st) && Awaiting(st, s) && AllAllowed(st, moves, s)
    ensures var r := AfterMoves(st, moves, s);
            && Inv(r) && Awaiting(r, s) && r.lock == st.lock
            && Dones(st, moves, s) + SemaAt(r, s).response == SemaAt(st, s).response <= 1
            && StepsToDone(r, s) + OwnMoves(st, moves, s) <= StepsToDone(st, s) <= 4
            && (SemaAt(r, s).response == 0 <==> StepsToDone(r, s) == 0)
            && (StepsToDone(r, s) == 0 ==> Enabled(r, r.lock.value, Go))
    decreases moves
  {
    hide Inv, Apply, Enabled, CallsDone, Holder, SemaAt, Allowed;
    if moves == [] {
      AwaitedResponse(st, s);
      HandoffProgress(st, 0, Go, s);
    } else {
      AllowedMeans(st, moves[0], s);
      AwaitMove(st, moves[0], s);
      AwaitedResponse(st, s);
      OneDonePerToken(Apply(st, moves[0].t, moves[0].c), moves[1..], s);
    }
  }

  lemma AllowedMeans(st: State, m: Move, s: Sid)
    requires Allowed(st, m, s)
    ensures Enabled(st, m.t, m.c) && s in st.owner
  {
  }

  /** A Put that finds room for its token delivers it and takes up the wait with the counter at one. */
  lemma AwaitStartsAtOne(st: State, s: Sid)
    requires Inv(st) && Holder(st) == SendTo(s) && s !in st.left && !SemaAt(st, s).token
    ensures Enabled(st, st.lock.value, Go)
    ensures var r := Apply(st, st.lock.value, Go);
            Inv(r) && Awaiting(r, s) && SemaAt(r, s).token && SemaAt(r, s).response == 1
  {
    StepInv(st, st.lock.value, Go);
    SentResponse(st, s);
  }

  lemma SentResponse(st: State, s: Sid)
    requires Inv(st) && Holder(st) == SendTo(s) && s !in st.left && !SemaAt(st, s).token
    ensures var r := Apply(st, st.lock.value, Go);
            Awaiting(r, s) && SemaAt(r, s).token && SemaAt(r, s).response == 1
  {
    InvGivesBasis(st, st.lock.value);
    assert SemaInv(st, s);
  }

  // ---------- the handoff to a Poll that has left ----------

  /** A Put waits for the answer of a Poll that has left through its context. */
  predicate Stuck(st: State, s: Sid) {
    Holder(st) == Await(s) && s in st.left
  }

  /** Such a Put never gets on, and neither does any other call that needs the lock. */
  lemma StuckForever(st: State, t: Tid, c: Choice, s: Sid)
    requires Inv(st) && Stuck(st, s) && Enabled(st, t, c)
    ensures Some(t) != st.lock && !PcOf(st, t).Acquire?
    ensures Stuck(Apply(st, t, c), s) && Apply(st, t, c).lock == st.lock
  {
    InvGivesBasis(st, t);
    assert SemaInv(st, s);
    assert ThreadInv(st, t);
  }

  lemma Extend(states: seq<State>, t: Tid, c: Choice) returns (longer: seq<State>)
    requires IsRun(states) && Enabled(states[|states| - 1], t, c)
    ensures IsRun(longer) && longer[|longer| - 1] == Apply(states[|states| - 1], t, c)
  {
    hide Enabled, Apply;
    longer := states + [Apply(states[|states| - 1], t, c)];
    forall i | 0 <= i < |longer| - 1 ensures Step(longer[i], longer[i + 1]) {
      if i < |states| - 1 {
        assert Step(states[i], states[i + 1]);
      }
    }
  }

  /** One Poll that leaves while it waits is enough to block the next Put for good. */
  lemma StuckReachable() returns (states: seq<State>)
    ensures IsRun(states) && Stuck(states[|states| - 1], 0)
  {
    states := LeftPoll();
    var xs: seq<Item> := [7];
    states := Extend(states, 1, Start(Put(xs)));
    states := Extend(states, 1, Go);
    states := Extend(states, 1, Go);
    assert PcOf(states[|states| - 1], 1) == Inside(Append(xs, []));
    states := Extend(states, 1, Go);
    states := Extend(states, 1, Go);
    assert PcOf(states[|states| - 1], 1) == Inside(AddTo(0));
    states := Extend(states, 1, Go);
    states := Extend(states, 1, Go);
    assert PcOf(states[|states| - 1], 1) == Inside(Await(0));
  }

  lemma LeftPoll() returns (states: seq<State>)
    ensures IsRun(states)
    ensures var st := states[|states| - 1];
            && st.waiters == [0] && !st.disposed && st.lock == None && st.items == []
            && PcOf(st, 1) == Idle && st.left == {0} && 0 in st.semas && !st.semas[0].token
  {
    states := [Init()];
    states := Extend(states, 0, Start(Poll(1, false)));
    states := Extend(states, 0, Go);
    states := Extend(states, 0, Go);
    assert PcOf(states[|states| - 1], 0) == Inside(Park(0, 1, false));
    states := Extend(states, 0, Go);
    states := Extend(states, 0, Cancel);
  }
}
