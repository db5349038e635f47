/**
 The blocking queue as interleaved steps of any number of threads. A Put that wakes a waiting Poll
 keeps the lock and waits until that Poll, which does not hold it, has taken its items. Reading
 and storing the item slice are separate steps, so nothing here is atomic by assumption.
 */
module WaitQueue {
  import opened Common

  type Item = int
  type Tid = nat
  type Sid = nat

  /** A one-slot channel and a wait-group counter. */
  datatype Sema = Sema(token: bool, response: int)

  /** What a thread wants the lock for. Retire is a timed-out Poll that takes its semaphore back. */
  datatype Call = Put(xs: seq<Item>) | Poll(n: nat, timed: bool) | Retire(s: Sid) | Until(accept: iset<Item>) | Dispose

  /** Inside the lock. snap is the item slice as the thread has read it. */
  datatype Critical =
    | Enter(call: Call)
    // Put, once it has read q.items
    | Append(xs: seq<Item>, snap: seq<Item>)
    | Serve
    | AddTo(s: Sid)
    | SendTo(s: Sid)
    | Await(s: Sid)
    | Recheck
    // Poll and TakeUntil
    | Park(s: Sid, n: nat, timed: bool)
    | Take(n: nat, snap: seq<Item>)
    | TakeWhile(accept: iset<Item>, snap: seq<Item>)
    // Dispose
    | Mark(rest: seq<Sid>)
    | MarkSend(rest: seq<Sid>)
    | Drop(snap: seq<Item>)
    // about to unlock and return
    | Release

  /** A Poll outside the lock, with its semaphore. */
  datatype Outside =
    | Select(n: nat, timed: bool)
    | Woken(n: nat)
    | WokenTake(n: nat, snap: seq<Item>)
    | Answer
    | TimedOut

  datatype Pc = Idle | Acquire(call: Call) | Inside(at: Critical) | Waiting(s: Sid, how: Outside)

  /** put and taken are histories; owner and left tell whose semaphore it is, and who left by context. */
  datatype State = State(
    items: seq<Item>, waiters: seq<Sid>, disposed: bool, lock: Option<Tid>,
    semas: map<Sid, Sema>, pcs: map<Tid, Pc>, put: seq<Item>, taken: seq<Item>,
    next: Sid, owner: map<Sid, Tid>, left: set<Sid>)

  /** What a thread does next, where it has a choice. */
  datatype Choice = Go | Fire | Cancel | Start(call: Call)

  function PcOf(st: State, t: Tid): (pc: Pc) {
    if t in st.pcs then st.pcs[t] else Idle
  }

  function Init(): (st: State) {
    State([], [], false, None, map[], map[], [], [], 0, map[], {})
  }

  predicate IsCall(call: Call) {
    match call
    case Put(xs) => xs != []
    case Poll(n, _) => n >= 1
    case Retire(_) => false
    case _ => true
  }

  /** items.get: up to n items from the front. */
  function Count(n: nat, have: nat): (k: nat)
    ensures k <= n && k <= have
    ensures k == n || k == have
  {
    if n < have then n else have
  }

  /** items.getUntil: the longest accepted prefix. */
  ghost function Accepted(xs: seq<Item>, accept: iset<Item>): (k: nat)
    ensures k <= |xs|
    ensures forall i :: 0 <= i < k ==> xs[i] in accept
    ensures k < |xs| ==> xs[k] !in accept
  {
    if xs == [] || xs[0] !in accept then 0 else 1 + Accepted(xs[1..], accept)
  }

  /** waiters.remove: every entry but s. */
  function Without(ws: seq<Sid>, s: Sid): (r: seq<Sid>) {
    if ws == [] then [] else
      (if ws[0] == s then [] else [ws[0]]) + Without(ws[1..], s)
  }

  // ---------- steps ----------

  function At(st: State, t: Tid, pc: Pc): (r: State) {
    st.(pcs := st.pcs[t := pc])
  }

  function In(st: State, t: Tid, at: Critical): (r: State) {
    At(st, t, Inside(at))
  }

  /** q.items = snap[k:], handing out snap[:k]. */
  function Store(st: State, snap: seq<Item>, k: nat): (r: State)
    requires k <= |snap|
  {
    st.(items := snap[k..], taken := st.taken + snap[..k])
  }

  function SemaAt(st: State, s: Sid): (sm: Sema) {
    if s in st.semas then st.semas[s] else Sema(false, 0)
  }

  function AddResponse(st: State, s: Sid, d: int): (r: State) {
    st.(semas := st.semas[s := SemaAt(st, s).(response := SemaAt(st, s).response + d)])
  }

  function SetToken(st: State, s: Sid, token: bool): (r: State) {
    st.(semas := st.semas[s := SemaAt(st, s).(token := token)])
  }

  /** A new semaphore joins the waiters. */
  function NewSema(st: State, t: Tid): (r: State) {
    st.(waiters := st.waiters + [st.next],
        semas := st.semas[st.next := Sema(false, 0)],
        owner := st.owner[st.next := t],
        next := st.next + 1)
  }

  predicate Enabled(st: State, t: Tid, c: Choice) {
    match PcOf(st, t)
    case Idle => c.Start? && IsCall(c.call)
    case Acquire(_) => c.Go? && st.lock.None?
    case Inside(at) => c.Go? && (at.Await? ==> SemaAt(st, at.s).response == 0)
    case Waiting(s, how) =>
      if how.Select? then (c.Go? && SemaAt(st, s).token) || (c.Fire? && how.timed) || c.Cancel? else c.Go?
  }

  /** The state after thread t has taken its next step. */
  ghost function Apply(st: State, t: Tid, c: Choice): (r: State)
    requires Enabled(st, t, c)
  {
    match PcOf(st, t)
    case Idle => At(st, t, Acquire(c.call))
    case Acquire(call) => In(st, t, Enter(call)).(lock := Some(t))
    case Inside(at) => ApplyInside(st, t, at)
    case Waiting(s, how) => ApplyWaiting(st, t, c, s, how)
  }

  ghost function ApplyInside(st: State, t: Tid, at: Critical): (r: State) {
    match at
    case Enter(call) => ApplyEnter(st, t, call)
    case Append(xs, snap) => In(st, t, Serve).(items := snap + xs, put := st.put + xs)
    case Serve =>
      if st.waiters == [] then In(st, t, Release)
      else In(st, t, AddTo(st.waiters[0])).(waiters := st.waiters[1..])
    case AddTo(s) => AddResponse(In(st, t, SendTo(s)), s, 1)
    case SendTo(s) => if SemaAt(st, s).token then In(st, t, Recheck) else SetToken(In(st, t, Await(s)), s, true)
    case Await(_) => In(st, t, Recheck)
    case Recheck => In(st, t, if st.items == [] then Release else Serve)
    case Park(s, n, timed) => At(st, t, Waiting(s, Select(n, timed))).(lock := None)
    case Take(n, snap) => Store(In(st, t, Release), snap, Count(n, |snap|))
    case TakeWhile(accept, snap) => Store(In(st, t, Release), snap, Accepted(snap, accept))
    case Mark(rest) =>
      if rest == [] then In(st, t, Drop(st.items)) else AddResponse(In(st, t, MarkSend(rest)), rest[0], 1)
    case MarkSend(rest) => if rest == [] then st else SetToken(In(st, t, Mark(rest[1..])), rest[0], true)
    case Drop(snap) => Store(In(st, t, Release), snap, |snap|).(waiters := [])
    case Release => At(st, t, Idle).(lock := None)
  }

  function ApplyEnter(st: State, t: Tid, call: Call): (r: State) {
    match call
    case Put(xs) => In(st, t, if st.disposed then Release else Append(xs, st.items))
    case Poll(n, timed) =>
      if st.disposed then In(st, t, Release)
      else if st.items == [] then NewSema(In(st, t, Park(st.next, n, timed)), t)
      else In(st, t, Take(n, st.items))
    case Retire(s) => In(st, t, Release).(waiters := Without(st.waiters, s))
    case Until(accept) => In(st, t, if st.disposed then Release else TakeWhile(accept, st.items))
    case Dispose => In(st, t, Mark(st.waiters)).(disposed := true)
  }

  function ApplyWaiting(st: State, t: Tid, c: Choice, s: Sid, how: Outside): (r: State) {
    match how
    case Select(n, _) =>
      if c.Go? then SetToken(At(st, t, Waiting(s, Woken(n))), s, false)
      else if c.Fire? then At(st, t, Waiting(s, TimedOut))
      else At(st, t, Idle).(left := st.left + {s})
    case Woken(n) => At(st, t, if st.disposed then Idle else Waiting(s, WokenTake(n, st.items)))
    case WokenTake(n, snap) => Store(At(st, t, Waiting(s, Answer)), snap, Count(n, |snap|))
    case Answer => AddResponse(At(st, t, Idle), s, -1)
    case TimedOut =>
      if SemaAt(st, s).token then AddResponse(At(st, t, Idle), s, -1)
      else SetToken(At(st, t, Acquire(Retire(s))), s, true)
  }

  // ---------- the invariant ----------

  /** What the lock holder is doing. */
  function Holder(st: State): (at: Critical) {
    if st.lock.Some? && PcOf(st, st.lock.value).Inside? then PcOf(st, st.lock.value).at else Release
  }

  /** The semaphore a Poll has made and not yet returned from. */
  function SemaOf(pc: Pc): (s: Option<Sid>) {
    match pc
    case Waiting(s, _) => Some(s)
    case Acquire(Retire(s)) => Some(s)
    case Inside(Enter(Retire(s))) => Some(s)
    case Inside(Park(s, _, _)) => Some(s)
    case _ => None
  }

  /** How far a Put or Dispose has got with a semaphore: not begun, Add(1) done, or past the send. */
  datatype Phase = Queued | Added | Served

  function PhaseOf(st: State, s: Sid): (ph: Phase) {
    match Holder(st)
    case Mark(rest) => if s in rest then Queued else Served
    case MarkSend(rest) => if rest != [] && s == rest[0] then Added else if s in rest then Queued else Served
    case AddTo(s') => if s == s' || s in st.waiters then Queued else Served
    case SendTo(s') => if s == s' then Added else if s in st.waiters then Queued else Served
    case Drop(_) => Served
    case _ => if s in st.waiters then Queued else Served
  }

  predicate Serving(at: Critical) {
    at.Serve? || at.AddTo? || at.SendTo? || at.Await? || at.Recheck?
  }

  /** s carries, or has just delivered, a token that its Poll has not answered yet. */
  predicate Called(st: State, s: Sid) {
    && PhaseOf(st, s).Served? && SemaAt(st, s).response == 1
    && (st.disposed || (Holder(st) == Await(s) && st.items != []))
  }

  predicate CallOk(call: Call) {
    match call
    case Put(xs) => xs != []
    case Poll(n, _) => n >= 1
    case _ => true
  }

  /** A snapshot someone is about to act on is still what q.items holds. */
  predicate PcOk(st: State, pc: Pc) {
    match pc
    case Idle => true
    case Acquire(call) => CallOk(call)
    case Inside(Enter(call)) => CallOk(call)
    case Inside(Append(xs, snap)) => xs != [] && snap == st.items
    case Inside(Take(n, snap)) => n >= 1 && snap == st.items != []
    case Inside(TakeWhile(_, snap)) => snap == st.items
    case Inside(Drop(snap)) => snap == st.items
    case Inside(Park(_, n, _)) => n >= 1
    case Inside(_) => true
    case Waiting(_, Select(n, _)) => n >= 1
    case Waiting(_, Woken(n)) => n >= 1
    case Waiting(_, WokenTake(n, snap)) => n >= 1 && snap == st.items != []
    case Waiting(_, _) => true
  }

  predicate ThreadInv(st: State, t: Tid) {
    var pc := PcOf(st, t);
    && (pc.Inside? <==> st.lock == Some(t))
    && PcOk(st, pc)
    && (SemaOf(pc).Some? ==> var s := SemaOf(pc).value; s in st.semas && s in st.owner && st.owner[s] == t)
  }

  /** What the owner of s may rely on, by where it stands. */
  predicate OwnerInv(st: State, s: Sid, pc: Pc) {
    var sm := SemaAt(st, s);
    if SemaOf(pc) != Some(s) then
      s !in st.left ==> PhaseOf(st, s).Served? && (Holder(st) == Await(s) ==> sm.response == 0)
    else s !in st.left && match pc
      case Waiting(_, Select(_, _)) => if sm.token then Called(st, s) else !PhaseOf(st, s).Served?
      case Waiting(_, TimedOut) => if sm.token then Called(st, s) else !PhaseOf(st, s).Served?
      case Waiting(_, Woken(_)) => Called(st, s)
      case Waiting(_, _) => Holder(st) == Await(s) && sm.response == 1
      case Inside(Park(_, _, _)) => !sm.token && s in st.waiters
      case _ => sm.token && Holder(st) != Await(s)
  }

  predicate SemaInv(st: State, s: Sid)
    requires s in st.owner
  {
    var sm := SemaAt(st, s);
    var ph := PhaseOf(st, s);
    && s < st.next && sm.response >= 0
    && (ph.Queued? ==> sm.response == 0)
    && (ph.Added? ==> sm.response == 1)
    && (s in st.left && !ph.Queued? ==> sm.response >= 1)
    && (Holder(st) == Await(s) ==> sm.response <= 1 && ph.Served?)
    && OwnerInv(st, s, PcOf(st, st.owner[s]))
  }

  predicate Distinct(ws: seq<Sid>) {
    forall i, j :: 0 <= i < j < |ws| ==> ws[i] != ws[j]
  }

  predicate IsSuffix(a: seq<Sid>, b: seq<Sid>) {
    |a| <= |b| && a == b[|b| - |a|..]
  }

  predicate WaitersInv(st: State) {
    && (forall i :: 0 <= i < |st.waiters| ==> st.waiters[i] in st.semas)
    && Distinct(st.waiters) && st.left <= st.semas.Keys
    && match Holder(st)
       case AddTo(s) => s in st.semas && s !in st.waiters
       case SendTo(s) => s in st.semas && s !in st.waiters
       case Await(s) => s in st.semas && s !in st.waiters
       case Mark(rest) => IsSuffix(rest, st.waiters)
       case MarkSend(rest) => rest != [] && IsSuffix(rest, st.waiters)
       case _ => true
  }

  predicate QueueInv(st: State) {
    var at := Holder(st);
    && st.put == st.taken + st.items
    && (Serving(at) || st.items == [] || st.waiters == [])
    && (at.Serve? || at.AddTo? || at.SendTo? ==> st.items != [])
    && (Serving(at) || at.Append? ==> !st.disposed)
    && (at.Mark? || at.MarkSend? || at.Drop? ==> st.disposed)
  }

  ghost predicate Inv(st: State) {
    && st.semas.Keys == st.owner.Keys
    && (forall t :: ThreadInv(st, t))
    && (forall s :: s in st.semas ==> SemaInv(st, s))
    && WaitersInv(st)
    && QueueInv(st)
  }

  lemma InitInv()
    ensures Inv(Init())
  {
  }

  // ---------- the slices behind the queue ----------

  class Items {
    var data: seq<Item>

    constructor (data: seq<Item>)
      ensures this.data == data
    {
      this.data := data;
    }

    method Get(number: nat) returns (returnItems: seq<Item>)
      modifies this
      ensures returnItems == old(data)[..Count(number, |old(data)|)]
      ensures data == old(data)[Count(number, |old(data)|)..]
      ensures returnItems + data == old(data) && |returnItems| <= number
      ensures |returnItems| < number ==> data == []
    {
      returnItems := [];
      var index := 0;
      while index < number && index < |data|
        invariant index <= number && index <= |data| && data == old(data)
        invariant returnItems == data[..index]
      {
        returnItems := returnItems + [data[index]];
        index := index + 1;
      }
      data := data[index..];
    }

    method GetUntil(checker: Item -> bool) returns (returnItems: seq<Item>)
      modifies this
      ensures var k := Accepted(old(data), iset x | checker(x));
              returnItems == old(data)[..k] && data == old(data)[k..]
      ensures returnItems + data == old(data) && forall i :: 0 <= i < |returnItems| ==> checker(returnItems[i])
      ensures data != [] ==> !checker(data[0])
    {
      returnItems := [];
      ghost var accept := iset x | checker(x);
      var i := 0;
      while i < |data| && checker(data[i])
        invariant i <= |data| && data == old(data) && returnItems == data[..i]
        invariant forall j :: 0 <= j < i ==> data[j] in accept
      {
        returnItems := returnItems + [data[i]];
        i := i + 1;
      }
      AcceptedIs(data, accept, i);
      data := data[i..];
    }
  }

  lemma AcceptedIs(xs: seq<Item>, accept: iset<Item>, k: nat)
    requires k <= |xs| && forall j :: 0 <= j < k ==> xs[j] in accept
    requires k < |xs| ==> xs[k] !in accept
    ensures Accepted(xs, accept) == k
  {
    var m := Accepted(xs, accept);
    assert m < |xs| ==> xs[m] !in accept;
  }

  class Waiters {
    var ws: seq<Sid>

    constructor ()
      ensures ws == []
    {
      ws := [];
    }

    method Get() returns (s: Option<Sid>)
      modifies this
      ensures old(ws) == [] ==> s == None && ws == []
      ensures old(ws) != [] ==> s == Some(old(ws)[0]) && ws == old(ws)[1..]
    {
      if |ws| == 0 {
        return None;
      }
      s := Some(ws[0]);
      ws := ws[1..];
    }

    method Put(s: Sid)
      modifies this
      ensures ws == old(ws) + [s]
    {
      ws := ws + [s];
    }

    method Remove(s: Sid)
      modifies this
      ensures ws == Without(old(ws), s)
    {
      var newWs: seq<Sid> := [];
      for i := 0 to |ws|
        invariant ws == old(ws) && newWs + Without(ws[i..], s) == Without(ws, s)
      {
        assert ws[i..][1..] == ws[i + 1..];
        if ws[i] != s {
          newWs := newWs + [ws[i]];
        }
      }
      ws := newWs;
    }
  }
}
