/** NT dispatcher objects (ntoskernel.c): events, recursive mutexes and semaphores with FIFO wait
    lists. Every step below is one critical section under dispatcher_lock, or one unlocked store
    or xchg of KeClearEvent / KeResetEvent. Waits are on one object, below DISPATCH_LEVEL. */
module Dispatcher {
  import opened Basics

  type Oid = nat
  type Tid = nat

  datatype Kind = Notification | Synchronization | Mutex | Semaphore(limit: int)

  /** dispatcher_header, with the owner_thread of the enclosing mutex. A thread is in at most one
      wait, so a wait block is named by its thread. */
  datatype Header = Header(kind: Kind, signal: int, owner: Option<Tid>, blocks: seq<Tid>)

  /** A wait in progress: the object waited on and the waiter's wait_done flag. */
  datatype Wait = Wait(on: Oid, done: bool)

  datatype Status = Success | Timeout | Alerted

  /** A finished wait, with the number of grabs made on its behalf. */
  datatype Outcome = Outcome(thread: Tid, on: Oid, status: Status, grabs: nat)

  /** grabs, held and log are history: grabs made for the wait in progress, mutex acquisitions
      minus releases by each thread, and finished waits. */
  datatype State = State(
    objects: map<Oid, Header>,
    waits: map<Tid, Wait>,
    grabs: map<Tid, nat>,
    held: map<(Oid, Tid), nat>,
    log: seq<Outcome>)

  const LONG_MAX: int := 0x7FFF_FFFF

  function WrapLong(x: int): int {
    var m := x % 0x1_0000_0000;
    if m <= LONG_MAX then m else m - 0x1_0000_0000
  }

  // -------------------------------------------------------------------- grabbing

  /** grab_object(dh, thread, 0). */
  predicate CanGrab(h: Header, t: Tid) {
    if h.kind.Mutex? then (h.signal == 1 && h.owner == None) || h.owner == Some(t)
    else h.signal > 0
  }

  /** grab_object(dh, thread, 1), when it succeeds. */
  function Grabbed(h: Header, t: Tid): Header {
    if h.kind.Mutex? then h.(signal := h.signal - 1, owner := Some(t))
    else if h.kind.Notification? then h
    else h.(signal := h.signal - 1)
  }

  function Held(s: State, o: Oid, t: Tid): nat {
    if (o, t) in s.held then s.held[(o, t)] else 0
  }

  function HoldMore(held: map<(Oid, Tid), nat>, o: Oid, t: Tid): map<(Oid, Tid), nat> {
    held[(o, t) := (if (o, t) in held then held[(o, t)] else 0) + 1]
  }

  // ------------------------------------------------------------------- signalling

  /** How many queued waiters a signalled object serves. */
  function Served(h: Header): (n: nat)
    requires h.kind.Mutex? || h.signal >= 0
    ensures n <= |h.blocks|
  {
    match h.kind
    case Notification => if h.signal > 0 then |h.blocks| else 0
    case Mutex => Min(1, |h.blocks|)
    case _ => Min(h.signal, |h.blocks|)
  }

  /** The object after object_signaled has served the first n waiters. */
  function AfterServing(h: Header, n: nat): Header
    requires n <= |h.blocks|
  {
    var h' := h.(blocks := h.blocks[n..]);
    match h.kind
    case Notification => h'
    case Mutex => if n == 0 then h' else h'.(signal := h.signal - n, owner := Some(h.blocks[0]))
    case _ => h'.(signal := h.signal - n)
  }

  function WakeAll(waits: map<Tid, Wait>, ts: seq<Tid>): map<Tid, Wait> {
    map t | t in waits :: if t in ts then waits[t].(done := true) else waits[t]
  }

  function CountGrabs(grabs: map<Tid, nat>, ts: seq<Tid>): map<Tid, nat> {
    map t | t in grabs :: if t in ts then grabs[t] + 1 else grabs[t]
  }

  /** The first n waiters of object o have been given the object. */
  function ServedState(s: State, o: Oid, n: nat): State
    requires o in s.objects && n <= |s.objects[o].blocks|
  {
    var h := s.objects[o];
    var woken := h.blocks[..n];
    s.(objects := s.objects[o := AfterServing(h, n)],
       waits := WakeAll(s.waits, woken),
       grabs := CountGrabs(s.grabs, woken),
       held := if h.kind.Mutex? && n > 0 then HoldMore(s.held, o, h.blocks[0]) else s.held)
  }

  /** Signalling object o, whose header already carries its new signal state. */
  function Signalled(s: State, o: Oid): State
    requires o in s.objects && (s.objects[o].kind.Mutex? || s.objects[o].signal >= 0)
  {
    ServedState(s, o, Served(s.objects[o]))
  }

  // ------------------------------------------------------------------------ steps

  datatype Action =
    | Create(o: Oid, kind: Kind, signal: int)
    | SetEvent(o: Oid)
    | ResetEvent(o: Oid)
    | ReleaseMutex(o: Oid, t: Tid)
    | ReleaseSemaphore(o: Oid, adjustment: int)
    | BeginWait(o: Oid, t: Tid, poll: bool)
    | Resume(t: Tid, res: int)

  /** What callers and the scheduler owe: objects are initialised before use and sensibly, a
      blocked thread does nothing, a sleeper returns with res > 0 only if its flag is set, and a
      semaphore release neither is negative nor overflows a LONG. */
  predicate Enabled(s: State, a: Action) {
    match a
    case Create(o, kind, signal) => o !in s.objects && ProperStart(kind, signal)
    case SetEvent(o) => IsEvent(s, o)
    case ResetEvent(o) => IsEvent(s, o)
    case ReleaseMutex(o, t) => o in s.objects && s.objects[o].kind.Mutex? && t !in s.waits
    case ReleaseSemaphore(o, adj) =>
      && o in s.objects && s.objects[o].kind.Semaphore?
      && 0 <= adj && s.objects[o].signal + adj <= LONG_MAX
    case BeginWait(o, t, _) => o in s.objects && t !in s.waits
    case Resume(t, res) => t in s.waits && (res > 0 ==> s.waits[t].done)
  }

  predicate ProperStart(kind: Kind, signal: int) {
    match kind
    case Mutex => signal == 1
    case Semaphore(limit) => 0 <= signal <= limit <= LONG_MAX
    case _ => signal >= 0
  }

  predicate IsEvent(s: State, o: Oid) {
    o in s.objects && (s.objects[o].kind.Notification? || s.objects[o].kind.Synchronization?)
  }

  /** The semaphore count before waiters are served: capped at the limit. */
  function Released(signal: int, limit: int, adj: int): int {
    if WrapLong(signal + adj) <= limit then WrapLong(signal + adj) else limit
  }

  /** The owner gives up one level. */
  function OneRelease(s: State, o: Oid): State
    requires o in s.objects && s.objects[o].owner.Some? && Held(s, o, s.objects[o].owner.value) > 0
  {
    var h := s.objects[o];
    var t := h.owner.value;
    var h' := if h.signal == 0 then h.(signal := 1, owner := None) else h.(signal := h.signal + 1);
    s.(objects := s.objects[o := h'], held := s.held[(o, t) := Held(s, o, t) - 1])
  }

  function Step(s: State, a: Action): State
    requires Enabled(s, a) && Inv(s)
  {
    match a
    case Create(o, kind, signal) => s.(objects := s.objects[o := Header(kind, signal, None, [])])
    case SetEvent(o) =>
      var h := s.objects[o];
      var s' := s.(objects := s.objects[o := h.(signal := 1)]);
      if h.signal == 0 then Signalled(s', o) else s'
    case ResetEvent(o) => s.(objects := s.objects[o := s.objects[o].(signal := 0)])
    case ReleaseMutex(o, t) =>
      var h := s.objects[o];
      if h.owner == Some(t) && h.signal <= 0 then
        assert ObjectInv(s, o);
        if h.signal == 0 then Signalled(OneRelease(s, o), o) else OneRelease(s, o)
      else s
    case ReleaseSemaphore(o, adj) =>
      var h := s.objects[o];
      assert ObjectInv(s, o);
      var s' := s.(objects := s.objects[o := h.(signal := Released(h.signal, h.kind.limit, adj))]);
      if s'.objects[o].signal > 0 then Signalled(s', o) else s'
    case BeginWait(o, t, poll) =>
      var h := s.objects[o];
      if CanGrab(h, t) then
        s.(objects := s.objects[o := Grabbed(h, t)],
           held := if h.kind.Mutex? then HoldMore(s.held, o, t) else s.held,
           log := s.log + [Outcome(t, o, Success, 1)])
      else if poll then s.(log := s.log + [Outcome(t, o, Timeout, 0)])
      else s.(objects := s.objects[o := h.(blocks := h.blocks + [t])],
              waits := s.waits[t := Wait(o, false)],
              grabs := s.grabs[t := 0])
    case Resume(t, res) =>
      assert WaitInv(s, t);
      var o := s.waits[t].on;
      var status := if s.waits[t].done then Success else if res < 0 then Alerted else Timeout;
      var objects := if s.waits[t].done then s.objects
                     else s.objects[o := s.objects[o].(blocks := Unlink(s.objects[o].blocks, t))];
      s.(objects := objects, waits := s.waits - {t}, grabs := s.grabs - {t},
         log := s.log + [Outcome(t, o, status, s.grabs[t])])
  }

  // -------------------------------------------------------------------- invariant

  /** One object: its counter and owner agree with the history, and its blocks belong to
      sleeping waiters. */
  ghost predicate Consistent(s: State, o: Oid)
    requires o in s.objects
  {
    var h := s.objects[o];
    && Distinct(h.blocks)
    && (forall t :: t in h.blocks ==> t in s.waits && s.waits[t] == Wait(o, false))
    && match h.kind
       case Mutex => MutexInv(s, o)
       case Semaphore(limit) => 0 <= h.signal <= limit <= LONG_MAX
       case _ => h.signal >= 0
  }

  /** A free mutex has signal state 1 and no owner; otherwise its one owner has acquired it
      1 - signal_state times more than it released it, and nobody else has. */
  ghost predicate MutexInv(s: State, o: Oid)
    requires o in s.objects
  {
    var h := s.objects[o];
    && h.signal <= 1
    && (h.owner == None <==> h.signal == 1)
    && forall t: Tid :: Held(s, o, t) == if h.owner == Some(t) then 1 - h.signal else 0
  }

  /** No queued waiter could grab the object it waits on. */
  ghost predicate NoLostWakeup(h: Header) {
    forall t :: t in h.blocks ==> !CanGrab(h, t)
  }

  ghost predicate ObjectInv(s: State, o: Oid)
    requires o in s.objects
  {
    Consistent(s, o) && NoLostWakeup(s.objects[o])
  }

  /** One wait: exactly one grab once it is done, none and a linked block until then. */
  ghost predicate WaitInv(s: State, t: Tid)
    requires t in s.waits
  {
    && t in s.grabs && s.grabs[t] == (if s.waits[t].done then 1 else 0)
    && s.waits[t].on in s.objects
    && (!s.waits[t].done ==> t in s.objects[s.waits[t].on].blocks)
  }

  ghost predicate OutcomeInv(c: Outcome) {
    c.grabs == if c.status == Success then 1 else 0
  }

  /** The invariant, except that waiters of o may be servable. */
  ghost predicate InvBut(s: State, o: Oid) {
    && (forall p :: p in s.objects ==> Consistent(s, p))
    && (forall p :: p in s.objects && p != o ==> NoLostWakeup(s.objects[p]))
    && (forall t :: t in s.waits ==> WaitInv(s, t))
    && (forall k :: 0 <= k < |s.log| ==> OutcomeInv(s.log[k]))
    && (forall p, t :: (p, t) in s.held ==> p in s.objects)
  }

  ghost predicate Inv(s: State) {
    && (forall o :: o in s.objects ==> ObjectInv(s, o))
    && (forall t :: t in s.waits ==> WaitInv(s, t))
    && (forall k :: 0 <= k < |s.log| ==> OutcomeInv(s.log[k]))
    && (forall o, t :: (o, t) in s.held ==> o in s.objects)
  }

  // ----------------------------------------------------------------- preservation

  /** Serving the waiters of a signalled object restores the whole invariant. */
  lemma SignalKeeps(s: State, o: Oid)
    requires o in s.objects && InvBut(s, o)
    requires var h := s.objects[o]; if h.kind.Mutex? then h.signal == 1 else h.signal >= 0
    ensures Inv(Signalled(s, o))
  {
    var h, s' := s.objects[o], Signalled(s, o);
    var n := Served(h);
    var woken := h.blocks[..n];
    assert forall t :: t in woken ==> t in h.blocks;
    assert forall t :: t in h.blocks[n..] ==> t in h.blocks && t !in woken;
    forall p | p in s'.objects
      ensures ObjectInv(s', p)
    {
      assert Consistent(s, p);
      if p == o {
        ServedNone(s, o);
      } else {
        OtherObject(s, s', o, p);
      }
    }
    forall t | t in s'.waits
      ensures WaitInv(s', t)
    {
      assert WaitInv(s, t);
      if t in woken {
        assert s.waits[t] == Wait(o, false);
      } else if s.waits[t] == Wait(o, false) {
        assert t in h.blocks;
        InTail(h.blocks, n, t);
      }
    }
  }

  /** An object that does not change, when no waiter of it changes. */
  lemma OtherObject(s: State, s': State, o: Oid, p: Oid)
    requires p in s.objects && p in s'.objects && s'.objects[p] == s.objects[p] && p != o
    requires Consistent(s, p) && NoLostWakeup(s.objects[p])
    requires forall t :: t in s.waits && s.waits[t].on == p ==> t in s'.waits && s'.waits[t] == s.waits[t]
    requires forall t: Tid :: Held(s', p, t) == Held(s, p, t)
    ensures ObjectInv(s', p)
  {
  }

  lemma InTail(q: seq<Tid>, n: nat, t: Tid)
    requires n <= |q| && t in q && t !in q[..n]
    ensures t in q[n..]
  {
    assert q == q[..n] + q[n..];
  }

  /** After serving, nobody left in the queue could still grab. */
  lemma ServedNone(s: State, o: Oid)
    requires o in s.objects && Consistent(s, o)
    requires var h := s.objects[o]; if h.kind.Mutex? then h.signal == 1 else h.signal >= 0
    ensures ObjectInv(Signalled(s, o), o)
  {
    var h, s' := s.objects[o], Signalled(s, o);
    var n := Served(h);
    var h' := s'.objects[o];
    assert h'.blocks == h.blocks[n..];
    assert Distinct(h'.blocks);
    forall t | t in h'.blocks
      ensures t in s'.waits && s'.waits[t] == Wait(o, false) && !CanGrab(h', t)
    {
      var i :| 0 <= i < |h'.blocks| && h'.blocks[i] == t;
      assert h.blocks[n + i] == t;
      assert t !in h.blocks[..n];
    }
    if h.kind.Mutex? {
      assert MutexInv(s, o);
      forall t: Tid
        ensures Held(s', o, t) == if h'.owner == Some(t) then 1 - h'.signal else 0
      {
        assert Held(s, o, t) == 0;
      }
    }
  }

  lemma CreateKeeps(s: State, a: Action)
    requires a.Create? && Inv(s) && Enabled(s, a)
    ensures Inv(Step(s, a))
  {
    var s' := Step(s, a);
    forall p | p in s'.objects
      ensures ObjectInv(s', p)
    {
      if p != a.o {
        assert ObjectInv(s, p);
        assert forall t: Tid :: Held(s', p, t) == Held(s, p, t);
      }
    }
    forall t | t in s'.waits
      ensures WaitInv(s', t)
    {
      assert WaitInv(s, t);
    }
  }

  /** Changing only the counter and owner of one object, within its own rules, leaves every
      other object and every wait alone. */
  lemma UpdateKeeps(s: State, o: Oid, h': Header, held: map<(Oid, Tid), nat>)
    requires o in s.objects && Inv(s) && h'.kind == s.objects[o].kind && h'.blocks == s.objects[o].blocks
    requires forall p: Oid, t: Tid :: p != o ==> ((p, t) in held <==> (p, t) in s.held)
    requires forall p: Oid, t: Tid :: p != o && (p, t) in s.held ==> held[(p, t)] == s.held[(p, t)]
    requires var s' := s.(objects := s.objects[o := h'], held := held);
             match h'.kind
             case Mutex => MutexInv(s', o)
             case Semaphore(limit) => 0 <= h'.signal <= limit
             case _ => h'.signal >= 0
    ensures InvBut(s.(objects := s.objects[o := h'], held := held), o)
  {
    var s' := s.(objects := s.objects[o := h'], held := held);
    forall p | p in s'.objects
      ensures Consistent(s', p) && (p != o ==> NoLostWakeup(s'.objects[p]))
    {
      assert ObjectInv(s, p);
      if p != o {
        assert forall t: Tid :: Held(s', p, t) == Held(s, p, t);
      }
    }
    forall t | t in s'.waits
      ensures WaitInv(s', t)
    {
      assert WaitInv(s, t);
    }
  }

  lemma BackToInv(s: State, o: Oid)
    requires o in s.objects && InvBut(s, o) && NoLostWakeup(s.objects[o])
    ensures Inv(s)
  {
  }

  lemma EventKeeps(s: State, a: Action)
    requires (a.SetEvent? || a.ResetEvent?) && Inv(s) && Enabled(s, a)
    ensures Inv(Step(s, a))
  {
    var o := a.o;
    var h := s.objects[o];
    assert ObjectInv(s, o);
    var h' := h.(signal := if a.SetEvent? then 1 else 0);
    var mid := s.(objects := s.objects[o := h']);
    UpdateKeeps(s, o, h', s.held);
    if a.SetEvent? && h.signal == 0 {
      SignalKeeps(mid, o);
    } else {
      BackToInv(mid, o);
    }
  }

  lemma SemaphoreKeeps(s: State, a: Action)
    requires a.ReleaseSemaphore? && Inv(s) && Enabled(s, a)
    ensures Inv(Step(s, a))
  {
    var o := a.o;
    var h := s.objects[o];
    assert ObjectInv(s, o);
    ReleaseInRange(h.signal, h.kind.limit, a.adjustment);
    var h' := h.(signal := Released(h.signal, h.kind.limit, a.adjustment));
    var mid := s.(objects := s.objects[o := h']);
    UpdateKeeps(s, o, h', s.held);
    if h'.signal > 0 {
      SignalKeeps(mid, o);
    } else {
      BackToInv(mid, o);
    }
  }

  /** A release keeps the count within 0..limit exactly when the sum does not overflow a LONG. */
  lemma ReleaseInRange(signal: int, limit: int, adj: int)
    requires 0 <= signal <= limit <= LONG_MAX && 0 <= adj <= LONG_MAX
    ensures 0 <= Released(signal, limit, adj) <= limit <==> signal + adj <= LONG_MAX
  {
  }

  /** Overflowing it really does leave the range: count 1, limit LONG_MAX, release LONG_MAX. */
  lemma ReleaseOverflow()
    ensures Released(1, LONG_MAX, LONG_MAX) == -0x8000_0000
  {
    assert WrapLong(1 + LONG_MAX) == -0x8000_0000;
  }

  lemma OneReleaseKeeps(s: State, o: Oid)
    requires o in s.objects && s.objects[o].kind.Mutex? && Inv(s)
    requires s.objects[o].owner.Some? && Held(s, o, s.objects[o].owner.value) > 0
    ensures InvBut(OneRelease(s, o), o)
    ensures s.objects[o].signal < 0 ==> Inv(OneRelease(s, o))
  {
    assert ObjectInv(s, o);
    var h, s' := s.objects[o], OneRelease(s, o);
    var h' := s'.objects[o];
    forall u: Tid
      ensures Held(s', o, u) == if h'.owner == Some(u) then 1 - h'.signal else 0
    {
      assert Held(s, o, u) == if h.owner == Some(u) then 1 - h.signal else 0;
    }
    UpdateKeeps(s, o, h', s'.held);
    if h.signal < 0 {
      BackToInv(s', o);
    }
  }

  lemma MutexKeeps(s: State, a: Action)
    requires a.ReleaseMutex? && Inv(s) && Enabled(s, a)
    ensures Inv(Step(s, a))
  {
    var o, t := a.o, a.t;
    var h := s.objects[o];
    assert ObjectInv(s, o);
    if h.owner == Some(t) && h.signal <= 0 {
      OneReleaseKeeps(s, o);
      if h.signal == 0 {
        SignalKeeps(OneRelease(s, o), o);
      }
    }
  }

  lemma GrabKeeps(s: State, o: Oid, t: Tid)
    requires o in s.objects && Inv(s) && CanGrab(s.objects[o], t) && t !in s.waits
    ensures var h := s.objects[o];
            Inv(s.(objects := s.objects[o := Grabbed(h, t)],
                   held := if h.kind.Mutex? then HoldMore(s.held, o, t) else s.held))
  {
    var h := s.objects[o];
    assert ObjectInv(s, o);
    var held := if h.kind.Mutex? then HoldMore(s.held, o, t) else s.held;
    var h' := Grabbed(h, t);
    var s' := s.(objects := s.objects[o := h'], held := held);
    if h.kind.Mutex? {
      forall u: Tid
        ensures Held(s', o, u) == if h'.owner == Some(u) then 1 - h'.signal else 0
      {
        assert Held(s, o, u) == if h.owner == Some(u) then 1 - h.signal else 0;
      }
    }
    UpdateKeeps(s, o, h', held);
    BackToInv(s', o);
  }

  lemma EnqueueKeeps(s: State, o: Oid, t: Tid)
    requires o in s.objects && Inv(s) && !CanGrab(s.objects[o], t) && t !in s.waits
    ensures Inv(s.(objects := s.objects[o := s.objects[o].(blocks := s.objects[o].blocks + [t])],
                   waits := s.waits[t := Wait(o, false)], grabs := s.grabs[t := 0]))
  {
    var s' := s.(objects := s.objects[o := s.objects[o].(blocks := s.objects[o].blocks + [t])],
                 waits := s.waits[t := Wait(o, false)], grabs := s.grabs[t := 0]);
    forall p | p in s'.objects
      ensures ObjectInv(s', p)
    {
      assert ObjectInv(s, p);
      assert t !in s.objects[p].blocks;
      assert forall u: Tid :: Held(s', p, u) == Held(s, p, u);
      if p == o {
        DistinctSnoc(s.objects[o].blocks, t);
      }
    }
    forall u | u in s'.waits
      ensures WaitInv(s', u)
    {
      if u != t {
        assert WaitInv(s, u);
      } else {
        assert s'.objects[o].blocks[|s.objects[o].blocks|] == t;
      }
    }
  }

  lemma LogKeeps(s: State, c: Outcome)
    requires Inv(s) && OutcomeInv(c)
    ensures Inv(s.(log := s.log + [c]))
  {
    var s' := s.(log := s.log + [c]);
    forall p | p in s'.objects
      ensures ObjectInv(s', p)
    {
      assert ObjectInv(s, p);
      assert forall u: Tid :: Held(s', p, u) == Held(s, p, u);
    }
    forall u | u in s'.waits
      ensures WaitInv(s', u)
    {
      assert WaitInv(s, u);
    }
  }

  lemma BeginKeeps(s: State, a: Action)
    requires a.BeginWait? && Inv(s) && Enabled(s, a)
    ensures Inv(Step(s, a))
  {
    var o, t := a.o, a.t;
    var h := s.objects[o];
    if CanGrab(h, t) {
      GrabKeeps(s, o, t);
      LogKeeps(s.(objects := s.objects[o := Grabbed(h, t)],
                  held := if h.kind.Mutex? then HoldMore(s.held, o, t) else s.held),
               Outcome(t, o, Success, 1));
    } else if a.poll {
      LogKeeps(s, Outcome(t, o, Timeout, 0));
    } else {
      EnqueueKeeps(s, o, t);
    }
  }

  lemma ResumeKeeps(s: State, a: Action)
    requires a.Resume? && Inv(s) && Enabled(s, a)
    ensures Inv(Step(s, a))
  {
    var t, s' := a.t, Step(s, a);
    assert WaitInv(s, t);
    var o := s.waits[t].on;
    assert ObjectInv(s, o);
    UnlinkMembers(s.objects[o].blocks, t);
    forall p | p in s'.objects
      ensures ObjectInv(s', p)
    {
      assert ObjectInv(s, p);
      assert forall u: Tid :: Held(s', p, u) == Held(s, p, u);
      if p == o {
        ResumedObject(s, s', o, t);
      } else {
        assert s'.objects[p] == s.objects[p];
      }
    }
    forall u | u in s'.waits
      ensures WaitInv(s', u)
    {
      assert WaitInv(s, u);
    }
  }

  /** The object waited on loses at most the block of the thread that comes back. */
  lemma ResumedObject(s: State, s': State, o: Oid, t: Tid)
    requires o in s.objects && o in s'.objects && ObjectInv(s, o)
    requires s'.objects[o] == s.objects[o].(blocks := s'.objects[o].blocks) && Distinct(s'.objects[o].blocks)
    requires forall u :: u in s'.objects[o].blocks ==> u in s.objects[o].blocks && u != t
    requires s'.waits == s.waits - {t} && forall u: Tid :: Held(s', o, u) == Held(s, o, u)
    ensures ObjectInv(s', o)
  {
  }

  lemma StepKeeps(s: State, a: Action)
    requires Inv(s) && Enabled(s, a)
    ensures Inv(Step(s, a))
  {
    match a
    case Create(_, _, _) => CreateKeeps(s, a);
    case SetEvent(_) => EventKeeps(s, a);
    case ResetEvent(_) => EventKeeps(s, a);
    case ReleaseMutex(_, _) => MutexKeeps(s, a);
    case ReleaseSemaphore(_, _) => SemaphoreKeeps(s, a);
    case BeginWait(_, _, _) => BeginKeeps(s, a);
    case Resume(_, _) => ResumeKeeps(s, a);
  }

  // ------------------------------------------------------------------------- runs

  const INITIAL: State := State(map[], map[], map[], map[], [])

  /** The state after a run, or None when some action was not enabled in its turn. */
  function Exec(s: State, actions: seq<Action>): (r: Option<State>)
    requires Inv(s)
    ensures r.Some? ==> Inv(r.value)
    decreases |actions|
  {
    if actions == [] then Some(s)
    else if !Enabled(s, actions[0]) then None
    else
      StepKeeps(s, actions[0]);
      Exec(Step(s, actions[0]), actions[1..])
  }

  /** Safety of every run from the empty system. */
  lemma EveryRun(actions: seq<Action>, s: State)
    requires Exec(INITIAL, actions) == Some(s)
    // no queued waiter could grab, and only threads inside a wait are queued, once
    ensures forall o, t :: o in s.objects && t in s.objects[o].blocks ==>
              !CanGrab(s.objects[o], t) && t in s.waits && s.waits[t] == Wait(o, false)
    ensures forall o :: o in s.objects ==> Distinct(s.objects[o].blocks)
    // mutex ownership and recursion depth
    ensures forall o :: o in s.objects && s.objects[o].kind.Mutex? ==> MutexInv(s, o)
    // semaphore range
    ensures forall o :: o in s.objects && s.objects[o].kind.Semaphore? ==>
              0 <= s.objects[o].signal <= s.objects[o].kind.limit
  {
    forall o | o in s.objects
      ensures ObjectInv(s, o)
    {
    }
  }

  /** Every finished wait succeeded exactly when one grab was made for it, and timed out or was
      alerted exactly when none was. */
  lemma EveryOutcome(actions: seq<Action>, s: State, k: nat)
    requires Exec(INITIAL, actions) == Some(s) && k < |s.log|
    ensures s.log[k].status == Success <==> s.log[k].grabs == 1
    ensures s.log[k].status != Success <==> s.log[k].grabs == 0
  {
    assert OutcomeInv(s.log[k]);
  }

  /** However the timer and the signaller race, a sleeper that comes back is counted once in the
      log, and no object keeps a block of it. */
  lemma ResumeUnlinks(s: State, t: Tid, res: int)
    requires Inv(s) && Enabled(s, Resume(t, res))
    ensures var s' := Step(s, Resume(t, res));
            && |s'.log| == |s.log| + 1
            && s'.log[|s.log|].thread == t && s'.log[|s.log|].on == s.waits[t].on
            && s'.log[|s.log|].status == (if s.grabs[t] == 1 then Success else if res < 0 then Alerted else Timeout)
            && t !in s'.waits
            && forall o :: o in s'.objects ==> t !in s'.objects[o].blocks
  {
    var s' := Step(s, Resume(t, res));
    assert WaitInv(s, t);
    ResumeKeeps(s, Resume(t, res));
    forall o | o in s'.objects
      ensures t !in s'.objects[o].blocks
    {
      assert ObjectInv(s', o);
    }
  }

  // ------------------------------------------------------------- the code in place

  /** The state guarded by dispatcher_lock, and the functions that hold the lock. */
  class KernelDispatcher {
    var objects: map<Oid, Header>
    var waits: map<Tid, Wait>
    ghost var grabs: map<Tid, nat>
    ghost var held: map<(Oid, Tid), nat>
    ghost var log: seq<Outcome>

    ghost function View(): State
      reads this
    {
      State(objects, waits, grabs, held, log)
    }

    constructor ()
      ensures View() == INITIAL && Inv(View())
    {
      objects, waits, grabs, held, log := map[], map[], map[], map[], [];
    }

    method GrabObject(o: Oid, t: Tid, grab: bool) returns (ok: bool)
      requires o in objects
      modifies this`objects
      ensures ok == CanGrab(old(objects)[o], t)
      ensures objects == if ok && grab then old(objects)[o := Grabbed(old(objects)[o], t)]
                         else old(objects)
    {
      var h := objects[o];
      if h.kind.Mutex? {
        if (h.signal == 1 && h.owner == None) || h.owner == Some(t) {
          if grab {
            objects := objects[o := h.(signal := h.signal - 1, owner := Some(t))];
          }
          return true;
        }
      } else if h.signal > 0 {
        if grab && (h.kind.Synchronization? || h.kind.Semaphore?) {
          objects := objects[o := h.(signal := h.signal - 1)];
        }
        return true;
      }
      return false;
    }

    /** Walks the whole wait list, grabbing for whoever can; the result is that a prefix of the
        queue, as long as the object can serve, is woken in FIFO order. */
    method ObjectSignaled(o: Oid)
      requires o in objects && Distinct(objects[o].blocks)
      requires if objects[o].kind.Mutex? then objects[o].signal == 1 && objects[o].owner == None
               else objects[o].signal >= 0
      requires forall t :: t in objects[o].blocks ==> t in waits && t in grabs
      modifies this
      ensures View() == Signalled(old(View()), o)
    {
      ghost var s0 := View();
      ghost var h0 := objects[o];
      ghost var n := 0;
      var cur := 0;
      NothingServed(s0, o);
      while cur < |objects[o].blocks|
        invariant o in objects && 0 <= n && 0 <= cur && n + cur <= |h0.blocks|
        invariant n == Min(n + cur, Served(h0))
        invariant View() == ServedState(s0, o, n)
        decreases |h0.blocks| - n - cur
      {
        var ok := Visit(o, cur, s0, n);
        if ok {
          n := n + 1;
        } else {
          cur := cur + 1;
        }
      }
    }

    /** One turn of the loop: try to grab for the block at the cursor, and wake it. */
    method Visit(o: Oid, cur: nat, ghost s0: State, ghost n: nat) returns (ok: bool)
      requires o in s0.objects && Distinct(s0.objects[o].blocks) && n + cur < |s0.objects[o].blocks|
      requires if s0.objects[o].kind.Mutex? then s0.objects[o].signal == 1 && s0.objects[o].owner == None
               else s0.objects[o].signal >= 0
      requires forall t :: t in s0.objects[o].blocks ==> t in s0.waits && t in s0.grabs
      requires n == Min(n + cur, Served(s0.objects[o]))
      requires View() == ServedState(s0, o, n)
      modifies this
      ensures ok <==> n < Served(s0.objects[o])
      ensures ok ==> cur == 0
      ensures View() == ServedState(s0, o, if ok then n + 1 else n)
    {
      CanServeNext(s0.objects[o], n, cur);
      var t := objects[o].blocks[cur];
      ok := GrabObject(o, t, true);
      if ok {
        ServeOne(s0, o, n);
        WakeFront(o, t);
      }
    }

    /** The tail of the loop body, for the block at the cursor, which is the first one. */
    method WakeFront(o: Oid, t: Tid)
      requires o in objects && objects[o].blocks != [] && objects[o].blocks[0] == t
      requires t in waits && t in grabs
      modifies this
      ensures View() == Woken(old(View()), o, t)
    {
      var h := objects[o];
      objects := objects[o := h.(blocks := h.blocks[1..])];
      waits := waits[t := waits[t].(done := true)];
      grabs := grabs[t := grabs[t] + 1];
      if h.kind.Mutex? {
        held := HoldMore(held, o, t);
      }
    }

    method KeInitializeObject(o: Oid, kind: Kind, signal: int)
      requires Inv(View()) && Enabled(View(), Create(o, kind, signal))
      modifies this
      ensures View() == Step(old(View()), Create(o, kind, signal)) && Inv(View())
      ensures objects == old(objects)[o := Header(kind, signal, None, [])]
    {
      StepKeeps(View(), Create(o, kind, signal));
      objects := objects[o := Header(kind, signal, None, [])];
    }

    method KeSetEvent(o: Oid) returns (oldState: int)
      requires Inv(View()) && Enabled(View(), SetEvent(o))
      modifies this
      ensures View() == Step(old(View()), SetEvent(o)) && Inv(View())
      ensures oldState == old(objects)[o].signal
    {
      StepKeeps(View(), SetEvent(o));
      WaitersReady(View(), o);
      oldState := objects[o].signal;
      objects := objects[o := objects[o].(signal := 1)];
      if oldState == 0 {
        ObjectSignaled(o);
      }
    }

    method KeResetEvent(o: Oid) returns (oldState: int)
      requires Inv(View()) && Enabled(View(), ResetEvent(o))
      modifies this
      ensures View() == Step(old(View()), ResetEvent(o)) && Inv(View())
      ensures oldState == old(objects)[o].signal
    {
      StepKeeps(View(), ResetEvent(o));
      oldState := objects[o].signal;
      objects := objects[o := objects[o].(signal := 0)];
    }

    /** Returns the signal state before the release, or None for STATUS_MUTANT_NOT_OWNED. */
    method KeReleaseMutex(o: Oid, current: Tid) returns (ret: Option<int>)
      requires Inv(View()) && Enabled(View(), ReleaseMutex(o, current))
      modifies this
      ensures View() == Step(old(View()), ReleaseMutex(o, current)) && Inv(View())
      ensures ret == if old(Held(View(), o, current)) > 0 then Some(old(objects)[o].signal) else None
    {
      StepKeeps(View(), ReleaseMutex(o, current));
      WaitersReady(View(), o);
      assert Held(View(), o, current) > 0 <==> objects[o].owner == Some(current) && objects[o].signal <= 0;
      if objects[o].owner == Some(current) && objects[o].signal <= 0 {
        var state := ReleaseLevel(o, current);
        if state == 0 {
          ObjectSignaled(o);
        }
        ret := Some(state);
      } else {
        ret := None;
      }
    }

    method ReleaseLevel(o: Oid, current: Tid) returns (state: int)
      requires o in objects && objects[o].owner == Some(current) && Held(View(), o, current) > 0
      modifies this
      ensures View() == OneRelease(old(View()), o) && state == old(objects)[o].signal
    {
      var h := objects[o];
      state := h.signal;
      objects := objects[o := h.(signal := h.signal + 1)];
      held := held[(o, current) := held[(o, current)] - 1];
      if state == 0 {
        objects := objects[o := objects[o].(owner := None)];
      }
    }

    /** The stores of KeReleaseSemaphore. */
    method AddCount(o: Oid, adjustment: int) returns (ret: int)
      requires o in objects && objects[o].kind.Semaphore?
      modifies this`objects
      ensures var h := old(objects)[o];
              && ret == h.signal
              && objects == old(objects)[o := h.(signal := Released(h.signal, h.kind.limit, adjustment))]
    {
      var h := objects[o];
      ret := h.signal;
      if WrapLong(h.signal + adjustment) <= h.kind.limit {
        objects := objects[o := h.(signal := WrapLong(h.signal + adjustment))];
      } else {
        objects := objects[o := h.(signal := h.kind.limit)];
      }
    }

    method KeReleaseSemaphore(o: Oid, adjustment: int) returns (ret: int)
      requires Inv(View()) && o in objects && objects[o].kind.Semaphore? && 0 <= adjustment <= LONG_MAX
      modifies this
      ensures ret == old(objects)[o].signal
      ensures ret + adjustment <= LONG_MAX ==>
                View() == Step(old(View()), ReleaseSemaphore(o, adjustment)) && Inv(View())
      ensures ret + adjustment > LONG_MAX ==>
                View() == old(View()).(objects := old(objects)[o := old(objects)[o].(signal := WrapLong(ret + adjustment))])
    {
      WaitersReady(View(), o);
      if objects[o].signal + adjustment <= LONG_MAX {
        StepKeeps(View(), ReleaseSemaphore(o, adjustment));
      }
      ReleaseInRange(objects[o].signal, objects[o].kind.limit, adjustment);
      ret := AddCount(o, adjustment);
      if objects[o].signal > 0 {
        ObjectSignaled(o);
      }
    }

    /** KeWaitForMultipleObjects with count 1, up to the point where the thread goes to sleep
        (None) or returns. WaitAll tests in the first pass and grabs in the second, WaitAny grabs
        in the first: for one object both do the same. */
    method BeginSingleWait(o: Oid, current: Tid, waitAll: bool, poll: bool) returns (ret: Option<Status>)
      requires Inv(View()) && Enabled(View(), BeginWait(o, current, poll))
      modifies this
      ensures View() == Step(old(View()), BeginWait(o, current, poll)) && Inv(View())
      ensures match ret
              case None => current in waits && log == old(log)
              case Some(status) => |log| == |old(log)| + 1 && log[|old(log)|].status == status
      ensures var h := old(objects)[o];
              var free := if h.kind.Mutex? then h.owner == None || h.owner == Some(current) else h.signal > 0;
              ret == if free then Some(Success) else if poll then Some(Timeout) else None
    {
      StepKeeps(View(), BeginWait(o, current, poll));
      var waitCount := 0;
      var ok := GrabObject(o, current, !waitAll);
      if ok {
        if !waitAll {
          RecordGrab(o, current);
          return Some(Success);
        }
      } else {
        waitCount := 1;
      }
      if poll && waitCount != 0 {
        log := log + [Outcome(current, o, Timeout, 0)];
        return Some(Timeout);
      }
      ok := GrabObject(o, current, true);
      if ok {
        RecordGrab(o, current);
      } else {
        waits := waits[current := Wait(o, false)];
        grabs := grabs[current := 0];
        objects := objects[o := objects[o].(blocks := objects[o].blocks + [current])];
      }
      return if waitCount == 0 then Some(Success) else None;
    }

    ghost method RecordGrab(o: Oid, t: Tid)
      requires o in objects
      modifies this`held, this`log
      ensures held == if objects[o].kind.Mutex? then HoldMore(old(held), o, t) else old(held)
      ensures log == old(log) + [Outcome(t, o, Success, 1)]
    {
      if objects[o].kind.Mutex? {
        held := HoldMore(held, o, t);
      }
      log := log + [Outcome(t, o, Success, 1)];
    }

    /** The rest of the wait: the sleep ended with res, but only wait_done, read with the lock
        held, decides. */
    method ResumeWait(current: Tid, res: int) returns (ret: Status)
      requires Inv(View()) && Enabled(View(), Resume(current, res))
      modifies this
      ensures View() == Step(old(View()), Resume(current, res)) && Inv(View())
      ensures ret == Success <==> old(grabs)[current] == 1
      ensures ret != Success ==> ret == if res < 0 then Alerted else Timeout
    {
      StepKeeps(View(), Resume(current, res));
      assert WaitInv(View(), current);
      var w := waits[current];
      if !w.done {
        var h := objects[w.on];
        objects := objects[w.on := h.(blocks := Unlink(h.blocks, current))];
        ret := if res < 0 then Alerted else Timeout;
      } else {
        ret := Success;
      }
      log := log + [Outcome(current, w.on, ret, grabs[current])];
      waits, grabs := waits - {current}, grabs - {current};
    }
  }

  lemma WaitersReady(s: State, o: Oid)
    requires Inv(s) && o in s.objects
    ensures Distinct(s.objects[o].blocks)
    ensures forall t :: t in s.objects[o].blocks ==> t in s.waits && t in s.grabs
    ensures s.objects[o].kind.Mutex? ==> MutexInv(s, o)
    ensures s.objects[o].kind.Semaphore? ==> 0 <= s.objects[o].signal <= s.objects[o].kind.limit <= LONG_MAX
    ensures !s.objects[o].kind.Mutex? ==> s.objects[o].signal >= 0
  {
    assert ObjectInv(s, o);
    forall t | t in s.objects[o].blocks
      ensures t in s.waits && t in s.grabs
    {
      assert WaitInv(s, t);
    }
  }

  function Woken(s: State, o: Oid, t: Tid): State
    requires o in s.objects && s.objects[o].blocks != [] && t in s.waits && t in s.grabs
  {
    var h := s.objects[o];
    s.(objects := s.objects[o := h.(blocks := h.blocks[1..])],
       waits := s.waits[t := s.waits[t].(done := true)],
       grabs := s.grabs[t := s.grabs[t] + 1],
       held := if h.kind.Mutex? then HoldMore(s.held, o, t) else s.held)
  }

  lemma NothingServed(s: State, o: Oid)
    requires o in s.objects
    ensures ServedState(s, o, 0) == s
  {
    var h := s.objects[o];
    assert h.blocks[0..] == h.blocks;
    assert s.objects[o := h] == s.objects;
    assert WakeAll(s.waits, []) == s.waits && CountGrabs(s.grabs, []) == s.grabs;
  }

  /** The waiter at the cursor can grab exactly while the object has something left to give. */
  lemma CanServeNext(h: Header, n: nat, cur: nat)
    requires Distinct(h.blocks) && n + cur < |h.blocks|
    requires if h.kind.Mutex? then h.signal == 1 && h.owner == None else h.signal >= 0
    requires n == Min(n + cur, Served(h))
    ensures AfterServing(h, n).blocks[cur] == h.blocks[n + cur]
    ensures CanGrab(AfterServing(h, n), h.blocks[n + cur]) <==> n < Served(h)
    ensures n < Served(h) ==> cur == 0
  {
  }

  /** Grabbing for the first queued waiter and waking it is one more waiter served. */
  lemma ServeOne(s: State, o: Oid, n: nat)
    requires o in s.objects && n < |s.objects[o].blocks| && Distinct(s.objects[o].blocks)
    requires s.objects[o].blocks[n] in s.waits && s.objects[o].blocks[n] in s.grabs
    requires s.objects[o].kind.Mutex? ==> n == 0
    ensures var v, t := ServedState(s, o, n), s.objects[o].blocks[n];
            Woken(v.(objects := v.objects[o := Grabbed(v.objects[o], t)]), o, t)
            == ServedState(s, o, n + 1)
  {
    var h := s.objects[o];
    var t := h.blocks[n];
    assert h.blocks[..n + 1] == h.blocks[..n] + [t];
    assert t !in h.blocks[..n];
    WakeOneMore(s.waits, s.grabs, h.blocks[..n], t);
    var v := ServedState(s, o, n);
    GrabOneMore(h, n, t);
    assert v.objects[o := AfterServing(h, n + 1)] == ServedState(s, o, n + 1).objects;
  }

  lemma WakeOneMore(waits: map<Tid, Wait>, grabs: map<Tid, nat>, ts: seq<Tid>, t: Tid)
    requires t !in ts && t in waits && t in grabs
    ensures WakeAll(waits, ts + [t]) == WakeAll(waits, ts)[t := waits[t].(done := true)]
    ensures CountGrabs(grabs, ts + [t]) == CountGrabs(grabs, ts)[t := grabs[t] + 1]
  {
  }

  lemma GrabOneMore(h: Header, n: nat, t: Tid)
    requires n < |h.blocks| && h.blocks[n] == t && (h.kind.Mutex? ==> n == 0)
    ensures AfterServing(h, n + 1) == Grabbed(AfterServing(h, n), t).(blocks := AfterServing(h, n).blocks[1..])
  {
    assert h.blocks[n..][1..] == h.blocks[n + 1..];
  }
}
