/** How often a dispatcher object is given away: grabs are counted against what was put in. */
module DispatcherCounts {
  import opened Basics
  import opened Dispatcher

  /** The waits in progress on o that have been given the object. */
  function ServedOn(s: State, o: Oid): set<Tid> {
    set t | t in s.waits && t in s.grabs && s.waits[t].on == o && s.grabs[t] == 1
  }

  /** The finished waits on o that were. */
  function Finished(log: seq<Outcome>, o: Oid): nat {
    if log == [] then 0
    else
      var c := log[|log| - 1];
      Finished(log[..|log| - 1], o) + if c.on == o && c.grabs == 1 then 1 else 0
  }

  /** How often o has been given away. */
  function Taken(s: State, o: Oid): nat {
    Finished(s.log, o) + |ServedOn(s, o)|
  }

  /** What an action puts into o: KeSetEvent brings the state to 1 and KeResetEvent to 0, a semaphore is
      released up to its limit, a mutex by its owner. */
  function PutIn(s: State, a: Action, o: Oid): int
    requires o in s.objects
  {
    var h := s.objects[o];
    match a
    case SetEvent(p) => if p == o then 1 - h.signal else 0
    case ResetEvent(p) => if p == o then -h.signal else 0
    case ReleaseSemaphore(p, n) => if p == o && h.kind.Semaphore? then Min(n, h.kind.limit - h.signal) else 0
    case ReleaseMutex(p, t) => if p == o && h.owner == Some(t) then 1 else 0
    case _ => 0
  }

  lemma FinishedSnoc(log: seq<Outcome>, c: Outcome, o: Oid)
    ensures Finished(log + [c], o) == Finished(log, o) + if c.on == o && c.grabs == 1 then 1 else 0
  {
    assert (log + [c])[..|log|] == log;
  }

  function Members(q: seq<Tid>): set<Tid> {
    set t | t in q
  }

  lemma {:induction false} MembersSize(q: seq<Tid>)
    requires Distinct(q)
    ensures |Members(q)| == |q|
  {
    if q != [] {
      var r, m := q[1..], Members(q[1..]);
      DistinctTail(q);
      MembersSize(r);
      assert q[0] !in m;
      assert Members(q) == m + {q[0]} by {
        assert forall t :: t in q <==> t in r || t == q[0];
      }
    }
  }

  lemma Union(a: set<Tid>, b: set<Tid>)
    requires a !! b
    ensures |a + b| == |a| + |b|
  {
  }

  lemma PrefixDistinct(q: seq<Tid>, n: nat)
    requires Distinct(q) && n <= |q|
    ensures Distinct(q[..n]) && |Members(q[..n])| == n && forall t :: t in q[..n] ==> t in q
  {
    MembersSize(q[..n]);
  }

  /** Serving n queued waiters gives the object away n times. */
  lemma ServedTaken(s: State, o: Oid, n: nat)
    requires o in s.objects && n <= |s.objects[o].blocks| && Distinct(s.objects[o].blocks)
    requires forall t :: t in s.objects[o].blocks ==> t in s.waits && s.waits[t].on == o && t in s.grabs && s.grabs[t] == 0
    ensures Taken(ServedState(s, o, n), o) == Taken(s, o) + n
  {
    var s', q := ServedState(s, o, n), s.objects[o].blocks[..n];
    PrefixDistinct(s.objects[o].blocks, n);
    forall t
      ensures t in ServedOn(s', o) <==> t in ServedOn(s, o) + Members(q)
    {
      assert t in q ==> t in s.objects[o].blocks;
    }
    assert ServedOn(s', o) == ServedOn(s, o) + Members(q);
    Union(ServedOn(s, o), Members(q));
  }

  lemma ServedTakenElsewhere(s: State, o: Oid, n: nat, p: Oid)
    requires o in s.objects && n <= |s.objects[o].blocks| && p != o
    requires forall t :: t in s.objects[o].blocks ==> t in s.waits && s.waits[t].on == o
    ensures Taken(ServedState(s, o, n), p) == Taken(s, p)
  {
    var s', q := ServedState(s, o, n), s.objects[o].blocks[..n];
    assert forall t :: t in q ==> t in s.objects[o].blocks;
    assert ServedOn(s', p) == ServedOn(s, p);
  }

  lemma QueuedUnserved(s: State, o: Oid)
    requires Inv(s) && o in s.objects
    ensures Distinct(s.objects[o].blocks)
    ensures forall t :: t in s.objects[o].blocks ==> t in s.waits && s.waits[t].on == o && t in s.grabs && s.grabs[t] == 0
  {
    assert ObjectInv(s, o);
    forall t | t in s.objects[o].blocks
      ensures t in s.grabs && s.grabs[t] == 0
    {
      assert WaitInv(s, t);
    }
  }

  /** A new signal state for o, and its waiters served as far as it goes. */
  lemma SignalTaken(s: State, o: Oid, h: Header, s1: State, p: Oid)
    requires Inv(s) && o in s.objects && p in s.objects && h == s.objects[o].(signal := h.signal, owner := h.owner)
    requires s1.objects == s.objects[o := h] && s1.waits == s.waits && s1.grabs == s.grabs && s1.log == s.log
    requires if h.kind.Mutex? then h.signal == 1 else h.signal >= 0
    ensures Taken(s1, p) == Taken(s, p)
    ensures var s2 := Signalled(s1, o);
            && p in s2.objects && s2.objects[p].kind == s.objects[p].kind
            && (!h.kind.Notification? ==> s2.objects[p].signal + Taken(s2, p) == s1.objects[p].signal + Taken(s, p))
            && (h.kind.Notification? ==> s2.objects[p].signal == s1.objects[p].signal)
            && (h.kind.Notification? && p != o ==> Taken(s2, p) == Taken(s, p))
  {
    QueuedUnserved(s, o);
    assert ServedOn(s1, p) == ServedOn(s, p);
    if p == o {
      ServedTaken(s1, o, Served(h));
    } else {
      ServedTakenElsewhere(s1, o, Served(h), p);
    }
  }

  /** The balance of o over one action. */
  ghost predicate Balances(s: State, a: Action, s': State, o: Oid)
    requires o in s.objects
  {
    && o in s'.objects && s'.objects[o].kind == s.objects[o].kind
    && (!s.objects[o].kind.Notification? ==>
          s'.objects[o].signal + Taken(s', o) == s.objects[o].signal + Taken(s, o) + PutIn(s, a, o))
    && (s.objects[o].kind.Notification? ==>
          && s'.objects[o].signal == (if a == SetEvent(o) then 1 else if a == ResetEvent(o) then 0 else s.objects[o].signal)
          && (s.objects[o].signal == 0 && a != SetEvent(o) ==> Taken(s', o) == Taken(s, o)))
  }

  lemma SetBalances(s: State, q: Oid, o: Oid)
    requires Inv(s) && Enabled(s, SetEvent(q)) && o in s.objects
    ensures Balances(s, SetEvent(q), Step(s, SetEvent(q)), o)
  {
    var h := s.objects[q].(signal := 1);
    SignalTaken(s, q, h, s.(objects := s.objects[q := h]), o);
  }

  lemma ResetBalances(s: State, q: Oid, o: Oid)
    requires Inv(s) && Enabled(s, ResetEvent(q)) && o in s.objects
    ensures Balances(s, ResetEvent(q), Step(s, ResetEvent(q)), o)
  {
    assert ServedOn(Step(s, ResetEvent(q)), o) == ServedOn(s, o);
  }

  lemma SemaphoreBalances(s: State, q: Oid, n: int, o: Oid)
    requires Inv(s) && Enabled(s, ReleaseSemaphore(q, n)) && o in s.objects
    ensures Balances(s, ReleaseSemaphore(q, n), Step(s, ReleaseSemaphore(q, n)), o)
  {
    assert ObjectInv(s, q);
    var g := s.objects[q];
    assert Released(g.signal, g.kind.limit, n) == g.signal + Min(n, g.kind.limit - g.signal);
    var h := g.(signal := Released(g.signal, g.kind.limit, n));
    SignalTaken(s, q, h, s.(objects := s.objects[q := h]), o);
  }

  lemma MutexBalances(s: State, q: Oid, t: Tid, o: Oid)
    requires Inv(s) && Enabled(s, ReleaseMutex(q, t)) && o in s.objects
    ensures Balances(s, ReleaseMutex(q, t), Step(s, ReleaseMutex(q, t)), o)
  {
    assert ObjectInv(s, q);
    var g := s.objects[q];
    if g.owner == Some(t) {
      var s1 := OneRelease(s, q);
      assert ServedOn(s1, o) == ServedOn(s, o);
      if g.signal == 0 {
        SignalTaken(s, q, s1.objects[q], s1, o);
      }
    }
  }

  /** A wait that finishes at once, with or without the object. */
  lemma LogTaken(s: State, s': State, c: Outcome, o: Oid)
    requires s'.waits == s.waits && s'.grabs == s.grabs && s'.log == s.log + [c]
    ensures Taken(s', o) == Taken(s, o) + if c.on == o && c.grabs == 1 then 1 else 0
  {
    FinishedSnoc(s.log, c, o);
    assert ServedOn(s', o) == ServedOn(s, o);
  }

  lemma SleepTaken(s: State, s': State, t: Tid, w: Wait, o: Oid)
    requires t !in s.waits && s'.waits == s.waits[t := w] && s'.grabs == s.grabs[t := 0] && s'.log == s.log
    ensures Taken(s', o) == Taken(s, o)
  {
    assert ServedOn(s', o) == ServedOn(s, o);
  }

  lemma BeginBalances(s: State, q: Oid, t: Tid, poll: bool, o: Oid)
    requires Inv(s) && Enabled(s, BeginWait(q, t, poll)) && o in s.objects
    ensures Balances(s, BeginWait(q, t, poll), Step(s, BeginWait(q, t, poll)), o)
  {
    var h, s' := s.objects[q], Step(s, BeginWait(q, t, poll));
    if CanGrab(h, t) {
      LogTaken(s, s', Outcome(t, q, Success, 1), o);
    } else if poll {
      LogTaken(s, s', Outcome(t, q, Timeout, 0), o);
    } else {
      SleepTaken(s, s', t, Wait(q, false), o);
    }
  }

  lemma ResumeBalances(s: State, t: Tid, res: int, o: Oid)
    requires Inv(s) && Enabled(s, Resume(t, res)) && o in s.objects
    ensures Balances(s, Resume(t, res), Step(s, Resume(t, res)), o)
  {
    var s' := Step(s, Resume(t, res));
    assert WaitInv(s, t);
    FinishedSnoc(s.log, s'.log[|s.log|], o);
    assert ServedOn(s', o) == ServedOn(s, o) - {t};
    assert t in ServedOn(s, o) <==> s.waits[t].on == o && s.grabs[t] == 1;
  }

  lemma StepBalances(s: State, a: Action, o: Oid)
    requires Inv(s) && Enabled(s, a) && o in s.objects
    ensures Balances(s, a, Step(s, a), o)
  {
    match a
    case Create(q, kind, signal) => assert ServedOn(Step(s, a), o) == ServedOn(s, o);
    case SetEvent(q) => SetBalances(s, q, o);
    case ResetEvent(q) => ResetBalances(s, q, o);
    case ReleaseMutex(q, t) => MutexBalances(s, q, t, o);
    case ReleaseSemaphore(q, n) => SemaphoreBalances(s, q, n, o);
    case BeginWait(q, t, poll) => BeginBalances(s, q, t, poll, o);
    case Resume(t, res) => ResumeBalances(s, t, res, o);
  }

  // ------------------------------------------------------------------------- runs

  ghost function PutInBy(s: State, actions: seq<Action>, o: Oid): int
    requires Inv(s) && o in s.objects
    decreases |actions|
  {
    if actions == [] || !Enabled(s, actions[0]) then 0
    else
      StepKeeps(s, actions[0]);
      StepBalances(s, actions[0], o);
      PutIn(s, actions[0], o) + PutInBy(Step(s, actions[0]), actions[1..], o)
  }

  /** Over every run, a synchronization event, a semaphore or a mutex is given away exactly as often as
      its signal state was raised and not lowered again. */
  lemma {:induction false} GivenAsPutIn(s: State, actions: seq<Action>, t: State, o: Oid)
    requires Inv(s) && Exec(s, actions) == Some(t) && o in s.objects && !s.objects[o].kind.Notification?
    ensures o in t.objects && t.objects[o].kind == s.objects[o].kind
    ensures t.objects[o].signal + Taken(t, o) == s.objects[o].signal + Taken(s, o) + PutInBy(s, actions, o)
    decreases |actions|
  {
    if actions != [] {
      StepKeeps(s, actions[0]);
      StepBalances(s, actions[0], o);
      GivenAsPutIn(Step(s, actions[0]), actions[1..], t, o);
    }
  }

  /** From a reset event nobody gets through before the next KeSetEvent. */
  lemma {:induction false} ResetHolds(s: State, actions: seq<Action>, t: State, o: Oid)
    requires Inv(s) && Exec(s, actions) == Some(t) && IsEvent(s, o) && s.objects[o].signal == 0 && SetEvent(o) !in actions
    ensures IsEvent(t, o) && t.objects[o].signal == 0 && Taken(t, o) == Taken(s, o)
    decreases |actions|
  {
    if actions != [] {
      var a := actions[0];
      assert a in actions;
      StepKeeps(s, a);
      StepBalances(s, a, o);
      EventStaysReset(s, a, o);
      ResetHolds(Step(s, a), actions[1..], t, o);
    }
  }

  lemma EventStaysReset(s: State, a: Action, o: Oid)
    requires Inv(s) && Enabled(s, a) && IsEvent(s, o) && s.objects[o].signal == 0 && a != SetEvent(o)
    ensures IsEvent(Step(s, a), o) && Step(s, a).objects[o].signal == 0 && Taken(Step(s, a), o) == Taken(s, o)
  {
    StepBalances(s, a, o);
    SignalStays(s, a, o);
  }

  /** Only KeSetEvent raises the state of an event. */
  lemma SignalStays(s: State, a: Action, o: Oid)
    requires Inv(s) && Enabled(s, a) && IsEvent(s, o) && s.objects[o].signal == 0 && a != SetEvent(o)
    ensures o in Step(s, a).objects && Step(s, a).objects[o].signal == 0
  {
  }

  // ------------------------------------------------------------------ who holds a mutex

  /** The finished waits of t on o that were given the object. */
  function FinishedBy(log: seq<Outcome>, o: Oid, t: Tid): nat {
    if log == [] then 0
    else
      var c := log[|log| - 1];
      FinishedBy(log[..|log| - 1], o, t) + if c.on == o && c.thread == t && c.grabs == 1 then 1 else 0
  }

  function ServedNow(s: State, o: Oid, t: Tid): nat {
    if t in s.waits && t in s.grabs && s.waits[t].on == o && s.grabs[t] == 1 then 1 else 0
  }

  /** How often o has been given to t. */
  function TakenBy(s: State, o: Oid, t: Tid): nat {
    FinishedBy(s.log, o, t) + ServedNow(s, o, t)
  }

  predicate Releases(s: State, a: Action, o: Oid, t: Tid)
    requires o in s.objects
  {
    a == ReleaseMutex(o, t) && s.objects[o].owner == Some(t)
  }

  lemma FinishedBySnoc(log: seq<Outcome>, c: Outcome, o: Oid, t: Tid)
    ensures FinishedBy(log + [c], o, t)
         == FinishedBy(log, o, t) + if c.on == o && c.thread == t && c.grabs == 1 then 1 else 0
  {
    assert (log + [c])[..|log|] == log;
  }

  /** What t holds of mutex o goes up with what it is given, and down with what it releases. */
  ghost predicate HoldsWhatItGot(s: State, a: Action, s': State, o: Oid, t: Tid)
    requires o in s.objects
  {
    Held(s', o, t) == Held(s, o, t) + TakenBy(s', o, t) - TakenBy(s, o, t) - if Releases(s, a, o, t) then 1 else 0
  }

  lemma SignalHeld(s1: State, q: Oid, o: Oid, t: Tid)
    requires q in s1.objects && o in s1.objects && s1.objects[o].kind.Mutex? && Distinct(s1.objects[q].blocks)
    requires if s1.objects[q].kind.Mutex? then s1.objects[q].signal == 1 else s1.objects[q].signal >= 0
    requires forall u :: u in s1.objects[q].blocks ==>
               u in s1.waits && s1.waits[u].on == q && u in s1.grabs && s1.grabs[u] == 0
    ensures var s2 := Signalled(s1, q);
            Held(s2, o, t) - TakenBy(s2, o, t) == Held(s1, o, t) - TakenBy(s1, o, t)
  {
    var h := s1.objects[q];
    var woken := h.blocks[..Served(h)];
    assert forall u :: u in woken ==> u in h.blocks;
    if q == o && h.blocks != [] {
      assert woken == [h.blocks[0]] && h.blocks[0] in h.blocks;
    }
  }

  lemma HeldSet(s: State, q: Oid, o: Oid, t: Tid)
    requires Inv(s) && Enabled(s, SetEvent(q)) && o in s.objects && s.objects[o].kind.Mutex?
    ensures HoldsWhatItGot(s, SetEvent(q), Step(s, SetEvent(q)), o, t)
  {
    QueuedUnserved(s, q);
    SignalHeld(s.(objects := s.objects[q := s.objects[q].(signal := 1)]), q, o, t);
  }

  lemma HeldSemaphore(s: State, q: Oid, n: int, o: Oid, t: Tid)
    requires Inv(s) && Enabled(s, ReleaseSemaphore(q, n)) && o in s.objects && s.objects[o].kind.Mutex?
    ensures HoldsWhatItGot(s, ReleaseSemaphore(q, n), Step(s, ReleaseSemaphore(q, n)), o, t)
  {
    assert ObjectInv(s, q);
    QueuedUnserved(s, q);
    var g := s.objects[q];
    SignalHeld(s.(objects := s.objects[q := g.(signal := Released(g.signal, g.kind.limit, n))]), q, o, t);
  }

  lemma HeldMutex(s: State, q: Oid, u: Tid, o: Oid, t: Tid)
    requires Inv(s) && Enabled(s, ReleaseMutex(q, u)) && o in s.objects && s.objects[o].kind.Mutex?
    ensures HoldsWhatItGot(s, ReleaseMutex(q, u), Step(s, ReleaseMutex(q, u)), o, t)
  {
    assert ObjectInv(s, q);
    QueuedUnserved(s, q);
    if s.objects[q].owner == Some(u) {
      var s1 := OneRelease(s, q);
      assert Held(s1, o, t) == Held(s, o, t) - if q == o && u == t then 1 else 0;
      if s.objects[q].signal == 0 {
        SignalHeld(s1, q, o, t);
      }
    }
  }

  lemma HeldBegin(s: State, q: Oid, u: Tid, poll: bool, o: Oid, t: Tid)
    requires Inv(s) && Enabled(s, BeginWait(q, u, poll)) && o in s.objects && s.objects[o].kind.Mutex?
    ensures HoldsWhatItGot(s, BeginWait(q, u, poll), Step(s, BeginWait(q, u, poll)), o, t)
  {
    if CanGrab(s.objects[q], u) {
      FinishedBySnoc(s.log, Outcome(u, q, Success, 1), o, t);
    } else if poll {
      FinishedBySnoc(s.log, Outcome(u, q, Timeout, 0), o, t);
    }
  }

  lemma HeldResume(s: State, u: Tid, res: int, o: Oid, t: Tid)
    requires Inv(s) && Enabled(s, Resume(u, res)) && o in s.objects
    ensures HoldsWhatItGot(s, Resume(u, res), Step(s, Resume(u, res)), o, t)
  {
    var s' := Step(s, Resume(u, res));
    assert WaitInv(s, u);
    FinishedBySnoc(s.log, s'.log[|s.log|], o, t);
  }

  lemma StepHeld(s: State, a: Action, o: Oid, t: Tid)
    requires Inv(s) && Enabled(s, a) && o in s.objects && s.objects[o].kind.Mutex?
    ensures HoldsWhatItGot(s, a, Step(s, a), o, t)
  {
    match a
    case Create(_, _, _) =>
    case SetEvent(q) => HeldSet(s, q, o, t);
    case ResetEvent(_) =>
    case ReleaseMutex(q, u) => HeldMutex(s, q, u, o, t);
    case ReleaseSemaphore(q, n) => HeldSemaphore(s, q, n, o, t);
    case BeginWait(q, u, poll) => HeldBegin(s, q, u, poll, o, t);
    case Resume(u, res) => HeldResume(s, u, res, o, t);
  }

  /** How often t has released o as its owner. */
  ghost function ReleasesBy(s: State, actions: seq<Action>, o: Oid, t: Tid): nat
    requires Inv(s) && o in s.objects
    decreases |actions|
  {
    if actions == [] || !Enabled(s, actions[0]) then 0
    else
      StepKeeps(s, actions[0]);
      StepBalances(s, actions[0], o);
      (if Releases(s, actions[0], o, t) then 1 else 0) + ReleasesBy(Step(s, actions[0]), actions[1..], o, t)
  }

  /** Over every run, what a thread holds of a mutex has changed by the waits that gave it to this thread
      and by this thread's releases; so the owner, who alone holds any, is the one to whom it was given. */
  lemma {:induction false} HeldAsGiven(s: State, actions: seq<Action>, r: State, o: Oid, t: Tid)
    requires Inv(s) && Exec(s, actions) == Some(r) && o in s.objects && s.objects[o].kind.Mutex?
    ensures o in r.objects && (r.objects[o].owner == Some(t) <==> Held(r, o, t) > 0)
    ensures Held(r, o, t) == Held(s, o, t) + TakenBy(r, o, t) - TakenBy(s, o, t) - ReleasesBy(s, actions, o, t)
    decreases |actions|
  {
    if actions == [] {
      assert ObjectInv(s, o);
    } else {
      StepKeeps(s, actions[0]);
      StepBalances(s, actions[0], o);
      StepHeld(s, actions[0], o, t);
      HeldAsGiven(Step(s, actions[0]), actions[1..], r, o, t);
    }
  }
}
