/** Waiters of a dispatcher object are served in the order in which their waits began. */
module DispatcherOrder {
  import opened Basics
  import opened Dispatcher

  /** The number of each wait: the place in the run of the action that began it. Only waits that go to
      sleep are numbered. */
  ghost function BornAfter(s: State, a: Action, born: map<Tid, nat>, now: nat): map<Tid, nat>
    requires Inv(s) && Enabled(s, a)
  {
    if a.BeginWait? && a.t in Step(s, a).waits then born[a.t := now] else born
  }

  ghost function Born(s: State, actions: seq<Action>, born: map<Tid, nat>, now: nat): map<Tid, nat>
    requires Inv(s)
    decreases |actions|
  {
    if actions == [] || !Enabled(s, actions[0]) then born
    else
      StepKeeps(s, actions[0]);
      Born(Step(s, actions[0]), actions[1..], BornAfter(s, actions[0], born, now), now + 1)
  }

  // -------------------------------------------------------------------- invariant

  ghost predicate Sorted(q: seq<Tid>, born: map<Tid, nat>) {
    && (forall t :: t in q ==> t in born)
    && forall i, j :: 0 <= i < j < |q| ==> q[i] in born && q[j] in born && born[q[i]] < born[q[j]]
  }

  ghost predicate Numbered(s: State, born: map<Tid, nat>, now: nat) {
    forall t :: t in s.waits ==> t in born && born[t] < now
  }

  ghost predicate ListsSorted(s: State, born: map<Tid, nat>) {
    forall o :: o in s.objects ==> Sorted(s.objects[o].blocks, born)
  }

  /** Of two waits on one object, the one that has been served is the older. */
  ghost predicate OlderServed(s: State, born: map<Tid, nat>) {
    forall t, u :: t in s.waits && u in s.waits && t in born && u in born ==>
      (s.waits[t].on == s.waits[u].on && s.waits[t].done && !s.waits[u].done ==> born[t] < born[u])
  }

  ghost predicate Ordered(s: State, born: map<Tid, nat>, now: nat) {
    Numbered(s, born, now) && ListsSorted(s, born) && OlderServed(s, born)
  }

  // ----------------------------------------------------------------- preservation

  lemma {:induction false} UnlinkSorted(q: seq<Tid>, t: Tid, born: map<Tid, nat>)
    requires Sorted(q, born)
    ensures Sorted(Unlink(q, t), born) && forall u :: u in Unlink(q, t) ==> u in q
  {
    if q != [] {
      var r := q[1..];
      TailSorted(q, r, born);
      UnlinkSorted(r, t, born);
      if q[0] != t {
        HeadFirst(q, r, born);
        ConsSorted(q[0], Unlink(r, t), born);
      }
    }
  }

  lemma TailSorted(q: seq<Tid>, r: seq<Tid>, born: map<Tid, nat>)
    requires Sorted(q, born) && q != [] && r == q[1..]
    ensures Sorted(r, born) && q[0] in born && forall u :: u in q <==> u == q[0] || u in r
  {
    assert q == [q[0]] + r;
    assert forall i :: 0 <= i < |r| ==> r[i] == q[i + 1];
  }

  lemma HeadFirst(q: seq<Tid>, r: seq<Tid>, born: map<Tid, nat>)
    requires Sorted(q, born) && q != [] && r == q[1..]
    ensures forall u :: u in r ==> u in born && born[q[0]] < born[u]
  {
    forall u | u in r
      ensures u in born && born[q[0]] < born[u]
    {
      var i :| 0 <= i < |r| && r[i] == u;
      assert q[i + 1] == u;
    }
  }

  lemma ConsSorted(t: Tid, q: seq<Tid>, born: map<Tid, nat>)
    requires Sorted(q, born) && t in born && forall u :: u in q ==> u in born && born[t] < born[u]
    ensures Sorted([t] + q, born)
  {
    assert forall i :: 0 <= i < |q| ==> q[i] in q;
  }

  lemma SnocSorted(q: seq<Tid>, t: Tid, born: map<Tid, nat>)
    requires Sorted(q, born) && t in born && forall u :: u in q ==> u in born && born[u] < born[t]
    ensures Sorted(q + [t], born)
  {
    assert forall i :: 0 <= i < |q| ==> q[i] in q;
  }

  lemma SplitSorted(q: seq<Tid>, n: nat, born: map<Tid, nat>)
    requires Sorted(q, born) && n <= |q|
    ensures Sorted(q[n..], born)
    ensures forall t, u :: t in q[..n] && u in q[n..] ==> t in born && u in born && born[t] < born[u]
  {
    forall t, u | t in q[..n] && u in q[n..]
      ensures t in born && u in born && born[t] < born[u]
    {
      var i :| 0 <= i < n && q[..n][i] == t;
      var j :| 0 <= j < |q| - n && q[n..][j] == u;
      assert q[i] == t && q[n + j] == u;
    }
    assert forall i :: 0 <= i < |q| - n ==> q[n..][i] == q[n + i] && q[n + i] in q;
  }

  /** Serving a prefix of the list keeps the order. */
  lemma ServedOrdered(s: State, o: Oid, n: nat, born: map<Tid, nat>, now: nat)
    requires o in s.objects && n <= |s.objects[o].blocks| && Ordered(s, born, now)
    requires forall t :: t in s.objects[o].blocks ==> t in s.waits && s.waits[t] == Wait(o, false)
    requires forall t :: t in s.waits && s.waits[t] == Wait(o, false) ==> t in s.objects[o].blocks
    ensures Ordered(ServedState(s, o, n), born, now)
  {
    var q, s' := s.objects[o].blocks, ServedState(s, o, n);
    SplitSorted(q, n, born);
    assert q == q[..n] + q[n..];
    assert forall t :: t in q <==> t in q[..n] || t in q[n..];
    assert ListsSorted(s', born);
    forall t, u | t in s'.waits && u in s'.waits && t in born && u in born && s'.waits[t].on == s'.waits[u].on
                  && s'.waits[t].done && !s'.waits[u].done
      ensures born[t] < born[u]
    {
      assert s.waits[u] == s'.waits[u] && u !in q[..n];
      if t in q[..n] {
        assert s.waits[t] == Wait(o, false) && s.waits[u] == Wait(o, false);
        assert u in q[n..];
      }
    }
  }

  /** What the wait list of an object holds, from the invariant. */
  lemma ListHolds(s: State, o: Oid)
    requires Inv(s) && o in s.objects
    ensures forall t :: t in s.objects[o].blocks ==> t in s.waits && s.waits[t] == Wait(o, false)
    ensures forall t :: t in s.waits && s.waits[t] == Wait(o, false) ==> t in s.objects[o].blocks
  {
    assert ObjectInv(s, o);
    forall t | t in s.waits && s.waits[t] == Wait(o, false)
      ensures t in s.objects[o].blocks
    {
      assert WaitInv(s, t);
    }
  }

  /** A step that changes one header, without its list, and serves a prefix of the list. */
  lemma SignalOrdered(s: State, o: Oid, h: Header, s1: State, born: map<Tid, nat>, now: nat)
    requires Inv(s) && o in s.objects && Ordered(s, born, now)
    requires h.blocks == s.objects[o].blocks && s1.objects == s.objects[o := h] && s1.waits == s.waits
    ensures Ordered(s1, born, now)
    ensures h.kind.Mutex? || h.signal >= 0 ==> Ordered(Signalled(s1, o), born, now)
  {
    ListHolds(s, o);
    assert Ordered(s1, born, now);
    if h.kind.Mutex? || h.signal >= 0 {
      ServedOrdered(s1, o, Served(h), born, now);
    }
  }

  lemma SleepOrdered(s: State, o: Oid, t: Tid, s': State, born: map<Tid, nat>, now: nat)
    requires Inv(s) && o in s.objects && t !in s.waits && Ordered(s, born, now)
    requires s'.objects == s.objects[o := s.objects[o].(blocks := s.objects[o].blocks + [t])]
    requires s'.waits == s.waits[t := Wait(o, false)]
    ensures Ordered(s', born[t := now], now + 1)
  {
    var born' := born[t := now];
    ListHolds(s, o);
    forall p | p in s'.objects
      ensures Sorted(s'.objects[p].blocks, born')
    {
      ListHolds(s, p);
      var q := s.objects[p].blocks;
      assert t !in q;
      assert forall i :: 0 <= i < |q| ==> q[i] in q;
      assert Sorted(q, born');
      if p == o {
        SnocSorted(q, t, born');
      }
    }
  }

  lemma ResumeOrdered(s: State, t: Tid, o: Oid, s': State, born: map<Tid, nat>, now: nat)
    requires Inv(s) && o in s.objects && Ordered(s, born, now) && s'.waits == s.waits - {t}
    requires s'.objects == s.objects
          || s'.objects == s.objects[o := s.objects[o].(blocks := Unlink(s.objects[o].blocks, t))]
    ensures Ordered(s', born, now)
  {
    UnlinkSorted(s.objects[o].blocks, t, born);
  }

  lemma Later(s: State, born: map<Tid, nat>, now: nat)
    requires Ordered(s, born, now)
    ensures Ordered(s, born, now + 1)
  {
  }

  lemma EventOrdered(s: State, o: Oid, born: map<Tid, nat>, now: nat)
    requires Inv(s) && IsEvent(s, o) && Ordered(s, born, now)
    ensures Ordered(Step(s, SetEvent(o)), born, now + 1) && Ordered(Step(s, ResetEvent(o)), born, now + 1)
  {
    var h, g := s.objects[o].(signal := 1), s.objects[o].(signal := 0);
    SignalOrdered(s, o, h, s.(objects := s.objects[o := h]), born, now);
    SignalOrdered(s, o, g, s.(objects := s.objects[o := g]), born, now);
    Later(Step(s, SetEvent(o)), born, now);
    Later(Step(s, ResetEvent(o)), born, now);
  }

  lemma SemaphoreOrdered(s: State, o: Oid, adj: int, born: map<Tid, nat>, now: nat)
    requires Inv(s) && Enabled(s, ReleaseSemaphore(o, adj)) && Ordered(s, born, now)
    ensures Ordered(Step(s, ReleaseSemaphore(o, adj)), born, now + 1)
  {
    assert ObjectInv(s, o);
    var h := s.objects[o].(signal := Released(s.objects[o].signal, s.objects[o].kind.limit, adj));
    SignalOrdered(s, o, h, s.(objects := s.objects[o := h]), born, now);
    Later(Step(s, ReleaseSemaphore(o, adj)), born, now);
  }

  lemma StepOrdered(s: State, a: Action, born: map<Tid, nat>, now: nat)
    requires Inv(s) && Enabled(s, a) && Ordered(s, born, now)
    ensures Ordered(Step(s, a), BornAfter(s, a, born, now), now + 1)
  {
    match a
    case Create(_, _, _) => Later(Step(s, a), born, now);
    case SetEvent(o) => EventOrdered(s, o, born, now);
    case ResetEvent(o) => EventOrdered(s, o, born, now);
    case ReleaseMutex(o, t) => MutexOrdered(s, o, t, born, now);
    case ReleaseSemaphore(o, adj) => SemaphoreOrdered(s, o, adj, born, now);
    case BeginWait(o, t, poll) => BeginOrdered(s, o, t, poll, born, now);
    case Resume(t, _) =>
      assert WaitInv(s, t);
      ResumeOrdered(s, t, s.waits[t].on, Step(s, a), born, now);
      Later(Step(s, a), born, now);
  }

  lemma MutexOrdered(s: State, o: Oid, t: Tid, born: map<Tid, nat>, now: nat)
    requires Inv(s) && Enabled(s, ReleaseMutex(o, t)) && Ordered(s, born, now)
    ensures Ordered(Step(s, ReleaseMutex(o, t)), born, now + 1)
  {
    var h, s' := s.objects[o], Step(s, ReleaseMutex(o, t));
    if h.owner == Some(t) && h.signal <= 0 {
      assert ObjectInv(s, o);
      var s1 := OneRelease(s, o);
      SignalOrdered(s, o, s1.objects[o], s1, born, now);
    }
    Later(s', born, now);
  }

  lemma BeginOrdered(s: State, o: Oid, t: Tid, poll: bool, born: map<Tid, nat>, now: nat)
    requires Inv(s) && Enabled(s, BeginWait(o, t, poll)) && Ordered(s, born, now)
    ensures Ordered(Step(s, BeginWait(o, t, poll)), BornAfter(s, BeginWait(o, t, poll), born, now), now + 1)
  {
    var h, s' := s.objects[o], Step(s, BeginWait(o, t, poll));
    if CanGrab(h, t) {
      SignalOrdered(s, o, Grabbed(h, t), s', born, now);
      Later(s', born, now);
    } else if poll {
      Later(s, born, now);
    } else {
      SleepOrdered(s, o, t, s', born, now);
    }
  }

  lemma {:induction false} ExecOrdered(s: State, actions: seq<Action>, t: State, born: map<Tid, nat>, now: nat)
    requires Inv(s) && Ordered(s, born, now) && Exec(s, actions) == Some(t)
    ensures Ordered(t, Born(s, actions, born, now), now + |actions|)
    decreases |actions|
  {
    if actions != [] {
      StepKeeps(s, actions[0]);
      StepOrdered(s, actions[0], born, now);
      ExecOrdered(Step(s, actions[0]), actions[1..], t, BornAfter(s, actions[0], born, now), now + 1);
    }
  }

  // ------------------------------------------------------------------------- laws

  /** In every run, of two unfinished waits on one object, if one has been given the object and the other
      has not, then the one that has it began first. This holds for all kinds of objects; so the waiter
      that is given a mutex is the oldest. */
  lemma FirstComeFirstServed(actions: seq<Action>, s: State, t: Tid, u: Tid)
    requires Exec(INITIAL, actions) == Some(s) && t in s.waits && u in s.waits && s.waits[t].on == s.waits[u].on
    requires t in s.grabs && u in s.grabs && s.grabs[t] > s.grabs[u]
    ensures var born := Born(INITIAL, actions, map[], 0);
            t in born && u in born && born[t] < born[u]
  {
    ExecOrdered(INITIAL, actions, s, map[], 0);
    assert WaitInv(s, t) && WaitInv(s, u);
  }

  /** Nobody overtakes the queue: a wait that succeeds at once finds no wait on the object that is not
      served, except that the owner of a mutex may take it again. */
  lemma NobodyOvertakes(s: State, o: Oid, t: Tid, poll: bool, u: Tid)
    requires Inv(s) && Enabled(s, BeginWait(o, t, poll)) && u in s.waits && s.waits[u].on == o
    requires |Step(s, BeginWait(o, t, poll)).log| > |s.log|
    requires Step(s, BeginWait(o, t, poll)).log[|s.log|].status == Success
    ensures s.grabs[u] == 1 || (s.objects[o].kind.Mutex? && s.objects[o].owner == Some(t))
  {
    assert WaitInv(s, u) && ObjectInv(s, o);
  }
}
