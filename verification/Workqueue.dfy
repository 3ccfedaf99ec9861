/** The private single-thread workqueue (workqueue.c). An action is one critical section under
    thread->lock, one xchg, one unlocked store, or one call of a work function. The flusher does not
    take the lock, so the worker's read and its clearing of thread->completion are two actions. */
module Workqueue {
  import opened Basics

  type Item = nat

  /** Accepted queueings are numbered in order of acceptance. */
  type Ticket = nat

  /** workq_thread sleeps on `pending`, is about to take the lock, runs a work function, or holds the
      lock with the list empty, having read whether thread->completion is set. */
  datatype Worker = Sleeping | Looping | Running(k: Ticket) | Idling(read: bool)

  /** wrap_flush_wq_on: has stored its completion, has also set pending, or is not active.
      before is the number of queueings accepted when the flush began. */
  datatype Flush = NoFlush | Stored(before: nat) | Waiting(before: nat)

  /** owned holds the items whose work->thread is set, cancelling those whose canceller has won the
      xchg and not unlinked yet, each with its queueing; list is work_list; work gives the item
      of each queueing; ran and cancelled are the queueings that ended, in order; armed is
      thread->completion != NULL and signalled the state of the flusher's completion. */
  datatype State = State(
    owned: map<Item, Ticket>,
    cancelling: map<Item, Ticket>,
    list: seq<Ticket>,
    work: seq<Item>,
    ran: seq<Ticket>,
    cancelled: seq<Ticket>,
    worker: Worker,
    pending: bool,
    armed: bool,
    signalled: bool,
    flush: Flush)

  datatype Action =
    | Queue(w: Item)           // wrap_queue_work_on
    | CancelXchg(w: Item)      // first half of wrap_cancel_work
    | CancelUnlink(w: Item)    // second half
    | WakeUp                   // wait_condition sees pending
    | Look                     // one turn of the worker's inner loop
    | Settle                   // it clears thread->completion and completes what it had read
    | RunDone                  // the work function returns
    | FlushStore
    | FlushPending
    | FlushReturn

  /** What each thread's program order and the lock allow, with one flusher at a time. */
  predicate Possible(s: State, a: Action) {
    match a
    case Queue(_) => !s.worker.Idling?
    case CancelXchg(_) => true
    case CancelUnlink(w) => w in s.cancelling && !s.worker.Idling?
    case WakeUp => s.worker.Sleeping? && s.pending
    case Look => s.worker.Looping?
    case Settle => s.worker.Idling?
    case RunDone => s.worker.Running?
    case FlushStore => s.flush.NoFlush?
    case FlushPending => s.flush.Stored?
    case FlushReturn => s.flush.Waiting? && s.signalled
  }

  /** ... and an item is not queued again while it is being cancelled, and no flush begins between the
      worker's read and its clearing of thread->completion. */
  predicate Enabled(s: State, a: Action) {
    && Possible(s, a)
    && (a.Queue? ==> a.w !in s.cancelling)
    && (a.FlushStore? ==> !s.worker.Idling?)
  }

  /** wrap_queue_work_on, whoever calls it: refused while work->thread is set. */
  function Queued(s: State, w: Item): State {
    if w in s.owned then s
    else s.(owned := s.owned[w := |s.work|], list := s.list + [|s.work|],
            work := s.work + [w], pending := true)
  }

  predicate InRange(s: State) {
    forall k :: k in s.list ==> k < |s.work|
  }

  function Step(s: State, a: Action): State
    requires Possible(s, a) && InRange(s)
  {
    match a
    case Queue(w) => Queued(s, w)
    case CancelXchg(w) =>
      if w in s.owned then
        s.(owned := s.owned - {w}, cancelling := s.cancelling[w := s.owned[w]])
      else s
    case CancelUnlink(w) =>
      var k := s.cancelling[w];
      s.(list := Unlink(s.list, k), cancelling := s.cancelling - {w}, cancelled := s.cancelled + [k])
    case WakeUp => s.(worker := Looping)
    case Look =>
      if s.list == [] then s.(worker := Idling(s.armed), pending := false)
      else
        var k := s.list[0];
        assert k in s.list;
        if s.work[k] in s.owned then
          s.(owned := s.owned - {s.work[k]}, list := s.list[1..], worker := Running(k))
        else s
    case Settle => s.(worker := Sleeping, armed := false, signalled := s.signalled || s.worker.read)
    case RunDone => s.(worker := Looping, ran := s.ran + [s.worker.k])
    case FlushStore => s.(flush := Stored(|s.work|), armed := true, signalled := false)
    case FlushPending => s.(flush := Waiting(s.flush.before), pending := true)
    case FlushReturn => s.(flush := NoFlush)
  }

  // -------------------------------------------------------------------- invariant

  predicate Increasing(q: seq<Ticket>) {
    forall i, j :: 0 <= i < j < |q| ==> q[i] < q[j]
  }

  /** Every linked queueing belongs to an item that is either owned or being cancelled, by exactly
      this queueing; so no item is linked twice. */
  predicate Links(s: State) {
    && InRange(s)
    && (forall k :: k in s.list ==>
          || (s.work[k] in s.owned && s.owned[s.work[k]] == k)
          || (s.work[k] in s.cancelling && s.cancelling[s.work[k]] == k))
    && (forall w :: w in s.owned ==> s.owned[w] in s.list && s.work[s.owned[w]] == w)
    && (forall w :: w in s.cancelling ==> s.cancelling[w] in s.list && s.work[s.cancelling[w]] == w)
    && s.owned.Keys !! s.cancelling.Keys
  }

  /** Queueings have run in order, the one running comes next, the linked ones after it. */
  predicate InOrder(s: State) {
    && Increasing(s.list) && Increasing(s.ran)
    && (forall r, k :: r in s.ran && k in s.list ==> r < k)
    && (s.worker.Running? ==>
          && s.worker.k < |s.work|
          && (forall r :: r in s.ran ==> r < s.worker.k)
          && (forall k :: k in s.list ==> s.worker.k < k))
  }

  predicate IsRunning(s: State, k: Ticket) {
    s.worker == Running(k)
  }

  /** A queueing is linked, running, run or cancelled: exactly one of these, exactly once. */
  predicate Accounted(s: State) {
    && (forall k: Ticket :: k < |s.work| ==> k in s.list || IsRunning(s, k) || k in s.ran || k in s.cancelled)
    && (forall k :: k in s.cancelled ==> k < |s.work| && k !in s.list && !IsRunning(s, k) && k !in s.ran)
    && (forall k :: k in s.ran ==> k < |s.work|)
    && Distinct(s.cancelled)
  }

  /** Everything accepted before this point has ended. */
  predicate EndedBefore(s: State, n: nat) {
    forall k: Ticket :: k < n ==> k in s.ran || k in s.cancelled
  }

  predicate FlushInv(s: State) {
    && (s.worker.Idling? ==> s.list == [] && (s.worker.read <==> s.armed))
    && (s.armed <==> !s.flush.NoFlush? && !s.signalled)
    && (!s.flush.NoFlush? ==> s.flush.before <= |s.work|)
    && (!s.flush.NoFlush? && s.signalled ==> EndedBefore(s, s.flush.before))
  }

  /** The worker never sleeps through work or through a flush that has set pending. */
  predicate NoLostWakeup(s: State) {
    s.worker.Sleeping? && (s.list != [] || (s.flush.Waiting? && s.armed)) ==> s.pending
  }

  predicate Inv(s: State) {
    Links(s) && InOrder(s) && Accounted(s) && FlushInv(s) && NoLostWakeup(s)
  }

  // ----------------------------------------------------------------- preservation

  lemma IncreasingSnoc(q: seq<Ticket>, k: Ticket)
    requires Increasing(q) && forall x :: x in q ==> x < k
    ensures Increasing(q + [k])
    ensures forall x :: x in q + [k] <==> x in q || x == k
  {
    assert forall i :: 0 <= i < |q| ==> q[i] in q;
  }

  lemma IncreasingCons(k: Ticket, q: seq<Ticket>)
    requires Increasing(q) && forall x :: x in q ==> k < x
    ensures Increasing([k] + q)
  {
    assert forall i :: 0 <= i < |q| ==> q[i] in q;
  }

  lemma {:induction false} UnlinkIncreasing(q: seq<Ticket>, k: Ticket)
    requires Increasing(q)
    ensures Increasing(Unlink(q, k))
    ensures forall x :: x in Unlink(q, k) <==> x in q && x != k
  {
    if q != [] {
      var r := q[1..];
      assert q == [q[0]] + r;
      assert Increasing(r) && forall x :: x in r ==> q[0] < x;
      UnlinkIncreasing(r, k);
      if q[0] != k {
        IncreasingCons(q[0], Unlink(r, k));
      }
    }
  }

  lemma QueueLinks(s: State, w: Item, s': State, k: Ticket)
    requires Links(s) && w !in s.cancelling && w !in s.owned && k == |s.work|
    requires s'.owned == s.owned[w := k] && s'.cancelling == s.cancelling && s'.work == s.work + [w]
    requires forall x :: x in s'.list <==> x in s.list || x == k
    ensures Links(s')
  {
    assert s'.work[k] == w;
    forall x | x in s'.list
      ensures x < |s'.work|
      ensures x != k ==> s'.work[x] == s.work[x] && s.work[x] != w
    {
    }
  }

  lemma QueueKeeps(s: State, w: Item)
    requires Inv(s) && w !in s.cancelling && !s.worker.Idling?
    ensures Inv(Queued(s, w))
  {
    if w !in s.owned {
      IncreasingSnoc(s.list, |s.work|);
      QueueLinks(s, w, Queued(s, w), |s.work|);
    }
  }

  /** Accepting an item keeps the links sound exactly when it is not being cancelled: queued in
      the middle of a cancellation, it would be linked twice. */
  lemma RequeueMidCancel(s: State, w: Item)
    requires Inv(s) && w !in s.owned && Possible(s, Queue(w))
    ensures Inv(Queued(s, w)) <==> w !in s.cancelling
    ensures w in s.cancelling ==>
              exists i, j :: 0 <= i < j < |s.list| + 1 && Holds(Queued(s, w), i, w) && Holds(Queued(s, w), j, w)
  {
    var q := Queued(s, w);
    if w in s.cancelling {
      assert w in q.owned && w in q.cancelling;
      var i :| 0 <= i < |s.list| && s.list[i] == s.cancelling[w];
      assert Holds(q, i, w) && Holds(q, |s.list|, w);
    } else {
      QueueKeeps(s, w);
    }
  }

  /** Place i of the list links item w. */
  predicate Holds(s: State, i: int, w: Item) {
    0 <= i < |s.list| && s.list[i] < |s.work| && s.work[s.list[i]] == w
  }

  lemma CancelXchgKeeps(s: State, w: Item)
    requires Inv(s)
    ensures Inv(Step(s, CancelXchg(w)))
  {
  }

  lemma CancelUnlinkKeeps(s: State, w: Item)
    requires Inv(s) && Enabled(s, CancelUnlink(w))
    ensures Inv(Step(s, CancelUnlink(w)))
  {
    var s', k := Step(s, CancelUnlink(w)), s.cancelling[w];
    UnlinkIncreasing(s.list, k);
    CancelLinks(s, s', w, k);
    assert k !in s.ran && !IsRunning(s, k);
    AccountedCancel(s, s', k);
  }

  lemma CancelLinks(s: State, s': State, w: Item, k: Ticket)
    requires Links(s) && w in s.cancelling && s.cancelling[w] == k
    requires s'.work == s.work && s'.owned == s.owned && s'.cancelling == s.cancelling - {w}
    requires forall x :: x in s'.list <==> x in s.list && x != k
    ensures Links(s')
  {
    assert forall x :: x in s'.list ==> s.work[x] != w;
  }

  lemma AccountedCancel(s: State, s': State, k: Ticket)
    requires Accounted(s) && k in s.list && k < |s.work| && k !in s.ran && !IsRunning(s, k)
    requires s'.work == s.work && s'.ran == s.ran && s'.worker == s.worker
    requires s'.cancelled == s.cancelled + [k] && forall x :: x in s'.list <==> x in s.list && x != k
    ensures Accounted(s')
    ensures forall x :: x in s'.cancelled <==> x in s.cancelled || x == k
  {
    assert forall x :: x in s'.cancelled <==> x in s.cancelled || x == k;
    assert forall i :: 0 <= i < |s.cancelled| ==> s.cancelled[i] in s.cancelled;
  }

  lemma LookKeeps(s: State)
    requires Inv(s) && Enabled(s, Look)
    ensures Inv(Step(s, Look))
  {
    if s.list != [] {
      assert s.list[0] in s.list;
      if s.work[s.list[0]] in s.owned {
        HeadTail(s.list);
        TakeLinks(s, s.list[0], s.list[1..]);
        TakeKeeps(s, s.list[0]);
      }
    }
  }

  lemma HeadTail(q: seq<Ticket>)
    requires Increasing(q) && q != []
    ensures Increasing(q[1..])
    ensures forall x :: x in q <==> x == q[0] || x in q[1..]
    ensures forall x :: x in q[1..] ==> q[0] < x
  {
    assert q == [q[0]] + q[1..];
  }

  lemma TakeLinks(s: State, k: Ticket, rest: seq<Ticket>)
    requires Links(s) && k in s.list && s.work[k] in s.owned
    requires forall x :: x in s.list <==> x == k || x in rest
    requires forall x :: x in rest ==> k < x
    ensures Links(s.(owned := s.owned - {s.work[k]}, list := rest))
  {
    var w := s.work[k];
    assert s.owned[w] == k;
    forall x | x in rest
      ensures s.work[x] != w
    {
      assert x in s.list;
    }
  }

  lemma TakeOrder(s: State, s': State, k: Ticket)
    requires InOrder(s) && k in s.list && k < |s.work| && s'.work == s.work
    requires s'.ran == s.ran && s'.worker == Running(k) && Increasing(s'.list)
    requires forall x :: x in s.list <==> x == k || x in s'.list
    requires forall x :: x in s'.list ==> k < x
    ensures InOrder(s')
  {
    assert forall x :: x in s'.list ==> x in s.list;
  }

  lemma TakeAccounted(s: State, s': State, k: Ticket)
    requires Accounted(s) && s.worker.Looping? && k in s.list && k !in s.ran
    requires s'.work == s.work && s'.ran == s.ran && s'.cancelled == s.cancelled && s'.worker == Running(k)
    requires forall x :: x in s.list <==> x == k || x in s'.list
    ensures Accounted(s')
  {
  }

  lemma TakeKeeps(s: State, k: Ticket)
    requires Inv(s) && Enabled(s, Look) && s.list != [] && s.list[0] == k
    requires k < |s.work| && s.work[k] in s.owned
    requires Links(s.(owned := s.owned - {s.work[k]}, list := s.list[1..]))
    requires Increasing(s.list[1..])
    requires forall x :: x in s.list <==> x == k || x in s.list[1..]
    requires forall x :: x in s.list[1..] ==> k < x
    ensures Inv(Step(s, Look))
  {
    var s' := Step(s, Look);
    assert s'.list == s.list[1..] && s'.worker == Running(k);
    assert k in s.list && k !in s.ran;
    TakeOrder(s, s', k);
    TakeAccounted(s, s', k);
    assert Links(s');
  }

  lemma SettleKeeps(s: State)
    requires Inv(s) && Enabled(s, Settle)
    ensures Inv(Step(s, Settle))
  {
    assert EndedBefore(s, |s.work|);
  }

  lemma RunDoneKeeps(s: State)
    requires Inv(s) && Enabled(s, RunDone)
    ensures Inv(Step(s, RunDone))
  {
    var s' := Step(s, RunDone);
    IncreasingSnoc(s.ran, s.worker.k);
  }

  lemma StepKeeps(s: State, a: Action)
    requires Inv(s) && Enabled(s, a)
    ensures Inv(Step(s, a))
  {
    match a
    case Queue(w) => QueueKeeps(s, w);
    case CancelXchg(w) => CancelXchgKeeps(s, w);
    case CancelUnlink(w) => CancelUnlinkKeeps(s, w);
    case Look => LookKeeps(s);
    case Settle => SettleKeeps(s);
    case RunDone => RunDoneKeeps(s);
    case _ =>
  }

  // ------------------------------------------------------------------------- runs

  const INITIAL: State :=
    State(map[], map[], [], [], [], [], Sleeping, false, false, false, NoFlush)

  function Exec(s: State, actions: seq<Action>): (r: Option<State>)
    requires Inv(s)
    ensures r.Some? ==> Inv(r.value)
    decreases |actions|
  {
    if actions == [] then Some(s)
    else if !Enabled(s, actions[0]) then None
    else
      StepKeeps(s, actions[0]);
      Exec(Step(s, actions[0]), actions[1..])
  }

  /** In every run: an accepted queueing ends at most once, by running or by cancellation, and has
      ended unless it is still linked or running; queueings run in the order they were accepted;
      no item is linked twice; and work is never slept through. */
  lemma EveryRun(actions: seq<Action>, s: State)
    requires Exec(INITIAL, actions) == Some(s)
    ensures forall k: Ticket :: k < |s.work| && k !in s.list && !IsRunning(s, k) ==>
              (k in s.ran) != (k in s.cancelled)
    ensures Increasing(s.ran) && Distinct(s.cancelled)
    ensures forall i, j :: 0 <= i < j < |s.list| ==> Apart(s, s.list[i], s.list[j])
    ensures s.worker.Sleeping? && s.list != [] ==> s.pending
  {
    assert Links(s) && InOrder(s) && Accounted(s) && NoLostWakeup(s);
    forall i, j | 0 <= i < j < |s.list|
      ensures Apart(s, s.list[i], s.list[j])
    {
      LinkedApart(s, s.list[i], s.list[j]);
    }
  }

  /** Two linked queueings, in order of acceptance, are of different items. */
  predicate Apart(s: State, a: Ticket, b: Ticket) {
    a < b < |s.work| && s.work[a] != s.work[b]
  }

  lemma LinkedApart(s: State, a: Ticket, b: Ticket)
    requires Links(s) && a in s.list && b in s.list && a < b
    ensures Apart(s, a, b)
  {
    assert s.work[a] == s.work[b] ==> a == b;
  }

  lemma {:induction false} FlushGoesOn(s: State, actions: seq<Action>, t: State, n: nat)
    requires Inv(s) && Exec(s, actions) == Some(t) && FlushReturn !in actions
    requires !s.flush.NoFlush? && s.flush.before == n
    ensures !t.flush.NoFlush? && t.flush.before == n
    decreases |actions|
  {
    if actions != [] {
      assert actions[0] in actions;
      StepKeeps(s, actions[0]);
      FlushGoesOn(Step(s, actions[0]), actions[1..], t, n);
    }
  }

  /** When wrap_flush_wq_on returns, every queueing accepted before it was called has run or been
      cancelled, and the worker keeps no pointer to the flusher's completion. */
  lemma FlushWaitsForAll(earlier: seq<Action>, s: State, u: State, later: seq<Action>, t: State)
    requires Exec(INITIAL, earlier) == Some(s) && Enabled(s, FlushStore) && u == Step(s, FlushStore) && Inv(u)
    requires Exec(u, later) == Some(t) && FlushReturn !in later && Enabled(t, FlushReturn)
    ensures forall k: Ticket :: k < |s.work| ==> (k in t.ran) != (k in t.cancelled)
    ensures !Step(t, FlushReturn).armed
  {
    FlushGoesOn(u, later, t, |s.work|);
    assert EndedBefore(t, t.flush.before);
  }

  // ------------------------------------------------------- what callers asked for and got

  /** A queueing is accepted exactly if the item is not owned. */
  function AcceptedNow(s: State, a: Action): seq<Item> {
    if a.Queue? && a.w !in s.owned then [a.w] else []
  }

  /** The items whose queueing the run has accepted, in order. */
  ghost function AcceptedIn(s: State, actions: seq<Action>): seq<Item>
    requires Inv(s)
    decreases |actions|
  {
    if actions == [] || !Enabled(s, actions[0]) then []
    else
      StepKeeps(s, actions[0]);
      AcceptedNow(s, actions[0]) + AcceptedIn(Step(s, actions[0]), actions[1..])
  }

  lemma {:induction false} ExecAccepts(s: State, actions: seq<Action>, t: State)
    requires Inv(s) && Exec(s, actions) == Some(t)
    ensures t.work == s.work + AcceptedIn(s, actions)
    decreases |actions|
  {
    if actions == [] {
      assert s.work + [] == s.work;
    } else {
      var a, rest := actions[0], actions[1..];
      StepKeeps(s, a);
      StepAccepts(s, a);
      ExecAccepts(Step(s, a), rest, t);
      Assoc(s.work, AcceptedNow(s, a), AcceptedIn(Step(s, a), rest));
    }
  }

  lemma StepAccepts(s: State, a: Action)
    requires Possible(s, a) && InRange(s)
    ensures Step(s, a).work == s.work + AcceptedNow(s, a)
  {
  }

  lemma Assoc(x: seq<Item>, y: seq<Item>, z: seq<Item>)
    ensures (x + y) + z == x + (y + z)
  {
  }

  /** In every run each accepted queueing is linked, running, run or cancelled: none is dropped. */
  lemma NothingDropped(actions: seq<Action>, s: State, k: nat)
    requires Exec(INITIAL, actions) == Some(s) && k < |AcceptedIn(INITIAL, actions)|
    ensures |s.work| == |AcceptedIn(INITIAL, actions)| && s.work[k] == AcceptedIn(INITIAL, actions)[k]
    ensures k in s.list || IsRunning(s, k) || k in s.ran || k in s.cancelled
  {
    ExecAccepts(INITIAL, actions, s);
    assert Accounted(s);
  }

  /** An item is owned exactly while a queueing of it is linked and nobody is cancelling it. */
  lemma OwnedIsLinked(s: State, w: Item)
    requires Inv(s)
    ensures w in s.owned <==> w !in s.cancelling && exists k :: k in s.list && s.work[k] == w
  {
    if w in s.owned {
      assert s.owned[w] in s.list;
    }
  }

  lemma {:induction false} ExecCancels(s: State, before: seq<Action>, actions: seq<Action>, t: State)
    requires Inv(s) && Exec(s, actions) == Some(t) && CancelAsked(s, before)
    ensures CancelAsked(t, before + actions)
    decreases |actions|
  {
    if actions == [] {
      assert before + [] == before;
    } else {
      var a := actions[0];
      StepKeeps(s, a);
      StepCancels(s, before, a);
      ExecCancels(Step(s, a), before + [a], actions[1..], t);
      assert before + [a] + actions[1..] == before + actions;
    }
  }

  /** What is being cancelled or was cancelled, somebody asked to cancel. */
  ghost predicate CancelAsked(s: State, actions: seq<Action>) {
    && (forall w :: w in s.cancelling ==> CancelXchg(w) in actions)
    && (forall k :: k in s.cancelled && k < |s.work| ==> CancelXchg(s.work[k]) in actions)
  }

  lemma StepCancels(s: State, before: seq<Action>, a: Action)
    requires Inv(s) && Enabled(s, a) && CancelAsked(s, before)
    ensures CancelAsked(Step(s, a), before + [a])
  {
    assert forall b :: b in before + [a] <==> b in before || b == a;
    if a.CancelUnlink? {
      var k := s.cancelling[a.w];
      assert s.work[k] == a.w;
      assert forall x :: x in Step(s, a).cancelled <==> x in s.cancelled || x == k;
    }
  }

  lemma CancelledWasAsked(actions: seq<Action>, s: State, k: Ticket)
    requires Exec(INITIAL, actions) == Some(s) && k in s.cancelled
    ensures k < |s.work| && CancelXchg(s.work[k]) in actions
  {
    ExecCancels(INITIAL, [], actions, s);
    assert [] + actions == actions;
  }

  /** A queueing whose cancellation has won does not run. */
  ghost predicate Cancelling(s: State, k: Ticket) {
    k < |s.work| && (k in s.cancelled || (s.work[k] in s.cancelling && s.cancelling[s.work[k]] == k))
  }

  lemma StepStaysCancelled(s: State, a: Action, k: Ticket)
    requires Inv(s) && Enabled(s, a) && Cancelling(s, k)
    ensures Cancelling(Step(s, a), k)
  {
    if a.CancelUnlink? {
      var j := s.cancelling[a.w];
      assert s.work[j] == a.w;
      assert forall x :: x in Step(s, a).cancelled <==> x in s.cancelled || x == j;
    }
  }

  lemma {:induction false} ExecStaysCancelled(s: State, actions: seq<Action>, t: State, k: Ticket)
    requires Inv(s) && Exec(s, actions) == Some(t) && Cancelling(s, k)
    ensures Cancelling(t, k)
    decreases |actions|
  {
    if actions != [] {
      StepKeeps(s, actions[0]);
      StepStaysCancelled(s, actions[0], k);
      ExecStaysCancelled(Step(s, actions[0]), actions[1..], t, k);
    }
  }

  lemma CancelledNeverRuns(s: State, w: Item, u: State, actions: seq<Action>, t: State)
    requires Inv(s) && w in s.owned && u == Step(s, CancelXchg(w)) && Inv(u) && Exec(u, actions) == Some(t)
    ensures s.owned[w] !in t.ran && !IsRunning(t, s.owned[w])
  {
    var k := s.owned[w];
    assert Cancelling(u, k);
    ExecStaysCancelled(u, actions, t, k);
    NotRunning(t, k);
  }

  lemma NotRunning(t: State, k: Ticket)
    requires Inv(t) && Cancelling(t, k)
    ensures k !in t.ran && !IsRunning(t, k)
  {
    if k !in t.cancelled {
      assert k in t.list;
    }
  }

  /** While work is linked the worker can go on. */
  lemma WorkerCanGoOn(s: State) returns (a: Action)
    requires Inv(s) && s.list != []
    ensures Enabled(s, a) && (a == WakeUp || a == Look || a == Settle || a == RunDone)
  {
    match s.worker
    case Sleeping => a := WakeUp;
    case Looping => a := Look;
    case Idling(_) => a := Settle;
    case Running(_) => a := RunDone;
  }

  // ----------------------------------------------- a flush that begins as the worker goes to sleep

  /** The first store of a flush keeps the invariant if and only if it does not fall between the
      worker's read and its clearing of thread->completion. */
  lemma FlushMidSettle(s: State)
    requires Inv(s) && Possible(s, FlushStore)
    ensures Inv(Step(s, FlushStore)) <==> !s.worker.Idling?
    ensures s.worker.Idling? ==> Hung(Step(Step(s, FlushStore), Settle))
  {
    if !s.worker.Idling? {
      StepKeeps(s, FlushStore);
    }
  }

  /** The flusher waits for a completion that the worker does not know. */
  predicate Hung(s: State) {
    InRange(s) && !s.flush.NoFlush? && !s.armed && !s.signalled && (s.worker.Idling? ==> !s.worker.read)
  }

  lemma HungStep(s: State, a: Action)
    requires Hung(s) && Possible(s, a)
    ensures Hung(Step(s, a)) && !a.FlushReturn?
  {
    match a
    case Queue(w) => assert forall k :: k in Queued(s, w).list ==> k in s.list || k == |s.work|;
    case CancelUnlink(w) => UnlinkSubset(s.list, s.cancelling[w]);
    case Look =>
      if s.list != [] {
        assert s.list[0] in s.list;
        assert forall k :: k in s.list[1..] ==> k in s.list;
      }
    case _ =>
  }

  lemma {:induction false} UnlinkSubset(q: seq<Ticket>, k: Ticket)
    ensures forall x :: x in Unlink(q, k) ==> x in q
  {
    if q != [] {
      UnlinkSubset(q[1..], k);
      assert q == [q[0]] + q[1..];
    }
  }

  /** Any possible actions from a hung state. */
  ghost predicate Goes(s: State, actions: seq<Action>)
    requires Hung(s)
    decreases |actions|
  {
    actions == [] ||
    (Possible(s, actions[0]) && (HungStep(s, actions[0]); Goes(Step(s, actions[0]), actions[1..])))
  }

  /** It waits for ever: no run from here lets the flush return. */
  lemma {:induction false} HangsForEver(s: State, actions: seq<Action>)
    requires Hung(s) && Goes(s, actions)
    ensures FlushReturn !in actions
    decreases |actions|
  {
    if actions != [] {
      HungStep(s, actions[0]);
      HangsForEver(Step(s, actions[0]), actions[1..]);
      assert actions == [actions[0]] + actions[1..];
    }
  }

  ghost predicate Reached(s: State) {
    exists actions :: Exec(INITIAL, actions) == Some(s)
  }

  lemma {:induction false} ExecSnoc(s: State, actions: seq<Action>, t: State, a: Action)
    requires Inv(s) && Exec(s, actions) == Some(t) && Enabled(t, a)
    ensures Exec(s, actions + [a]) == Some(Step(t, a))
    decreases |actions|
  {
    StepKeeps(t, a);
    if actions == [] {
      assert (actions + [a])[1..] == [];
    } else {
      StepKeeps(s, actions[0]);
      ExecSnoc(Step(s, actions[0]), actions[1..], t, a);
      assert (actions + [a])[0] == actions[0] && (actions + [a])[1..] == actions[1..] + [a];
    }
  }

  lemma Reach(s: State, a: Action, t: State)
    requires Reached(s) && InRange(s) && Enabled(s, a) && t == Step(s, a)
    ensures Reached(t)
  {
    var actions :| Exec(INITIAL, actions) == Some(s);
    ExecSnoc(INITIAL, actions, s, a);
  }

  lemma ReachQueued(w: Item)
    ensures Reached(INITIAL.(owned := map[w := 0], list := [0], work := [w], pending := true))
  {
    assert Exec(INITIAL, []) == Some(INITIAL);
    assert [] + [0] == [0] && [] + [w] == [w];
    Reach(INITIAL, Queue(w), INITIAL.(owned := map[w := 0], list := [0], work := [w], pending := true));
  }

  /** An item in the middle of its cancellation, by a run of two steps. */
  lemma MidCancelReached(w: Item, s: State)
    requires s == INITIAL.(cancelling := map[w := 0], list := [0], work := [w], pending := true)
    ensures Reached(s) && w in s.cancelling && w !in s.owned && Possible(s, Queue(w))
  {
    ReachQueued(w);
    Reach(INITIAL.(owned := map[w := 0], list := [0], work := [w], pending := true), CancelXchg(w), s);
  }

  /** A worker between the two accesses, after one item was queued and run. */
  lemma MidSettleReached(w: Item, s: State)
    requires s == INITIAL.(work := [w], ran := [0], worker := Idling(false))
    ensures Reached(s) && Possible(s, FlushStore)
  {
    ReachQueued(w);
    var s1 := INITIAL.(owned := map[w := 0], list := [0], work := [w], pending := true);
    var s2 := s1.(worker := Looping);
    Reach(s1, WakeUp, s2);
    var s3 := s2.(owned := map[], list := [], worker := Running(0));
    assert [0][1..] == [] && map[w := 0] - {w} == map[];
    Reach(s2, Look, s3);
    var s4 := s3.(worker := Looping, ran := [0]);
    assert [] + [0] == [0];
    Reach(s3, RunDone, s4);
    Reach(s4, Look, s);
  }

  // ------------------------------------------------------------- the thread structure

  predicate Below(list: seq<Ticket>, n: nat) {
    forall i :: 0 <= i < |list| ==> list[i] < n
  }

  /** The items a list of queueings links. */
  function Items(work: seq<Item>, list: seq<Ticket>): (r: seq<Item>)
    requires Below(list, |work|)
    ensures |r| == |list| && forall i :: 0 <= i < |r| ==> r[i] == work[list[i]]
  {
    if list == [] then [] else [work[list[0]]] + Items(work, list[1..])
  }

  lemma ItemsGrow(work: seq<Item>, list: seq<Ticket>, w: Item)
    requires Below(list, |work|)
    ensures Below(list + [|work|], |work| + 1)
    ensures Items(work + [w], list + [|work|]) == Items(work, list) + [w]
  {
  }

  /** Unlinking an item is unlinking its queueing, as no item is linked twice. */
  lemma {:induction false} UnlinkItemIs(work: seq<Item>, list: seq<Ticket>, k: Ticket)
    requires Below(list, |work|) && k < |work|
    requires forall i :: 0 <= i < |list| && work[list[i]] == work[k] ==> list[i] == k
    ensures Below(Unlink(list, k), |work|)
    ensures Items(work, Unlink(list, k)) == Unlink(Items(work, list), work[k])
  {
    if list != [] && list[0] != k {
      UnlinkItemIs(work, list[1..], k);
    }
  }

  /** Item work[k] is linked by no other queueing. */
  predicate LinkedOnce(s: State, k: Ticket) {
    && k < |s.work| && Below(s.list, |s.work|)
    && forall i :: 0 <= i < |s.list| && s.work[s.list[i]] == s.work[k] ==> s.list[i] == k
  }

  /** What the operations of the thread structure rely on. */
  predicate Linked(s: State) {
    && InRange(s) && Below(s.list, |s.work|)
    && forall w :: w in s.cancelling ==> LinkedOnce(s, s.cancelling[w]) && s.work[s.cancelling[w]] == w
  }

  lemma InvLinked(s: State)
    requires Inv(s)
    ensures Linked(s)
  {
    assert forall i :: 0 <= i < |s.list| ==> s.list[i] in s.list;
  }

  /** struct workqueue_thread and the links and thread fields of its work items. Each method is one
      action; StepKeeps shows that the state they maintain keeps the invariant. */
  class WorkqThread {
    var owned: set<Item>           // items whose work->thread is set
    var workList: seq<Item>        // work_list
    var pending: bool
    var completion: bool           // completion != NULL
    var read: bool                 // the same of workq_thread's local copy

    ghost var now: State

    ghost predicate Valid()
      reads this
    {
      && Below(now.list, |now.work|) && workList == Items(now.work, now.list)
      && owned == now.owned.Keys && pending == now.pending && completion == now.armed
      && (now.worker.Idling? ==> read == now.worker.read)
    }

    constructor ()
      ensures Valid() && now == INITIAL
    {
      owned, workList, pending, completion, read, now := {}, [], false, false, false, INITIAL;
    }

    method WrapQueueWorkOn(w: Item) returns (ret: int)
      requires Valid() && Linked(now) && Possible(now, Queue(w))
      modifies this
      ensures Valid() && now == Step(old(now), Queue(w))
      ensures ret == if w in old(owned) then 0 else 1
      ensures ret == 0 ==> now == old(now) && workList == old(workList) && owned == old(owned) && pending == old(pending)
      ensures ret == 1 ==> now.work == old(now).work + [w] && now.list == old(now).list + [|old(now).work|]
      ensures ret == 1 ==> workList == old(workList) + [w] && owned == old(owned) + {w} && pending
    {
      if w in owned {
        return 0;
      }
      ItemsGrow(now.work, now.list, w);
      owned := owned + {w};
      workList := workList + [w];
      pending := true;
      now := Queued(now, w);
      ret := 1;
    }

    /** The xchg of wrap_cancel_work; if it wins, CancelDelete follows. */
    method CancelExchange(w: Item) returns (won: bool)
      requires Valid() && Linked(now)
      modifies this
      ensures Valid() && now == Step(old(now), CancelXchg(w))
      ensures won ==> w in now.cancelling
      ensures won == (w in old(now).owned)
    {
      won := w in owned;
      owned := owned - {w};
      now := Step(now, CancelXchg(w));
    }

    method CancelDelete(w: Item)
      requires Valid() && Linked(now) && Possible(now, CancelUnlink(w))
      modifies this
      ensures Valid() && now == Step(old(now), CancelUnlink(w))
    {
      UnlinkItemIs(now.work, now.list, now.cancelling[w]);
      workList := Unlink(workList, w);
      now := Step(now, CancelUnlink(w));
    }

    /** One turn of the inner loop of workq_thread: the item to run, if any, or the end of the loop,
        where thread->completion is read. */
    method Turn() returns (work: Option<Item>, idle: bool)
      requires Valid() && Linked(now) && Possible(now, Look)
      modifies this
      ensures Valid() && now == Step(old(now), Look)
      ensures idle <==> now.worker.Idling?
      ensures work.Some? <==> now.worker.Running?
      ensures work.Some? ==> now.worker.k < |now.work| && work.value == now.work[now.worker.k]
    {
      work, idle := None, false;
      if workList == [] {
        pending := false;
        read := completion;
        idle := true;
      } else {
        var w := workList[0];
        if w in owned {
          owned := owned - {w};
          workList := workList[1..];
          work := Some(w);
        }
      }
      now := Step(now, Look);
    }

    /** The end of the loop; release tells whether to complete what was read. */
    method SettleCompletion() returns (release: bool)
      requires Valid() && Linked(now) && Possible(now, Settle)
      modifies this
      ensures Valid() && now == Step(old(now), Settle)
      ensures release == old(now).worker.read
    {
      completion := false;
      release := read;
      now := Step(now, Settle);
    }

    method FlushStoreCompletion()
      requires Valid() && Linked(now) && Possible(now, FlushStore)
      modifies this
      ensures Valid() && now == Step(old(now), FlushStore)
    {
      completion := true;
      now := Step(now, FlushStore);
    }

    method FlushSetPending()
      requires Valid() && Linked(now) && Possible(now, FlushPending)
      modifies this
      ensures Valid() && now == Step(old(now), FlushPending)
    {
      pending := true;
      now := Step(now, FlushPending);
    }

    /** Whatever the threads do, the structure follows the state machine and keeps its invariant. */
    method Perform(a: Action)
      requires Valid() && Inv(now) && Enabled(now, a)
      modifies this
      ensures Valid() && Inv(now) && now == Step(old(now), a)
    {
      InvLinked(now);
      StepKeeps(now, a);
      match a
      case Queue(w) => var _ := WrapQueueWorkOn(w);
      case CancelXchg(w) => var _ := CancelExchange(w);
      case CancelUnlink(w) => CancelDelete(w);
      case Look => var _, _ := Turn();
      case Settle => var _ := SettleCompletion();
      case FlushStore => FlushStoreCompletion();
      case FlushPending => FlushSetPending();
      case _ => now := Step(now, a);
    }
  }
}
