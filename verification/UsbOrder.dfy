/** The completion worker of usb.c completes IRPs in the order in which the USB core called back. */
module UsbOrder {
  import opened Basics
  import opened UsbUrb

  /** The IRPs whose URBs the USB core has called back for, in order. */
  function CalledBackFor(actions: seq<Action>): seq<Irp> {
    if actions == [] then []
    else CallbackNow(actions[0]) + CalledBackFor(actions[1..])
  }

  function CallbackNow(a: Action): seq<Irp> {
    if a.Callback? then [a.i] else []
  }

  /** The completed IRPs for which STATUS_PENDING had been returned, in order of completion. */
  function Pended(log: seq<Irp>, pended: set<Irp>): seq<Irp> {
    if log == [] then []
    else
      var n := |log| - 1;
      Pended(log[..n], pended) + if log[n] in pended then [log[n]] else []
  }

  function IrpOf(s: State, u: Uid): Irp {
    if u in s.urbs && s.urbs[u].irp.Some? then s.urbs[u].irp.value else 0
  }

  /** The IRPs on the completion list. */
  function Waiting(s: State, done: seq<Uid>): seq<Irp> {
    if done == [] then [] else [IrpOf(s, done[0])] + Waiting(s, done[1..])
  }

  function InHand(s: State): seq<Irp> {
    if s.worker.Some? then [s.worker.value] else []
  }

  /** Completed by the worker, in its hands, and waiting for it. */
  function Queue(s: State): seq<Irp> {
    Pended(s.log, s.pended) + InHand(s) + Waiting(s, s.done)
  }

  lemma {:induction false} WaitingSame(s: State, t: State, done: seq<Uid>)
    requires forall u :: u in done ==> IrpOf(t, u) == IrpOf(s, u)
    ensures Waiting(t, done) == Waiting(s, done)
  {
    if done != [] {
      assert done[0] in done;
      WaitingSame(s, t, done[1..]);
    }
  }

  lemma {:induction false} WaitingSnoc(s: State, done: seq<Uid>, u: Uid)
    ensures Waiting(s, done + [u]) == Waiting(s, done) + [IrpOf(s, u)]
  {
    if done != [] {
      assert (done + [u])[1..] == done[1..] + [u];
      WaitingSnoc(s, done[1..], u);
    }
  }

  lemma {:induction false} PendedSame(log: seq<Irp>, a: set<Irp>, b: set<Irp>)
    requires forall i :: i in log ==> (i in a <==> i in b)
    ensures Pended(log, a) == Pended(log, b)
  {
    if log != [] {
      var n := |log| - 1;
      assert log[n] in log && forall i :: i in log[..n] ==> i in log;
      PendedSame(log[..n], a, b);
    }
  }

  /** A step that leaves log, worker and completion list alone. */
  lemma QuietStep(s: State, t: State)
    requires t.log == s.log && t.worker == s.worker && t.done == s.done
    requires forall u :: u in s.done ==> IrpOf(t, u) == IrpOf(s, u)
    requires forall i :: i in s.log ==> (i in t.pended <==> i in s.pended)
    ensures Queue(t) == Queue(s)
  {
    WaitingSame(s, t, s.done);
    PendedSame(s.log, s.pended, t.pended);
  }

  lemma CallbackStep(s: State, i: Irp, u: Uid)
    requires Inv(s) && i in s.pcs && s.pcs[i] == WithCore(u) && u in s.urbs
    ensures Queue(CalledBack(s, i, u)) == Queue(s) + [i]
  {
    var t := CalledBack(s, i, u);
    NotDone(s, i, u);
    assert IrpOf(t, u) == i;
    WaitingSame(s, t, s.done);
    WaitingSnoc(t, s.done, u);
    assert Queue(s) + [i] == Pended(s.log, s.pended) + InHand(s) + (Waiting(s, s.done) + [i]);
  }

  lemma TakeStep(s: State)
    requires Inv(s) && s.worker.None? && s.done != []
    ensures Queue(Taken(s)) == Queue(s)
  {
    var t, u := Taken(s), s.done[0];
    HeadListed(s, u);
    WaitingSame(s, t, s.done[1..]);
    assert InHand(t) == [IrpOf(s, u)];
  }

  lemma PendedSnoc(log: seq<Irp>, i: Irp, pended: set<Irp>)
    ensures Pended(log + [i], pended) == Pended(log, pended) + if i in pended then [i] else []
  {
    assert (log + [i])[..|log|] == log;
  }

  lemma CompleteStep(s: State, i: Irp)
    requires Inv(s) && i in s.pcs && s.pcs[i].ToComplete?
    ensures Queue(CompletedBy(s, i, s.pcs[i].byWorker)) == Queue(s)
  {
    var w := s.pcs[i].byWorker;
    var t := CompletedBy(s, i, w);
    assert (w <==> i in s.pended) && (w <==> s.worker == Some(i)) by { assert Role(s, i, s.pcs[i]); }
    WaitingSame(s, t, s.done);
    PendedSnoc(s.log, i, s.pended);
    Shift(Pended(s.log, s.pended), InHand(s), InHand(t), if w then [i] else []);
  }

  lemma Shift(x: seq<Irp>, y: seq<Irp>, y': seq<Irp>, z: seq<Irp>)
    requires y == z + y'
    ensures (x + z) + y' == x + y
  {
  }

  lemma FreeStepQuiet(s: State, i: Irp)
    requires Inv(s) && i in s.pcs && s.pcs[i].Freeing? && s.pcs[i].u in s.urbs
    ensures Queue(Freed(s, i, s.pcs[i].u, s.pcs[i].stage, s.pcs[i].byWorker)) == Queue(s)
  {
    NotDone(s, i, s.pcs[i].u);
    QuietStep(s, Freed(s, i, s.pcs[i].u, s.pcs[i].stage, s.pcs[i].byWorker));
  }

  lemma SearchQuiet(s: State, i: Irp)
    requires Inv(s) && Enabled(s, Search(i))
    ensures Queue(Searched(s, i)) == Queue(s)
  {
    var r := FirstFree(s.list, s.urbs);
    assert r.Some? ==> r.value !in s.done;
    QuietStep(s, Searched(s, i));
  }

  lemma SubmitQuiet(s: State, i: Irp, ok: bool)
    requires Inv(s) && Enabled(s, Submit(i, ok)) && s.pcs[i].u in s.urbs
    ensures Queue(Submitted(s, i, s.pcs[i].u, ok)) == Queue(s)
  {
    assert i !in s.log;
    QuietStep(s, Submitted(s, i, s.pcs[i].u, ok));
  }

  lemma DmaFailQuiet(s: State, i: Irp)
    requires Inv(s) && Enabled(s, DmaFail(i))
    ensures Queue(DmaFailed(s, i, s.pcs[i].u)) == Queue(s)
  {
    NotDone(s, i, s.pcs[i].u);
    QuietStep(s, DmaFailed(s, i, s.pcs[i].u));
  }

  lemma InsertQuiet(s: State, i: Irp, u: Uid)
    requires Inv(s) && Enabled(s, Insert(i, u))
    ensures Queue(Inserted(s, i, u)) == Queue(s)
  {
    QuietStep(s, Inserted(s, i, u));
  }

  lemma QueueStep(s: State, a: Action)
    requires Inv(s) && Enabled(s, a) && UrbLive(s)
    ensures Queue(Step(s, a)) == Queue(s) + CallbackNow(a)
  {
    match a
    case Give(i) => QuietStep(s, Goto(s, i, Given));
    case Sync(i) => QuietStep(s, Goto(s, i, ToComplete(false)));
    case Search(i) => SearchQuiet(s, i);
    case Insert(i, u) => InsertQuiet(s, i, u);
    case NoMemory(i) => QuietStep(s, Goto(s, i, ToComplete(false)));
    case DmaFail(i) => DmaFailQuiet(s, i);
    case SetupFail(i) => QuietStep(s, Goto(s, i, Freeing(s.pcs[i].u, Enter, false)));
    case Submit(i, ok) => SubmitQuiet(s, i, ok);
    case Callback(i) => CallbackStep(s, i, s.pcs[i].u);
    case Take => TakeStep(s);
    case Free(i) => FreeStepQuiet(s, i);
    case Complete(i) => CompleteStep(s, i);
  }

  lemma {:induction false} ExecQueue(s: State, actions: seq<Action>, t: State)
    requires Inv(s) && Exec(s, actions) == Some(t)
    ensures Queue(t) == Queue(s) + CalledBackFor(actions)
    decreases |actions|
  {
    if actions != [] {
      Live(s);
      StepKeeps(s, actions[0]);
      QueueStep(s, actions[0]);
      ExecQueue(Step(s, actions[0]), actions[1..], t);
      Assoc(Queue(s), CallbackNow(actions[0]), CalledBackFor(actions[1..]));
    }
  }

  lemma Assoc(x: seq<Irp>, y: seq<Irp>, z: seq<Irp>)
    ensures (x + y) + z == x + (y + z)
  {
  }

  /** In every run the IRPs that the worker has completed, the one in its hands and those waiting for it
      are, in this order, those that the USB core has called back for: first called back, first
      completed. */
  lemma CompletedInOrder(actions: seq<Action>, s: State)
    requires Exec(INITIAL, actions) == Some(s)
    ensures Queue(s) == CalledBackFor(actions)
  {
    ExecQueue(INITIAL, actions, s);
    EmptyQueue(CalledBackFor(actions));
  }

  lemma EmptyQueue(x: seq<Irp>)
    ensures Queue(INITIAL) + x == x
  {
    assert Queue(INITIAL) == [];
  }
}
