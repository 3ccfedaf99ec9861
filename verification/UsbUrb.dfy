/** URBs and IRPs of one USB device (usb.c, pdoDispatchDeviceControl of pnp.c), while the device
    stays present.

    Each IRP is carried by one thread at a time: the dispatcher until usb_submit_urb accepts the
    URB, then the USB core, then the completion worker. A step is one critical section, or the
    unlocked stores between two of them. wrap_free_urb takes three: its first stores and the test of
    num_alloc_urbs, the store of URB_FREE, the store that clears wrap_urb->irp. */
module UsbUrb {
  import opened Basics

  type Irp = nat
  type Uid = nat

  const MAX_ALLOCATED_URBS: int := 15

  datatype UrbState = FREE | ALLOCATED | SUBMITTED | COMPLETED

  /** wrap_urb: state and irp. */
  datatype Urb = Urb(st: UrbState, irp: Option<Irp>)

  /** Where wrap_free_urb is: about to enter, to unlink and free, to store URB_FREE, to clear irp. */
  datatype Stage = Enter | Remove | Store | Clear

  /** Where the thread that carries an IRP is; byWorker tells the completion worker from the
      dispatcher. */
  datatype Pc =
    | Given
    | NoneFree
    | HasUrb(u: Uid)
    | WithCore(u: Uid)
    | Listed(u: Uid)
    | Freeing(u: Uid, stage: Stage, byWorker: bool)
    | ToComplete(byWorker: bool)
    | Completed(byWorker: bool)

  /** urbs: the wrap_urb objects; list and num: wrap_urb_list and num_alloc_urbs; irpUrb:
      IRP_WRAP_URB; done: wrap_urb_complete_list; worker: the IRP in the hands of the completion
      worker; pended: IRPs for which STATUS_PENDING was returned; log: calls of IoCompleteRequest. */
  datatype State = State(urbs: map<Uid, Urb>, list: seq<Uid>, num: int, irpUrb: map<Irp, Uid>,
                         done: seq<Uid>, worker: Option<Irp>, pended: set<Irp>, log: seq<Irp>,
                         pcs: map<Irp, Pc>)

  const INITIAL := State(map[], [], 0, map[], [], None, {}, [], map[])

  datatype Action =
    | Give(i: Irp)                  // an IRP arrives at pdoDispatchDeviceControl
    | Sync(i: Irp)                  // handled without a URB, whatever the result
    | Search(i: Irp)                // wrap_alloc_urb looks for a free URB
    | Insert(i: Irp, u: Uid)        // ... and adds a new one
    | NoMemory(i: Irp)              // ... or cannot
    | DmaFail(i: Irp)               // ... or gets no transfer buffer
    | SetupFail(i: Irp)             // no memory for the setup packet
    | Submit(i: Irp, ok: bool)      // usb_submit_urb accepts or refuses
    | Callback(i: Irp)              // the USB core calls wrap_urb_complete
    | Take                          // the completion worker takes a URB
    | Free(i: Irp)                  // the next step of wrap_free_urb
    | Complete(i: Irp)              // IoCompleteRequest

  /** The search loop: the first URB in state URB_FREE. */
  function FirstFree(list: seq<Uid>, urbs: map<Uid, Urb>): (r: Option<Uid>)
    ensures r.Some? ==> r.value in list && r.value in urbs && urbs[r.value].st == FREE
    ensures r.None? ==> forall u :: u in list && u in urbs ==> urbs[u].st != FREE
  {
    if list == [] then None
    else if list[0] in urbs && urbs[list[0]].st == FREE then Some(list[0])
    else FirstFree(list[1..], urbs)
  }

  /** A URB is taken while the thread that frees it has not cleared its irp yet. */
  predicate MidClear(s: State, u: Uid) {
    u in s.urbs && s.urbs[u].st == FREE && s.urbs[u].irp.Some?
  }

  /** What the environment and each thread's program order allow. The USB core calls back once for
      each URB it accepted, and u is fresh memory. */
  predicate Possible(s: State, a: Action) {
    match a
    case Give(i) => i !in s.pcs
    case Sync(i) => i in s.pcs && s.pcs[i] == Given
    case Search(i) => i in s.pcs && s.pcs[i] == Given
    case Insert(i, u) => i in s.pcs && s.pcs[i] == NoneFree && u !in s.urbs
    case NoMemory(i) => i in s.pcs && s.pcs[i] == NoneFree
    case DmaFail(i) => i in s.pcs && s.pcs[i].HasUrb?
    case SetupFail(i) => i in s.pcs && s.pcs[i].HasUrb?
    case Submit(i, _) => i in s.pcs && s.pcs[i].HasUrb?
    case Callback(i) => i in s.pcs && s.pcs[i].WithCore?
    case Take => s.worker.None? && s.done != []
    case Free(i) => i in s.pcs && s.pcs[i].Freeing?
    case Complete(i) => i in s.pcs && s.pcs[i].ToComplete?
  }

  /** ... and no search hits a URB in the middle of being freed. */
  predicate Enabled(s: State, a: Action) {
    && Possible(s, a)
    && (a.Search? && FirstFree(s.list, s.urbs).Some? ==> !MidClear(s, FirstFree(s.list, s.urbs).value))
  }

  // ------------------------------------------------------------------------ steps

  function Goto(s: State, i: Irp, pc: Pc): State {
    s.(pcs := s.pcs[i := pc])
  }

  function Searched(s: State, i: Irp): State {
    match FirstFree(s.list, s.urbs)
    case None => Goto(s, i, NoneFree)
    case Some(u) =>
      Goto(s.(urbs := s.urbs[u := Urb(ALLOCATED, Some(i))], irpUrb := s.irpUrb[i := u]), i, HasUrb(u))
  }

  function Inserted(s: State, i: Irp, u: Uid): State {
    Goto(s.(urbs := s.urbs[u := Urb(ALLOCATED, Some(i))], list := s.list + [u], num := s.num + 1,
            irpUrb := s.irpUrb[i := u]), i, HasUrb(u))
  }

  function DmaFailed(s: State, i: Irp, u: Uid): State {
    Goto(s.(urbs := s.urbs[u := Urb(FREE, None)], irpUrb := s.irpUrb - {i}), i, ToComplete(false))
  }

  function Submitted(s: State, i: Irp, u: Uid, ok: bool): State
    requires u in s.urbs
  {
    var t := s.(urbs := s.urbs[u := s.urbs[u].(st := SUBMITTED)]);
    if ok then Goto(t.(pended := s.pended + {i}), i, WithCore(u)) else Goto(t, i, Freeing(u, Enter, false))
  }

  function CalledBack(s: State, i: Irp, u: Uid): State
    requires u in s.urbs
  {
    Goto(s.(urbs := s.urbs[u := s.urbs[u].(st := COMPLETED)], done := s.done + [u]), i, Listed(u))
  }

  /** The worker finds its IRP in the URB; without one it cannot go on. */
  function Taken(s: State): State
    requires s.done != []
  {
    var u := s.done[0];
    if u in s.urbs && s.urbs[u].irp.Some? then
      var i := s.urbs[u].irp.value;
      Goto(s.(done := s.done[1..], worker := Some(i)), i, Freeing(u, Enter, true))
    else s.(done := s.done[1..])
  }

  /** wrap_free_urb, one stage. */
  function Freed(s: State, i: Irp, u: Uid, stage: Stage, byWorker: bool): State
    requires u in s.urbs
  {
    match stage
    case Enter =>
      Goto(s.(irpUrb := s.irpUrb - {i}), i,
           Freeing(u, if s.num > MAX_ALLOCATED_URBS then Remove else Store, byWorker))
    case Remove => Goto(s.(urbs := s.urbs - {u}, list := Unlink(s.list, u), num := s.num - 1), i, ToComplete(byWorker))
    case Store => Goto(s.(urbs := s.urbs[u := s.urbs[u].(st := FREE)]), i, Freeing(u, Clear, byWorker))
    case Clear => Goto(s.(urbs := s.urbs[u := s.urbs[u].(irp := None)]), i, ToComplete(byWorker))
  }

  function CompletedBy(s: State, i: Irp, byWorker: bool): State {
    Goto(s.(log := s.log + [i], worker := if byWorker then None else s.worker), i, Completed(byWorker))
  }

  /** The URB named by the thread is live memory. */
  predicate UrbLive(s: State) {
    forall i :: i in s.pcs && Uses(s.pcs[i]) ==> s.pcs[i].u in s.urbs
  }

  predicate Uses(pc: Pc) {
    pc.HasUrb? || pc.WithCore? || pc.Listed? || pc.Freeing?
  }

  function Step(s: State, a: Action): State
    requires Possible(s, a) && UrbLive(s)
  {
    match a
    case Give(i) => Goto(s, i, Given)
    case Sync(i) => Goto(s, i, ToComplete(false))
    case Search(i) => Searched(s, i)
    case Insert(i, u) => Inserted(s, i, u)
    case NoMemory(i) => Goto(s, i, ToComplete(false))
    case DmaFail(i) => DmaFailed(s, i, s.pcs[i].u)
    case SetupFail(i) => Goto(s, i, Freeing(s.pcs[i].u, Enter, false))
    case Submit(i, ok) => Submitted(s, i, s.pcs[i].u, ok)
    case Callback(i) => CalledBack(s, i, s.pcs[i].u)
    case Take => Taken(s)
    case Free(i) => Freed(s, i, s.pcs[i].u, s.pcs[i].stage, s.pcs[i].byWorker)
    case Complete(i) => CompletedBy(s, i, s.pcs[i].byWorker)
  }

  // -------------------------------------------------------------------- invariant

  ghost predicate ListInv(s: State) {
    s.num == |s.list| && Distinct(s.list) && forall u: Uid :: u in s.list <==> u in s.urbs
  }

  /** What a thread may rely on about its URB. */
  ghost predicate Owns(s: State, i: Irp, pc: Pc) {
    match pc
    case HasUrb(u) => u in s.urbs && s.urbs[u] == Urb(ALLOCATED, Some(i))
    case WithCore(u) => u in s.urbs && s.urbs[u] == Urb(SUBMITTED, Some(i))
    case Listed(u) => u in s.urbs && s.urbs[u] == Urb(COMPLETED, Some(i)) && u in s.done
    case Freeing(u, stage, _) => u in s.urbs && s.urbs[u].irp == Some(i) && (s.urbs[u].st == FREE <==> stage == Clear)
    case _ => true
  }

  /** IRP_WRAP_URB is set exactly while the IRP has a URB that is not being freed. */
  ghost predicate Points(s: State, i: Irp, pc: Pc) {
    if Uses(pc) && (pc.Freeing? ==> pc.stage == Enter) then i in s.irpUrb && s.irpUrb[i] == pc.u
    else i !in s.irpUrb
  }

  /** The worker completes exactly the IRPs for which STATUS_PENDING was returned. */
  ghost predicate Role(s: State, i: Irp, pc: Pc) {
    match pc
    case WithCore(_) => i in s.pended
    case Listed(_) => i in s.pended
    case Freeing(_, _, w) => (w <==> i in s.pended) && (w <==> s.worker == Some(i))
    case ToComplete(w) => (w <==> i in s.pended) && (w <==> s.worker == Some(i))
    case Completed(w) => w <==> i in s.pended
    case _ => i !in s.pended
  }

  ghost predicate Threads(s: State) {
    && (forall i :: i in s.pcs ==> Owns(s, i, s.pcs[i]))
    && (forall i :: i in s.pcs ==> Points(s, i, s.pcs[i]))
    && (forall i :: i in s.pcs ==> Role(s, i, s.pcs[i]))
    && (forall i :: i in s.irpUrb ==> i in s.pcs)
    && (forall i :: i in s.pended ==> i in s.pcs)
    && (s.worker.Some? ==> s.worker.value in s.pcs &&
                           (s.pcs[s.worker.value].Freeing? || s.pcs[s.worker.value].ToComplete?))
  }

  /** A URB with an irp belongs to the thread of that IRP; one without is free. */
  ghost predicate Owned(s: State) {
    forall u :: u in s.urbs ==>
      match s.urbs[u].irp
      case None => s.urbs[u].st == FREE
      case Some(i) => i in s.pcs && Uses(s.pcs[i]) && s.pcs[i].u == u
  }

  ghost predicate DoneInv(s: State) {
    && Distinct(s.done)
    && (forall u :: u in s.done ==> u in s.urbs && s.urbs[u].irp.Some? && s.urbs[u].irp.value in s.pcs &&
                                    s.pcs[s.urbs[u].irp.value] == Listed(u))
  }

  ghost predicate LogInv(s: State) {
    Distinct(s.log) && forall i: Irp :: i in s.log <==> i in s.pcs && s.pcs[i].Completed?
  }

  ghost predicate Inv(s: State) {
    ListInv(s) && Threads(s) && Owned(s) && DoneInv(s) && LogInv(s)
  }

  // ----------------------------------------------------------------- preservation

  /** The step from s to t is about IRP i, now at pc, and URB u, which no other thread uses; u is
      negative if the step is about no URB. */
  ghost predicate Local(s: State, t: State, i: Irp, u: int, pc: Pc) {
    && t.pcs == s.pcs[i := pc]
    && (i in s.pcs && Uses(s.pcs[i]) ==> s.pcs[i].u == u)
    && (u in s.urbs ==> s.urbs[u].irp == None || s.urbs[u].irp == Some(i))
    && (forall v :: v in s.urbs && v != u ==> v in t.urbs && t.urbs[v] == s.urbs[v])
    && (forall v :: v in t.urbs && v != u ==> v in s.urbs)
    && (forall j :: j in s.irpUrb && j != i ==> j in t.irpUrb && t.irpUrb[j] == s.irpUrb[j])
    && (forall j :: j in t.irpUrb && j != i ==> j in s.irpUrb)
    && (forall j: Irp :: j != i ==> (j in t.pended <==> j in s.pended))
    && (forall j: Irp :: j != i ==> (t.worker == Some(j) <==> s.worker == Some(j)))
    && (forall v :: v in s.done && v != u ==> v in t.done)
  }

  lemma OtherThread(s: State, t: State, i: Irp, u: int, pc: Pc, j: Irp)
    requires Threads(s) && Local(s, t, i, u, pc) && j in s.pcs && j != i
    ensures Owns(t, j, s.pcs[j]) && Points(t, j, s.pcs[j]) && Role(t, j, s.pcs[j])
  {
    assert Owns(s, j, s.pcs[j]) && Points(s, j, s.pcs[j]) && Role(s, j, s.pcs[j]);
    if Uses(s.pcs[j]) {
      assert s.pcs[j].u != u;
    }
  }

  /** A local step need only account for its own thread. */
  lemma LocalThreads(s: State, t: State, i: Irp, u: int, pc: Pc)
    requires Threads(s) && Local(s, t, i, u, pc)
    requires Owns(t, i, pc) && Points(t, i, pc) && Role(t, i, pc)
    requires t.worker == Some(i) ==> pc.Freeing? || pc.ToComplete?
    ensures Threads(t)
  {
    forall j | j in t.pcs
      ensures Owns(t, j, t.pcs[j]) && Points(t, j, t.pcs[j]) && Role(t, j, t.pcs[j])
    {
      if j != i {
        OtherThread(s, t, i, u, pc, j);
      }
    }
  }

  /** ... and for its own URB. */
  lemma LocalOwned(s: State, t: State, i: Irp, u: int, pc: Pc)
    requires Owned(s) && Local(s, t, i, u, pc)
    requires u in t.urbs ==>
               (t.urbs[u].irp == None && t.urbs[u].st == FREE) || (t.urbs[u].irp == Some(i) && Uses(pc) && pc.u == u)
    ensures Owned(t)
  {
    forall v | v in t.urbs && v != u
      ensures t.urbs[v].irp.Some? ==>
                t.urbs[v].irp.value in t.pcs && Uses(t.pcs[t.urbs[v].irp.value]) && t.pcs[t.urbs[v].irp.value].u == v
      ensures t.urbs[v].irp.None? ==> t.urbs[v].st == FREE
    {
      assert t.urbs[v] == s.urbs[v];
    }
  }

  /** ... and for its own URB on the completion list. */
  lemma LocalDone(s: State, t: State, i: Irp, u: int, pc: Pc)
    requires DoneInv(s) && Local(s, t, i, u, pc) && Distinct(t.done)
    requires forall v :: v in t.done && v != u ==> v in s.done
    requires u in t.done ==> u in t.urbs && t.urbs[u].irp == Some(i) && pc == Listed(u)
    ensures DoneInv(t)
  {
    forall v | v in t.done && v != u
      ensures v in t.urbs && t.urbs[v] == s.urbs[v] && t.urbs[v].irp.Some? && t.urbs[v].irp.value in t.pcs
      ensures t.pcs[t.urbs[v].irp.value] == Listed(v)
    {
      assert v in s.done && s.urbs[v].irp.Some?;
      assert s.urbs[v].irp.value != i;
    }
  }

  lemma LocalLog(s: State, t: State, i: Irp, u: int, pc: Pc)
    requires LogInv(s) && Local(s, t, i, u, pc) && t.log == s.log
    requires !pc.Completed? && (i in s.pcs ==> !s.pcs[i].Completed?)
    ensures LogInv(t)
  {
  }

  /** A URB not on the completion list: its thread is not at Listed. */
  lemma NotDone(s: State, i: Irp, u: Uid)
    requires Inv(s) && i in s.pcs && Uses(s.pcs[i]) && s.pcs[i].u == u && !s.pcs[i].Listed?
    ensures u !in s.done && u in s.urbs && s.urbs[u].irp == Some(i)
  {
    assert Owns(s, i, s.pcs[i]);
  }

  /** Together: what a step that completes no IRP has to show. */
  lemma LocalKeeps(s: State, t: State, i: Irp, u: int, pc: Pc)
    requires Inv(s) && Local(s, t, i, u, pc) && ListInv(t)
    requires Owns(t, i, pc) && Points(t, i, pc) && Role(t, i, pc)
    requires t.worker == Some(i) ==> pc.Freeing? || pc.ToComplete?
    requires u in t.urbs ==>
               (t.urbs[u].irp == None && t.urbs[u].st == FREE) || (t.urbs[u].irp == Some(i) && Uses(pc) && pc.u == u)
    requires Distinct(t.done) && forall v :: v in t.done && v != u ==> v in s.done
    requires u in t.done ==> u in t.urbs && t.urbs[u].irp == Some(i) && pc == Listed(u)
    requires t.log == s.log && !pc.Completed? && (i in s.pcs ==> !s.pcs[i].Completed?)
    ensures Inv(t)
  {
    LocalThreads(s, t, i, u, pc);
    LocalOwned(s, t, i, u, pc);
    LocalDone(s, t, i, u, pc);
    LocalLog(s, t, i, u, pc);
  }

  /** A step that touches no URB. */
  lemma PlainKeeps(s: State, i: Irp, pc: Pc)
    requires Inv(s) && (i in s.pcs ==> s.pcs[i].Given? || s.pcs[i].NoneFree?)
    requires pc == Given || pc == NoneFree || pc == ToComplete(false)
    ensures Inv(Goto(s, i, pc))
  {
    var t := Goto(s, i, pc);
    LocalKeeps(s, t, i, -1, pc);
  }

  lemma SearchKeeps(s: State, i: Irp)
    requires Inv(s) && Enabled(s, Search(i))
    ensures Inv(Searched(s, i))
  {
    match FirstFree(s.list, s.urbs)
    case None => PlainKeeps(s, i, NoneFree);
    case Some(u) =>
      var t := Searched(s, i);
      assert u !in s.done;
      LocalKeeps(s, t, i, u, HasUrb(u));
  }

  lemma InsertKeeps(s: State, i: Irp, u: Uid)
    requires Inv(s) && Enabled(s, Insert(i, u))
    ensures Inv(Inserted(s, i, u))
  {
    var t := Inserted(s, i, u);
    DistinctSnoc(s.list, u);
    LocalKeeps(s, t, i, u, HasUrb(u));
  }

  lemma DmaFailKeeps(s: State, i: Irp)
    requires Inv(s) && Enabled(s, DmaFail(i))
    ensures Inv(DmaFailed(s, i, s.pcs[i].u))
  {
    var u, pc := s.pcs[i].u, ToComplete(false);
    NotDone(s, i, u);
    var t := DmaFailed(s, i, u);
    LocalKeeps(s, t, i, u, pc);
  }

  lemma SetupFailKeeps(s: State, i: Irp)
    requires Inv(s) && Enabled(s, SetupFail(i))
    ensures Inv(Goto(s, i, Freeing(s.pcs[i].u, Enter, false)))
  {
    var u, pc := s.pcs[i].u, Freeing(s.pcs[i].u, Enter, false);
    NotDone(s, i, u);
    var t := Goto(s, i, pc);
    LocalKeeps(s, t, i, u, pc);
  }

  lemma SubmitKeeps(s: State, i: Irp, ok: bool)
    requires Inv(s) && Enabled(s, Submit(i, ok)) && s.pcs[i].u in s.urbs
    ensures Inv(Submitted(s, i, s.pcs[i].u, ok))
  {
    var u := s.pcs[i].u;
    var pc := if ok then WithCore(u) else Freeing(u, Enter, false);
    NotDone(s, i, u);
    var t := Submitted(s, i, u, ok);
    LocalKeeps(s, t, i, u, pc);
  }

  lemma CallbackKeeps(s: State, i: Irp)
    requires Inv(s) && Enabled(s, Callback(i)) && s.pcs[i].u in s.urbs
    ensures Inv(CalledBack(s, i, s.pcs[i].u))
  {
    var u, pc := s.pcs[i].u, Listed(s.pcs[i].u);
    NotDone(s, i, u);
    var t := CalledBack(s, i, u);
    DistinctSnoc(s.done, u);
    LocalKeeps(s, t, i, u, pc);
  }

  /** The worker finds the IRP of the URB it takes. */
  lemma HeadListed(s: State, u: Uid)
    requires Inv(s) && s.done != [] && s.done[0] == u
    ensures u in s.urbs && s.urbs[u].st == COMPLETED && s.urbs[u].irp.Some?
    ensures var i := s.urbs[u].irp.value;
            i in s.pcs && s.pcs[i] == Listed(u) && i in s.irpUrb && s.irpUrb[i] == u && i in s.pended
  {
    assert u in s.done;
    var i := s.urbs[u].irp.value;
    assert Owns(s, i, Listed(u)) && Points(s, i, Listed(u)) && Role(s, i, Listed(u));
  }

  lemma TakeKeeps(s: State)
    requires Inv(s) && Enabled(s, Take)
    ensures Inv(Taken(s))
  {
    var u := s.done[0];
    HeadListed(s, u);
    var i := s.urbs[u].irp.value;
    var t, pc := Taken(s), Freeing(u, Enter, true);
    DistinctTail(s.done);
    assert Local(s, t, i, u, pc);
    LocalKeeps(s, t, i, u, pc);
  }

  lemma FreeStep(s: State, t: State, i: Irp, u: Uid, w: bool, pc: Pc)
    requires Inv(s) && i in s.pcs && s.pcs[i].Freeing? && s.pcs[i].u == u && s.pcs[i].byWorker == w
    requires Local(s, t, i, u, pc) && ListInv(t)
    requires Owns(t, i, pc) && Points(t, i, pc)
    requires u in t.urbs ==>
               if t.urbs[u].irp.None? then t.urbs[u].st == FREE else t.urbs[u].irp == Some(i) && pc.Freeing?
    requires t.done == s.done && t.log == s.log && t.pended == s.pended && t.worker == s.worker
    requires (pc.Freeing? && pc.u == u && pc.byWorker == w) || pc == ToComplete(w)
    ensures Inv(t)
  {
    NotDone(s, i, u);
    assert Role(s, i, s.pcs[i]);
    LocalKeeps(s, t, i, u, pc);
  }

  lemma FreeEnterKeeps(s: State, i: Irp, u: Uid, w: bool)
    requires Inv(s) && i in s.pcs && s.pcs[i] == Freeing(u, Enter, w) && u in s.urbs
    ensures Inv(Freed(s, i, u, Enter, w))
  {
    var t := Freed(s, i, u, Enter, w);
    assert Owns(s, i, s.pcs[i]);
    FreeStep(s, t, i, u, w, t.pcs[i]);
  }

  lemma FreeRemoveKeeps(s: State, i: Irp, u: Uid, w: bool)
    requires Inv(s) && i in s.pcs && s.pcs[i] == Freeing(u, Remove, w) && u in s.urbs
    ensures Inv(Freed(s, i, u, Remove, w))
  {
    var t := Freed(s, i, u, Remove, w);
    assert Owns(s, i, s.pcs[i]) && Points(s, i, s.pcs[i]);
    UnlinkMembers(s.list, u);
    FreeStep(s, t, i, u, w, ToComplete(w));
  }

  lemma FreeStoreKeeps(s: State, i: Irp, u: Uid, w: bool)
    requires Inv(s) && i in s.pcs && s.pcs[i] == Freeing(u, Store, w) && u in s.urbs
    ensures Inv(Freed(s, i, u, Store, w))
  {
    assert Owns(s, i, s.pcs[i]) && Points(s, i, s.pcs[i]);
    FreeStep(s, Freed(s, i, u, Store, w), i, u, w, Freeing(u, Clear, w));
  }

  lemma FreeClearKeeps(s: State, i: Irp, u: Uid, w: bool)
    requires Inv(s) && i in s.pcs && s.pcs[i] == Freeing(u, Clear, w) && u in s.urbs
    ensures Inv(Freed(s, i, u, Clear, w))
  {
    assert Owns(s, i, s.pcs[i]) && Points(s, i, s.pcs[i]);
    FreeStep(s, Freed(s, i, u, Clear, w), i, u, w, ToComplete(w));
  }

  lemma FreeKeeps(s: State, i: Irp)
    requires Inv(s) && Enabled(s, Free(i)) && s.pcs[i].u in s.urbs
    ensures Inv(Freed(s, i, s.pcs[i].u, s.pcs[i].stage, s.pcs[i].byWorker))
  {
    var u, w := s.pcs[i].u, s.pcs[i].byWorker;
    match s.pcs[i].stage
    case Enter => FreeEnterKeeps(s, i, u, w);
    case Remove => FreeRemoveKeeps(s, i, u, w);
    case Store => FreeStoreKeeps(s, i, u, w);
    case Clear => FreeClearKeeps(s, i, u, w);
  }

  lemma CompleteKeeps(s: State, i: Irp)
    requires Inv(s) && Enabled(s, Complete(i))
    ensures Inv(CompletedBy(s, i, s.pcs[i].byWorker))
  {
    var w := s.pcs[i].byWorker;
    var t, pc := CompletedBy(s, i, w), Completed(w);
    assert Role(s, i, s.pcs[i]) && Points(s, i, s.pcs[i]);
    DistinctSnoc(s.log, i);
    LocalThreads(s, t, i, -1, pc);
    LocalOwned(s, t, i, -1, pc);
    LocalDone(s, t, i, -1, pc);
  }

  lemma Live(s: State)
    requires Inv(s)
    ensures UrbLive(s)
  {
    forall i | i in s.pcs && Uses(s.pcs[i])
      ensures s.pcs[i].u in s.urbs
    {
      assert Owns(s, i, s.pcs[i]);
    }
  }

  lemma StepKeeps(s: State, a: Action)
    requires Inv(s) && Enabled(s, a) && UrbLive(s)
    ensures Inv(Step(s, a))
  {
    match a
    case Give(i) => PlainKeeps(s, i, Given);
    case Sync(i) => PlainKeeps(s, i, ToComplete(false));
    case Search(i) => SearchKeeps(s, i);
    case Insert(i, u) => InsertKeeps(s, i, u);
    case NoMemory(i) => PlainKeeps(s, i, ToComplete(false));
    case DmaFail(i) => DmaFailKeeps(s, i);
    case SetupFail(i) => SetupFailKeeps(s, i);
    case Submit(i, ok) => SubmitKeeps(s, i, ok);
    case Callback(i) => CallbackKeeps(s, i);
    case Take => TakeKeeps(s);
    case Free(i) => FreeKeeps(s, i);
    case Complete(i) => CompleteKeeps(s, i);
  }

  // ------------------------------------------------------- reuse in the middle of a release

  /** wrap_free_urb stores URB_FREE before it clears irp, and a search may fall between: then two
      threads have the URB. A search keeps the invariant exactly when it does not. */
  lemma ReuseMidClear(s: State, i: Irp)
    requires Inv(s) && Possible(s, Search(i))
    ensures Inv(Searched(s, i)) <==> Enabled(s, Search(i))
  {
    if Enabled(s, Search(i)) {
      SearchKeeps(s, i);
    } else {
      var u := FirstFree(s.list, s.urbs).value;
      var j, t := s.urbs[u].irp.value, Searched(s, i);
      assert j != i && t.pcs[j] == s.pcs[j] && Uses(t.pcs[j]) && t.pcs[j].u == u;
      assert !Owns(t, j, t.pcs[j]);
    }
  }

  /** What then happens: the submitted URB loses its IRP to the late store, and the worker that takes
      it finds none, so the IRP is not completed. */
  lemma ReuseMidClearLosesIrp(s: State, i: Irp)
    requires Inv(s) && Possible(s, Search(i)) && !Enabled(s, Search(i)) && s.done == []
    ensures var u := FirstFree(s.list, s.urbs).value;
            var j := s.urbs[u].irp.value;
            && j in s.pcs && s.pcs[j].Freeing?
            && var t := Submitted(Searched(s, i), i, u, true);
            && u in t.urbs && t.pcs[j] == s.pcs[j] && t.pcs[i] == WithCore(u)
            && var t2 := Freed(t, j, u, Clear, s.pcs[j].byWorker);
            && t2.pcs[i] == WithCore(u) && u in t2.urbs
            && var t3 := CalledBack(t2, i, u);
            && t3.done == [u] && t3.urbs[u].irp == None && Taken(t3).pcs[i] == Listed(u) && Taken(t3).done == []
  {
    var u := FirstFree(s.list, s.urbs).value;
    var j := s.urbs[u].irp.value;
    assert j != i && Uses(s.pcs[j]) && s.pcs[j].u == u;
    assert Owns(s, j, s.pcs[j]);
  }

  // ------------------------------------------------------------------------- runs

  ghost function Exec(s: State, actions: seq<Action>): (r: Option<State>)
    requires Inv(s)
    ensures r.Some? ==> Inv(r.value)
    decreases |actions|
  {
    if actions == [] then Some(s)
    else if !Enabled(s, actions[0]) then None
    else
      Live(s);
      StepKeeps(s, actions[0]);
      Exec(Step(s, actions[0]), actions[1..])
  }

  ghost predicate Reached(s: State) {
    exists actions :: Exec(INITIAL, actions) == Some(s)
  }

  lemma {:induction false} ExecSnoc(s: State, actions: seq<Action>, t: State, a: Action)
    requires Inv(s) && Exec(s, actions) == Some(t) && UrbLive(t) && Enabled(t, a)
    ensures Exec(s, actions + [a]) == Some(Step(t, a))
    decreases |actions|
  {
    StepKeeps(t, a);
    if actions == [] {
      assert (actions + [a])[1..] == [];
    } else {
      Live(s);
      StepKeeps(s, actions[0]);
      ExecSnoc(Step(s, actions[0]), actions[1..], t, a);
      assert (actions + [a])[0] == actions[0] && (actions + [a])[1..] == actions[1..] + [a];
    }
  }

  predicate Goes(s: State, a: Action, t: State) {
    UrbLive(s) && Enabled(s, a) && t == Step(s, a)
  }

  lemma Reach(s: State, a: Action, t: State)
    requires Reached(s) && Goes(s, a, t)
    ensures Reached(t)
  {
    var actions :| Exec(INITIAL, actions) == Some(s);
    ExecSnoc(INITIAL, actions, s, a);
  }

  /** One URB 0, in this state, with IRP 0 at pc. */
  function OneUrb(urb: Urb, irpUrb: map<Irp, Uid>, pc: Pc): State {
    State(map[0 := urb], [0], 1, irpUrb, [], None, {}, [], map[0 := pc])
  }

  lemma FirstIrp()
    ensures Goes(INITIAL, Give(0), INITIAL.(pcs := map[0 := Given]))
    ensures Goes(INITIAL.(pcs := map[0 := Given]), Search(0), INITIAL.(pcs := map[0 := NoneFree]))
    ensures Goes(INITIAL.(pcs := map[0 := NoneFree]), Insert(0, 0), OneUrb(Urb(ALLOCATED, Some(0)), map[0 := 0], HasUrb(0)))
  {
    assert FirstFree(INITIAL.list, INITIAL.urbs) == None;
    assert [] + [0] == [0];
  }

  lemma FirstRefused(urb: Urb, sent: Urb)
    requires urb == Urb(ALLOCATED, Some(0)) && sent == Urb(SUBMITTED, Some(0))
    ensures Goes(OneUrb(urb, map[0 := 0], HasUrb(0)), Submit(0, false), OneUrb(sent, map[0 := 0], Freeing(0, Enter, false)))
    ensures Goes(OneUrb(sent, map[0 := 0], Freeing(0, Enter, false)), Free(0), OneUrb(sent, map[], Freeing(0, Store, false)))
    ensures Goes(OneUrb(sent, map[], Freeing(0, Store, false)), Free(0),
                 OneUrb(Urb(FREE, Some(0)), map[], Freeing(0, Clear, false)))
  {
    assert map[0 := 0] - {0} == map[];
  }

  lemma SecondIrp(t: State, s: State)
    requires t == OneUrb(Urb(FREE, Some(0)), map[], Freeing(0, Clear, false))
    requires s == t.(pcs := map[0 := Freeing(0, Clear, false), 1 := Given])
    ensures Goes(t, Give(1), s) && Possible(s, Search(1)) && !Enabled(s, Search(1))
  {
    assert t.pcs[1 := Given] == s.pcs;
    assert FirstFree(s.list, s.urbs) == Some(0);
  }

  /** A URB in the middle of its release while another IRP searches: its first submission was
      refused. */
  lemma MidClearReached(t: State, s: State)
    requires t == OneUrb(Urb(FREE, Some(0)), map[], Freeing(0, Clear, false))
    requires s == t.(pcs := map[0 := Freeing(0, Clear, false), 1 := Given])
    ensures Reached(s) && Possible(s, Search(1)) && !Enabled(s, Search(1)) && s.done == []
  {
    var s1, s2 := INITIAL.(pcs := map[0 := Given]), INITIAL.(pcs := map[0 := NoneFree]);
    var s3 := OneUrb(Urb(ALLOCATED, Some(0)), map[0 := 0], HasUrb(0));
    var s4 := OneUrb(Urb(SUBMITTED, Some(0)), map[0 := 0], Freeing(0, Enter, false));
    var s5 := OneUrb(Urb(SUBMITTED, Some(0)), map[], Freeing(0, Store, false));
    FirstIrp();
    FirstRefused(Urb(ALLOCATED, Some(0)), Urb(SUBMITTED, Some(0)));
    SecondIrp(t, s);
    ReachAll(s1, s2, s3, s4, s5, t, s);
  }

  lemma ReachAll(s1: State, s2: State, s3: State, s4: State, s5: State, t: State, s: State)
    requires Goes(INITIAL, Give(0), s1) && Goes(s1, Search(0), s2) && Goes(s2, Insert(0, 0), s3)
    requires Goes(s3, Submit(0, false), s4) && Goes(s4, Free(0), s5) && Goes(s5, Free(0), t) && Goes(t, Give(1), s)
    ensures Reached(s)
  {
    assert Exec(INITIAL, []) == Some(INITIAL);
    Reach(INITIAL, Give(0), s1);
    Reach(s1, Search(0), s2);
    Reach(s2, Insert(0, 0), s3);
    Reach(s3, Submit(0, false), s4);
    Reach(s4, Free(0), s5);
    Reach(s5, Free(0), t);
    Reach(t, Give(1), s);
  }

  /** In every run num_alloc_urbs is the length of the list; an IRP is completed at most once, by the
      worker if STATUS_PENDING was returned for it and by the dispatcher otherwise. */
  lemma EveryRun(actions: seq<Action>, s: State)
    requires Exec(INITIAL, actions) == Some(s)
    ensures s.num == |s.list| && Distinct(s.list) && Distinct(s.log)
    ensures forall i: Irp :: i in s.log <==> i in s.pcs && s.pcs[i].Completed?
    ensures forall i :: i in s.log ==> (s.pcs[i].byWorker <==> i in s.pended)
  {
    forall i | i in s.log
      ensures s.pcs[i].byWorker <==> i in s.pended
    {
      assert Role(s, i, s.pcs[i]);
    }
  }

  /** The URBs in use and the IRPs that hold one correspond one to one. */
  lemma Bijection(s: State, u: Uid)
    requires Inv(s) && u in s.urbs && s.urbs[u].st != FREE
    ensures s.urbs[u].irp.Some?
    ensures forall i :: i in s.pcs ==> (Uses(s.pcs[i]) && s.pcs[i].u == u <==> s.urbs[u].irp == Some(i))
  {
    forall i | i in s.pcs && Uses(s.pcs[i]) && s.pcs[i].u == u
      ensures s.urbs[u].irp == Some(i)
    {
      assert Owns(s, i, s.pcs[i]);
    }
  }

  /** As long as an IRP is not completed, somebody can go on; so when nothing is left to do, every IRP
      has been completed exactly once. */
  lemma SomebodyCanGoOn(s: State, i: Irp) returns (a: Action)
    requires Inv(s) && i in s.pcs && !s.pcs[i].Completed?
    ensures !a.Give? && Enabled(s, a)
  {
    match s.pcs[i]
    case Given => a := Sync(i);
    case NoneFree => a := NoMemory(i);
    case HasUrb(_) => a := Submit(i, true);
    case WithCore(_) => a := Callback(i);
    case Freeing(_, _, _) => a := Free(i);
    case ToComplete(_) => a := Complete(i);
    case Listed(u) =>
      assert Owns(s, i, s.pcs[i]);
      match s.worker
      case None => a := Take;
      case Some(j) => a := if s.pcs[j].Freeing? then Free(j) else Complete(j);
  }

  /** How far an IRP is from its completion. */
  function Rank(pc: Pc): nat {
    match pc
    case Given => 9
    case NoneFree => 8
    case HasUrb(_) => 7
    case WithCore(_) => 6
    case Listed(_) => 5
    case Freeing(_, stage, _) => if stage == Enter then 4 else if stage == Clear then 2 else 3
    case ToComplete(_) => 1
    case Completed(_) => 0
  }

  /** From s to t one IRP comes closer to its completion and the others stay where they are. */
  ghost predicate Lowers(s: State, t: State, i: Irp) {
    i in s.pcs && exists pc :: t.pcs == s.pcs[i := pc] && Rank(pc) < Rank(s.pcs[i])
  }

  lemma ThreadLowers(s: State, a: Action)
    requires Possible(s, a) && UrbLive(s) && !a.Give? && !a.Take?
    ensures Lowers(s, Step(s, a), a.i)
  {
    var pc := Step(s, a).pcs[a.i];
    assert Step(s, a).pcs == s.pcs[a.i := pc] && Rank(pc) < Rank(s.pcs[a.i]);
  }

  /** Every step brings one IRP closer to its completion: with no new IRPs each run ends, and then
      all are completed. */
  lemma StepLowers(s: State, a: Action) returns (i: Irp)
    requires Inv(s) && Enabled(s, a) && UrbLive(s) && !a.Give?
    ensures Lowers(s, Step(s, a), i)
  {
    if a.Take? {
      var u := s.done[0];
      assert u in s.done;
      i := s.urbs[u].irp.value;
      var pc := Freeing(u, Enter, true);
      assert Step(s, a).pcs == s.pcs[i := pc] && Rank(pc) < Rank(s.pcs[i]);
    } else {
      i := a.i;
      ThreadLowers(s, a);
    }
  }

  /** How far all IRPs are from completion. */
  ghost function Distance(pcs: map<Irp, Pc>): nat
    decreases |pcs|
  {
    if pcs == map[] then 0
    else
      var i :| i in pcs;
      Rank(pcs[i]) + Distance(pcs - {i})
  }

  lemma {:induction false} DistanceAt(pcs: map<Irp, Pc>, i: Irp)
    requires i in pcs
    ensures Distance(pcs) == Rank(pcs[i]) + Distance(pcs - {i})
    decreases |pcs|
  {
    var j :| j in pcs && Distance(pcs) == Rank(pcs[j]) + Distance(pcs - {j});
    if j != i {
      DistanceAt(pcs - {j}, i);
      DistanceAt(pcs - {i}, j);
      assert pcs - {j} - {i} == pcs - {i} - {j};
    }
  }

  lemma LowersDistance(s: State, t: State, i: Irp)
    requires Lowers(s, t, i)
    ensures Distance(t.pcs) < Distance(s.pcs)
  {
    DistanceAt(s.pcs, i);
    DistanceAt(t.pcs, i);
    assert t.pcs - {i} == s.pcs - {i};
  }

  /** Without new IRPs a run cannot go on for ever. */
  lemma {:induction false} RunEnds(s: State, actions: seq<Action>, t: State)
    requires Inv(s) && Exec(s, actions) == Some(t)
    requires forall k :: 0 <= k < |actions| ==> !actions[k].Give?
    ensures |actions| + Distance(t.pcs) <= Distance(s.pcs)
    decreases |actions|
  {
    if actions != [] {
      Live(s);
      StepKeeps(s, actions[0]);
      var i := StepLowers(s, actions[0]);
      LowersDistance(s, Step(s, actions[0]), i);
      RunEnds(Step(s, actions[0]), actions[1..], t);
    }
  }

  /** And where it cannot go on, every IRP has been completed exactly once. */
  lemma AllCompletedAtRest(actions: seq<Action>, s: State)
    requires Exec(INITIAL, actions) == Some(s)
    requires forall a: Action :: !a.Give? ==> !Enabled(s, a)
    ensures Distinct(s.log) && forall i :: i in s.pcs ==> i in s.log
  {
    forall i | i in s.pcs
      ensures i in s.log
    {
      if !s.pcs[i].Completed? {
        var a := SomebodyCanGoOn(s, i);
      }
    }
  }

  // --------------------------------------------------------------- the device's structures

  /** The USB part of a wrap_device with the global completion list. Each method is one action, and so
      keeps the invariant by StepKeeps; the ghost fields are what the code keeps in its threads. */
  class UsbDevice {
    var urbs: map<Uid, Urb>
    var list: seq<Uid>
    var num: int
    var irpUrb: map<Irp, Uid>
    var done: seq<Uid>

    ghost var worker: Option<Irp>
    ghost var pended: set<Irp>
    ghost var log: seq<Irp>
    ghost var pcs: map<Irp, Pc>

    ghost function View(): State
      reads this
    {
      State(urbs, list, num, irpUrb, done, worker, pended, log, pcs)
    }

    constructor ()
      ensures View() == INITIAL
    {
      urbs, list, num, irpUrb, done := map[], [], 0, map[], [];
      worker, pended, log, pcs := None, {}, [], map[];
    }

    /** The search of wrap_alloc_urb, under the cancel lock. */
    method SearchUrb(i: Irp) returns (found: Option<Uid>)
      requires UrbLive(View()) && Possible(View(), Search(i))
      modifies this
      ensures View() == Step(old(View()), Search(i))
      ensures found == FirstFree(old(list), old(urbs))
    {
      found := FindFree(list, urbs);
      if found.Some? {
        var u := found.value;
        urbs := urbs[u := Urb(ALLOCATED, Some(i))];
        irpUrb := irpUrb[i := u];
        pcs := pcs[i := HasUrb(u)];
      } else {
        pcs := pcs[i := NoneFree];
      }
    }

    /** wrap_alloc_urb with new memory. */
    method InsertUrb(i: Irp, u: Uid)
      requires UrbLive(View()) && Enabled(View(), Insert(i, u))
      modifies this
      ensures View() == Step(old(View()), Insert(i, u))
      ensures list == old(list) + [u] && num == old(num) + 1 && u in urbs && urbs[u].irp == Some(i)
    {
      var urb := Urb(ALLOCATED, None);
      list := list + [u];
      num := num + 1;
      urb := urb.(irp := Some(i));
      urbs := urbs[u := urb];
      irpUrb := irpUrb[i := u];
      pcs := pcs[i := HasUrb(u)];
    }

    /** wrap_alloc_urb without a transfer buffer, at the URB u that it has just taken. */
    method UndoUrb(i: Irp, u: Uid)
      requires UrbLive(View()) && Enabled(View(), DmaFail(i)) && pcs[i].u == u
      modifies this
      ensures View() == Step(old(View()), DmaFail(i))
    {
      urbs := urbs[u := Urb(FREE, None)];
      irpUrb := irpUrb - {i};
      pcs := pcs[i := ToComplete(false)];
    }

    /** wrap_submit_urb up to usb_submit_urb, which accepts or refuses. */
    method SubmitUrb(i: Irp, ok: bool) returns (pending: bool)
      requires Inv(View()) && UrbLive(View()) && Enabled(View(), Submit(i, ok))
      modifies this
      ensures View() == Step(old(View()), Submit(i, ok)) && pending == ok
    {
      ThreadKnows(View(), i);
      var u := irpUrb[i];
      urbs := urbs[u := urbs[u].(st := SUBMITTED)];
      pending := ok;
      if ok {
        pended := pended + {i};
        pcs := pcs[i := WithCore(u)];
      } else {
        pcs := pcs[i := Freeing(u, Enter, false)];
      }
    }

    /** wrap_urb_complete for the URB u, submitted for IRP i. */
    method UrbComplete(u: Uid, ghost i: Irp)
      requires UrbLive(View()) && Enabled(View(), Callback(i)) && pcs[i].u == u
      modifies this
      ensures View() == Step(old(View()), Callback(i)) && done == old(done) + [u]
    {
      urbs := urbs[u := urbs[u].(st := COMPLETED)];
      done := done + [u];
      pcs := pcs[i := Listed(u)];
    }

    method TakeHead() returns (u: Uid, irp: Irp)
      requires done != [] && done[0] in urbs && urbs[done[0]].irp.Some?
      modifies this
      ensures u == old(done)[0] && Some(irp) == old(urbs)[u].irp && View() == Taken(old(View()))
    {
      u := done[0];
      done := done[1..];
      irp := urbs[u].irp.value;
      worker := Some(irp);
      pcs := pcs[irp := Freeing(u, Enter, true)];
    }

    /** wrap_urb_complete_worker takes the next URB, if any, and finds its IRP. */
    method TakeUrb() returns (ent: Option<Uid>, irp: Option<Irp>)
      requires Inv(View()) && UrbLive(View()) && worker.None?
      modifies this
      ensures old(done) == [] ==> ent == None && View() == old(View())
      ensures old(done) != [] ==> ent == Some(old(done)[0]) && irp.Some? && View() == Step(old(View()), Take)
    {
      ent, irp := None, None;
      if done != [] {
        HeadListed(View(), done[0]);
        var u, i := TakeHead();
        ent, irp := Some(u), Some(i);
      }
    }

    /** wrap_free_urb up to its test, whose result it returns. */
    method FreeUrbEnter(u: Uid, ghost i: Irp) returns (excess: bool)
      requires Inv(View()) && UrbLive(View()) && Enabled(View(), Free(i)) && pcs[i].u == u && pcs[i].stage == Enter
      modifies this
      ensures View() == Step(old(View()), Free(i))
      ensures excess <==> num > MAX_ALLOCATED_URBS
    {
      ThreadKnows(View(), i);
      var irp := urbs[u].irp.value;
      irpUrb := irpUrb - {irp};
      excess := num > MAX_ALLOCATED_URBS;
      pcs := pcs[i := Freeing(u, if excess then Remove else Store, pcs[i].byWorker)];
    }

    method FreeUrbRemove(u: Uid, ghost i: Irp)
      requires UrbLive(View()) && Enabled(View(), Free(i)) && pcs[i].u == u && pcs[i].stage == Remove
      modifies this
      ensures View() == Step(old(View()), Free(i))
    {
      list := Unlink(list, u);
      num := num - 1;
      urbs := urbs - {u};
      pcs := pcs[i := ToComplete(pcs[i].byWorker)];
    }

    method FreeUrbStore(u: Uid, ghost i: Irp)
      requires UrbLive(View()) && Enabled(View(), Free(i)) && pcs[i].u == u && pcs[i].stage == Store
      modifies this
      ensures View() == Step(old(View()), Free(i))
    {
      urbs := urbs[u := urbs[u].(st := FREE)];
      pcs := pcs[i := Freeing(u, Clear, pcs[i].byWorker)];
    }

    method FreeUrbClear(u: Uid, ghost i: Irp)
      requires UrbLive(View()) && Enabled(View(), Free(i)) && pcs[i].u == u && pcs[i].stage == Clear
      modifies this
      ensures View() == Step(old(View()), Free(i))
    {
      urbs := urbs[u := urbs[u].(irp := None)];
      pcs := pcs[i := ToComplete(pcs[i].byWorker)];
    }
  }

  /** The loop of wrap_alloc_urb over the list. */
  method FindFree(list: seq<Uid>, urbs: map<Uid, Urb>) returns (found: Option<Uid>)
    ensures found == FirstFree(list, urbs)
  {
    var k := 0;
    while k < |list|
      invariant 0 <= k <= |list| && FirstFree(list, urbs) == FirstFree(list[k..], urbs)
    {
      assert list[k..][1..] == list[k + 1..];
      if list[k] in urbs && urbs[list[k]].st == FREE {
        return Some(list[k]);
      }
      k := k + 1;
    }
    found := None;
  }

  /** What a thread finds in its IRP and its URB. */
  lemma ThreadKnows(s: State, i: Irp)
    requires Inv(s) && i in s.pcs && Uses(s.pcs[i]) && (s.pcs[i].Freeing? ==> s.pcs[i].stage == Enter)
    ensures i in s.irpUrb && s.irpUrb[i] == s.pcs[i].u
    ensures s.pcs[i].u in s.urbs && s.urbs[s.pcs[i].u].irp == Some(i)
  {
    assert Points(s, i, s.pcs[i]) && Owns(s, i, s.pcs[i]);
  }
}
