/** The stack machine of an IRP (IofCallDriver and IofCompleteRequest of ntoskernel_io.c, the
    stack-location macros of winnt_types.h).

    A device is named by its stack_count: in one device stack these are 1 at the bottom up to the
    number of devices at the top (see DeviceStack). 0 is the null pointer. */
module IrpStack {
  import opened Basics

  /** io_stack_location: dev_obj, the fields IoCopyCurrentIrpStackLocationToNext copies, and the
      completion routine with its context and the bits of control. setBy is history: the device that
      held the IRP when the routine was set, 0 for the IRP's sender. */
  datatype Slot = Slot(dev: nat, request: nat, routine: nat, context: nat,
                       onSuccess: bool, onError: bool, onCancel: bool, pending: bool, setBy: nat)

  const BLANK := Slot(0, 0, 0, 0, false, false, false, false, 0)

  predicate Enabled(x: Slot) {
    x.routine != 0 && (x.onSuccess || x.onError || x.onCancel)
  }

  /** What can be observed, in order: IofCallDriver entered a slot, IoPassIrpDown handed a slot to a
      lower device, IofCompleteRequest consulted a slot (and called its routine with dev), the final
      stage ran. */
  datatype Event =
    | Called(slot: int, dev: nat)
    | Passed(slot: int, dev: nat)
    | Consulted(slot: int, dev: nat, setBy: nat, invoked: bool)
    | Finished

  /** csl is the slot pointer, counted from IRP_SL(irp, 0). */
  datatype State = State(count: nat, loc: int, csl: int, slots: seq<Slot>,
                         pendingReturned: bool, status: int, cancel: bool, log: seq<Event>)

  const SUCCESS: int := 0

  /** What a completion routine does: its result is STATUS_MORE_PROCESSING_REQUIRED or not, it may
      set io_status and may mark the IRP pending in the slot it sees. */
  datatype Outcome = Outcome(more: bool, status: int, mark: bool)

  /** IoAllocateIrp for a device: one slot more than its stack_count. */
  function Fresh(stackCount: nat): State {
    State(stackCount + 1, stackCount + 1, stackCount + 1, seq(stackCount + 1, _ => BLANK), false, SUCCESS, false, [])
  }

  predicate InBounds(s: State) {
    |s.slots| == s.count && s.csl == s.loc && 0 <= s.loc <= s.count
  }

  // ------------------------------------------------------------------- operations

  /** IofCallDriver, up to the call of the dispatch routine; without a slot left it fails and
      changes nothing. */
  function CallDriver(s: State, dev: nat): State
    requires InBounds(s)
  {
    if s.loc <= 0 then s
    else
      var i := s.csl - 1;
      s.(loc := s.loc - 1, csl := i, slots := s.slots[i := s.slots[i].(dev := dev)], log := s.log + [Called(i, dev)])
  }

  /** IoPassIrpDown: skip the current slot, then call. */
  function PassDown(s: State, dev: nat): State
    requires InBounds(s) && s.loc < s.count
  {
    s.(slots := s.slots[s.csl := s.slots[s.csl].(dev := dev)], log := s.log + [Passed(s.csl, dev)])
  }

  function CopyToNext(s: State): State
    requires InBounds(s) && 0 < s.loc < s.count
  {
    var i := s.csl - 1;
    var x := s.slots[i + 1].(routine := s.slots[i].routine, context := s.slots[i].context, setBy := s.slots[i].setBy,
                             onSuccess := false, onError := false, onCancel := false, pending := false);
    s.(slots := s.slots[i := x])
  }

  /** The device a completion routine set now is to be called with. */
  function Caller(s: State): nat
    requires InBounds(s)
  {
    if s.loc < s.count then s.slots[s.csl].dev else 0
  }

  function SetCompletionRoutine(s: State, routine: nat, context: nat, success: bool, error: bool, cancel: bool): State
    requires InBounds(s) && 0 < s.loc
  {
    var i := s.csl - 1;
    var x := s.slots[i].(routine := routine, context := context, setBy := Caller(s),
                         onSuccess := success, onError := error, onCancel := cancel, pending := false);
    s.(slots := s.slots[i := x])
  }

  function Mark(s: State): State
    requires InBounds(s)
  {
    if s.loc < s.count then s.(slots := s.slots[s.csl := s.slots[s.csl].(pending := true)]) else s
  }

  /** The test of IofCompleteRequest. */
  predicate Invokes(s: State, x: Slot) {
    && x.routine != 0
    && ((s.status == SUCCESS && x.onSuccess) || (s.status != SUCCESS && x.onError) || (s.cancel && x.onCancel))
  }

  function Above(s: State, i: int): nat
    requires |s.slots| == s.count && 0 <= i < s.count
  {
    if i + 1 < s.count then s.slots[i + 1].dev else 0
  }

  /** The current slot is left, and the routine it holds is not called yet. */
  function Leave(s: State): State
    requires InBounds(s) && s.loc < s.count
  {
    var x := s.slots[s.csl];
    s.(loc := s.loc + 1, csl := s.csl + 1, pendingReturned := s.pendingReturned || x.pending,
       log := s.log + [Consulted(s.csl, Above(s, s.csl), x.setBy, Invokes(s, x))])
  }

  /** One turn of the loop. */
  function Consult(s: State, out: Outcome): State
    requires InBounds(s) && s.loc < s.count
  {
    var t := Leave(s);
    if Invokes(s, s.slots[s.csl]) then (if out.mark then Mark(t) else t).(status := out.status)
    else if t.pendingReturned then Mark(t)
    else t
  }

  predicate Stops(s: State, out: Outcome)
    requires InBounds(s) && s.loc < s.count
  {
    Invokes(s, s.slots[s.csl]) && out.more
  }

  /** IofCompleteRequest; outs says what the routine of each slot does, if it is called. */
  function Complete(s: State, outs: seq<Outcome>): State
    requires InBounds(s) && |outs| == s.count
    decreases s.count - s.loc
  {
    if s.loc >= s.count then s.(log := s.log + [Finished])
    else
      var t := Consult(s, outs[s.csl]);
      if Stops(s, outs[s.csl]) then t else Complete(t, outs)
  }

  // ------------------------------------------------------------- what a log may be

  /** Where the IRP is after these events. */
  function Depth(log: seq<Event>, count: nat): int {
    if log == [] then count
    else
      match log[|log| - 1]
      case Called(i, _) => i
      case Passed(i, _) => i
      case Consulted(i, _, _, _) => i + 1
      case Finished => count
  }

  /** Event e is in order at depth d. */
  predicate InOrder(e: Event, d: int, count: nat) {
    match e
    case Called(i, dev) => 0 <= i == d - 1 && 1 <= dev <= i
    case Passed(i, dev) => i == d < count && 1 <= dev <= i
    case Consulted(i, _, _, _) => i == d < count
    case Finished => d == count
  }

  ghost predicate WellRun(log: seq<Event>, count: nat) {
    log == [] || (var before := log[..|log| - 1];
                  && WellRun(before, count) && Finished !in before
                  && InOrder(log[|log| - 1], Depth(before, count), count))
  }

  lemma WellRunSnoc(log: seq<Event>, e: Event, count: nat)
    requires WellRun(log, count) && Finished !in log && InOrder(e, Depth(log, count), count)
    ensures WellRun(log + [e], count)
    ensures Depth(log + [e], count) == Depth([e], count)
  {
    assert (log + [e])[..|log|] == log;
  }

  predicate IsConsult(e: Event, i: int) {
    e.Consulted? && e.slot == i
  }

  predicate IsCall(e: Event, i: int) {
    e.Called? && e.slot == i
  }

  function Count(log: seq<Event>, p: Event -> bool): nat {
    if log == [] then 0 else Count(log[..|log| - 1], p) + if p(log[|log| - 1]) then 1 else 0
  }

  function Calls(log: seq<Event>, i: int): nat {
    Count(log, (e: Event) => IsCall(e, i))
  }

  function Consults(log: seq<Event>, i: int): nat {
    Count(log, (e: Event) => IsConsult(e, i))
  }

  /** Every use of a slot is consulted once: the slots from the current one up are used and not
      consulted yet, the others are consulted as often as used. */
  lemma {:induction false} ConsultedOncePerUse(log: seq<Event>, count: nat, i: nat)
    requires WellRun(log, count) && i < count
    ensures 0 <= Depth(log, count) <= count
    ensures Calls(log, i) == Consults(log, i) + if Depth(log, count) <= i then 1 else 0
  {
    if log != [] {
      ConsultedOncePerUse(log[..|log| - 1], count, i);
    }
  }

  /** Consultations with no call between them go from lower to higher slots, skipping none. */
  lemma {:induction false} ConsultedUpwards(log: seq<Event>, count: nat, a: nat, b: nat)
    requires WellRun(log, count) && a < b < |log| && log[a].Consulted? && log[b].Consulted?
    requires forall k :: a < k < b ==> !log[k].Called?
    ensures log[a].slot < log[b].slot
    ensures b == a + 1 ==> log[b].slot == log[a].slot + 1
  {
    DepthAt(log, count, b);
    RisesBetween(log, count, a, b);
  }

  lemma {:induction false} DepthAt(log: seq<Event>, count: nat, b: nat)
    requires WellRun(log, count) && b < |log|
    ensures WellRun(log[..b], count) && InOrder(log[b], Depth(log[..b], count), count)
    ensures Finished !in log[..b]
  {
    var n := |log| - 1;
    if b < n {
      DepthAt(log[..n], count, b);
      assert log[..n][..b] == log[..b];
    }
  }

  lemma {:induction false} RisesBetween(log: seq<Event>, count: nat, a: nat, b: nat)
    requires WellRun(log, count) && a < b < |log| && log[a].Consulted?
    requires forall k :: a < k < b ==> !log[k].Called?
    ensures Depth(log[..b], count) > log[a].slot
    ensures b == a + 1 ==> Depth(log[..b], count) == log[a].slot + 1
  {
    assert log[..b][|log[..b]| - 1] == log[b - 1];
    if b > a + 1 {
      RisesBetween(log, count, a, b - 1);
      DepthAt(log, count, b - 1);
      DepthAt(log, count, b);
      assert log[b - 1] in log[..b];
    }
  }

  /** The final stage runs at most once, at the very end, with every use consulted. */
  lemma FinishedOnce(log: seq<Event>, count: nat, k: nat)
    requires WellRun(log, count) && k < |log| && log[k].Finished?
    ensures k == |log| - 1 && Depth(log[..k], count) == count
    ensures forall i :: 0 <= i < count ==> Calls(log, i) == Consults(log, i)
  {
    DepthAt(log, count, k);
    forall i | 0 <= i < count
      ensures Calls(log, i) == Consults(log, i)
    {
      ConsultedOncePerUse(log, count, i);
    }
  }

  // ------------------------------------------------------------------------- runs

  /** What the holder of the IRP may do. */
  datatype Action =
    | Call(dev: nat)
    | Pass(dev: nat)
    | CopyNext
    | SetRoutine(routine: nat, context: nat, success: bool, error: bool, cancel: bool)
    | MarkPending
    | SetStatus(status: int)
    | Cancel
    | CompleteRequest(outs: seq<Outcome>)

  /** The device that holds the IRP; its sender counts as one above the top. */
  function Holder(s: State): nat
    requires InBounds(s)
  {
    if s.loc < s.count then s.slots[s.csl].dev else s.count
  }

  /** What a holder obeys: it sends the IRP to a device below it, not necessarily the next, and prepares
      the next slot only if there is a device below. After the final stage there is no IRP. */
  ghost predicate May(s: State, a: Action)
    requires InBounds(s)
  {
    && Finished !in s.log
    && match a
       case Call(dev) => 1 <= dev < Holder(s)
       case Pass(dev) => s.loc < s.count && 1 <= dev < Holder(s)
       case CopyNext => s.loc < s.count && 2 <= Holder(s)
       case SetRoutine(_, _, _, _, _) => 2 <= Holder(s)
       case MarkPending => s.loc < s.count
       case SetStatus(_) => true
       case Cancel => true
       case CompleteRequest(outs) => |outs| == s.count
  }

  /** The slots from the current one up are in use: slot i belongs to a device with at most i devices
      at or below it. */
  ghost predicate Inv(s: State) {
    && InBounds(s) && 2 <= s.count
    && WellRun(s.log, s.count) && Depth(s.log, s.count) == s.loc
    && (forall i :: s.loc <= i < s.count ==> 1 <= s.slots[i].dev <= i)
  }

  /** An IRP allocated for the top of the stack never runs out of slots: whoever may send it on has
      a slot below, inside the IRP. */
  lemma SlotBelow(s: State)
    requires Inv(s) && 2 <= Holder(s)
    ensures 0 < s.loc
  {
  }

  function Step(s: State, a: Action): State
    requires Inv(s) && May(s, a)
  {
    match a
    case Call(dev) => CallDriver(s, dev)
    case Pass(dev) => PassDown(s, dev)
    case CopyNext => CopyToNext(s)
    case SetRoutine(r, c, su, er, ca) => SetCompletionRoutine(s, r, c, su, er, ca)
    case MarkPending => Mark(s)
    case SetStatus(status) => s.(status := status)
    case Cancel => s.(cancel := true)
    case CompleteRequest(outs) => Complete(s, outs)
  }

  lemma FreshInv(stackCount: nat)
    requires stackCount >= 1
    ensures Inv(Fresh(stackCount))
  {
  }

  lemma CallKeeps(s: State, dev: nat)
    requires Inv(s) && May(s, Call(dev))
    ensures Inv(CallDriver(s, dev)) && CallDriver(s, dev).loc == s.loc - 1
  {
    SlotBelow(s);
    WellRunSnoc(s.log, Called(s.csl - 1, dev), s.count);
  }

  lemma PassKeeps(s: State, dev: nat)
    requires Inv(s) && May(s, Pass(dev))
    ensures Inv(PassDown(s, dev)) && PassDown(s, dev).loc == s.loc
  {
    WellRunSnoc(s.log, Passed(s.csl, dev), s.count);
  }

  lemma MarkKeeps(s: State)
    requires Inv(s)
    ensures Inv(Mark(s))
  {
  }

  lemma LeaveKeeps(s: State)
    requires Inv(s) && s.loc < s.count && Finished !in s.log
    ensures Inv(Leave(s)) && Finished !in Leave(s).log
  {
    var x := s.slots[s.csl];
    WellRunSnoc(s.log, Consulted(s.csl, Above(s, s.csl), x.setBy, Invokes(s, x)), s.count);
  }

  lemma ConsultKeeps(s: State, out: Outcome)
    requires Inv(s) && s.loc < s.count && Finished !in s.log
    ensures Inv(Consult(s, out)) && Finished !in Consult(s, out).log
  {
    LeaveKeeps(s);
    MarkKeeps(Leave(s));
  }

  lemma {:induction false} CompleteKeeps(s: State, outs: seq<Outcome>)
    requires Inv(s) && |outs| == s.count && Finished !in s.log
    ensures Inv(Complete(s, outs))
    decreases s.count - s.loc
  {
    if s.loc >= s.count {
      WellRunSnoc(s.log, Finished, s.count);
    } else {
      ConsultKeeps(s, outs[s.csl]);
      if !Stops(s, outs[s.csl]) {
        CompleteKeeps(Consult(s, outs[s.csl]), outs);
      }
    }
  }

  lemma StepKeeps(s: State, a: Action)
    requires Inv(s) && May(s, a)
    ensures Inv(Step(s, a)) && Step(s, a).count == s.count
  {
    match a
    case Call(dev) => CallKeeps(s, dev);
    case Pass(dev) => PassKeeps(s, dev);
    case MarkPending => MarkKeeps(s);
    case CompleteRequest(outs) => CompleteKeeps(s, outs); CompleteCount(s, outs);
    case _ =>
  }

  lemma {:induction false} CompleteCount(s: State, outs: seq<Outcome>)
    requires InBounds(s) && |outs| == s.count
    ensures Complete(s, outs).count == s.count
    decreases s.count - s.loc
  {
    if s.loc < s.count && !Stops(s, outs[s.csl]) {
      CompleteCount(Consult(s, outs[s.csl]), outs);
    }
  }

  ghost function Exec(s: State, actions: seq<Action>): (r: Option<State>)
    requires Inv(s)
    ensures r.Some? ==> Inv(r.value) && r.value.count == s.count
    decreases |actions|
  {
    if actions == [] then Some(s)
    else if !May(s, actions[0]) then None
    else
      StepKeeps(s, actions[0]);
      Exec(Step(s, actions[0]), actions[1..])
  }

  /** A run of an IRP allocated for a stack of n devices. */
  ghost function Run(n: nat, actions: seq<Action>): (r: Option<State>)
    requires n >= 1
    ensures r.Some? ==> Inv(r.value) && r.value.count == n + 1
  {
    FreshInv(n);
    Exec(Fresh(n), actions)
  }

  /** In every run: the slot pointer is slot current_location, inside the IRP; every use of a slot is
      consulted exactly once; and whoever may send the IRP on does not meet the error exit of
      IofCallDriver. */
  lemma EveryRun(n: nat, actions: seq<Action>, t: State)
    requires n >= 1 && Run(n, actions) == Some(t)
    ensures t.csl == t.loc && 0 <= t.loc <= t.count == n + 1
    ensures 2 <= Holder(t) ==> 0 < t.loc
    ensures forall i :: 0 <= i <= n ==>
              Calls(t.log, i) == Consults(t.log, i) + if t.loc <= i then 1 else 0
    ensures Finished in t.log ==> t.loc == t.count && t.log[|t.log| - 1] == Finished
  {
    forall i | 0 <= i <= n
      ensures Calls(t.log, i) == Consults(t.log, i) + if t.loc <= i then 1 else 0
    {
      ConsultedOncePerUse(t.log, n + 1, i);
    }
    if 2 <= Holder(t) {
      SlotBelow(t);
    }
    if Finished in t.log {
      var k :| 0 <= k < |t.log| && t.log[k] == Finished;
      FinishedOnce(t.log, n + 1, k);
    }
  }

  // -------------------------------------------------- a routine and the device it is called with

  /** A routine in a slot in use was set by the device of the slot above, which is the one it will be
      called with. */
  ghost predicate Own(s: State) {
    && InBounds(s)
    && forall i :: s.loc <= i < s.count && Enabled(s.slots[i]) ==> s.slots[i].setBy == Above(s, i)
  }

  /** The slot about to be entered holds no routine, or one that the holder has set. */
  predicate Prepared(s: State)
    requires InBounds(s)
  {
    0 < s.loc && Enabled(s.slots[s.csl - 1]) ==> s.slots[s.csl - 1].setBy == Caller(s)
  }

  /** Every routine called so far got the device that had set it. */
  ghost predicate RightDevices(log: seq<Event>) {
    forall k :: 0 <= k < |log| && log[k].Consulted? && log[k].invoked ==> log[k].dev == log[k].setBy
  }

  /** Up to the pending bit. */
  predicate SameSlot(x: Slot, y: Slot) {
    x.dev == y.dev && x.setBy == y.setBy && Enabled(x) == Enabled(y)
  }

  lemma ConsultOwn(s: State, out: Outcome)
    requires Own(s) && s.loc < s.count
    ensures Own(Consult(s, out))
    ensures RightDevices(s.log) ==> RightDevices(Consult(s, out).log)
  {
    var t := Consult(s, out);
    assert t.log == Leave(s).log;
    assert Invokes(s, s.slots[s.loc]) ==> Enabled(s.slots[s.loc]);
    assert forall i :: 0 <= i < s.count ==> SameSlot(t.slots[i], s.slots[i]);
  }

  lemma {:induction false} CompleteOwn(s: State, outs: seq<Outcome>)
    requires Own(s) && |outs| == s.count
    ensures Own(Complete(s, outs))
    ensures RightDevices(s.log) ==> RightDevices(Complete(s, outs).log)
    decreases s.count - s.loc
  {
    if s.loc < s.count {
      ConsultOwn(s, outs[s.csl]);
      if !Stops(s, outs[s.csl]) {
        CompleteOwn(Consult(s, outs[s.csl]), outs);
      }
    }
  }

  /** A step keeps this if and only if it does not enter a slot with somebody else's routine. */
  lemma OwnStep(s: State, a: Action)
    requires Inv(s) && May(s, a) && Own(s)
    ensures Inv(Step(s, a)) && (Own(Step(s, a)) <==> (a.Call? ==> Prepared(s)))
    ensures RightDevices(s.log) ==> RightDevices(Step(s, a).log)
  {
    StepKeeps(s, a);
    match a
    case Call(dev) =>
      var t := Step(s, a);
      SlotBelow(s);
      assert Above(t, t.loc) == Caller(s);
      assert forall i :: s.loc <= i < s.count ==> t.slots[i] == s.slots[i] && Above(t, i) == Above(s, i);
    case CompleteRequest(outs) => CompleteOwn(s, outs);
    case _ =>
  }

  /** Every call of the run enters a slot that the caller has prepared. */
  ghost predicate AllPrepared(s: State, actions: seq<Action>)
    requires Inv(s)
    decreases |actions|
  {
    actions == [] || !May(s, actions[0]) ||
    ((actions[0].Call? ==> Prepared(s)) && (StepKeeps(s, actions[0]); AllPrepared(Step(s, actions[0]), actions[1..])))
  }

  lemma {:induction false} ExecOwn(s: State, actions: seq<Action>, t: State)
    requires Inv(s) && Own(s) && RightDevices(s.log) && AllPrepared(s, actions) && Exec(s, actions) == Some(t)
    ensures Own(t) && RightDevices(t.log)
    decreases |actions|
  {
    if actions != [] {
      OwnStep(s, actions[0]);
      ExecOwn(Step(s, actions[0]), actions[1..], t);
    }
  }

  /** In every run in which drivers prepare the slots they enter, a completion routine is called with
      the device whose driver has set it. */
  lemma RoutineGetsItsDevice(n: nat, actions: seq<Action>, t: State)
    requires n >= 1 && Run(n, actions) == Some(t) && (FreshInv(n); AllPrepared(Fresh(n), actions))
    ensures RightDevices(t.log)
  {
    FreshInv(n);
    ExecOwn(Fresh(n), actions, t);
  }

  /** Otherwise it need not: a driver sets a routine, then passes the IRP down in its own slot, and the
      lower driver calls on without preparing the next one. The routine runs with the lower device. */
  lemma StaleRoutine(s: State, routine: nat, context: nat, d1: nat, d2: nat, actions: seq<Action>)
    requires Inv(s) && s.loc < s.count && 1 <= d2 < d1 < Holder(s) && Finished !in s.log && routine != 0
    requires actions == [SetRoutine(routine, context, true, true, true), Pass(d1), Call(d2)]
    ensures var r := Exec(s, actions);
            && r.Some? && r.value.loc == s.loc - 1
            && Leave(r.value).log == r.value.log + [Consulted(s.loc - 1, d1, Holder(s), true)]
  {
    SlotBelow(s);
    SetPrepares(s, actions[0]);
    var s1 := Step(s, actions[0]);
    var s2 := Step(s1, actions[1]);
    StepKeeps(s1, actions[1]);
    assert Holder(s2) == d1 && May(s2, actions[2]);
    ExecThree(s, actions, actions[0], actions[1], actions[2]);
  }

  lemma ExecCons(s: State, a: Action, rest: seq<Action>)
    requires Inv(s) && May(s, a)
    ensures Inv(Step(s, a)) && Exec(s, [a] + rest) == Exec(Step(s, a), rest)
    ensures AllPrepared(s, [a] + rest) <==> (a.Call? ==> Prepared(s)) && AllPrepared(Step(s, a), rest)
  {
    StepKeeps(s, a);
    assert ([a] + rest)[0] == a && ([a] + rest)[1..] == rest;
  }

  lemma ExecTwo(s: State, actions: seq<Action>, a1: Action, a2: Action)
    requires actions == [a1, a2]
    requires Inv(s) && May(s, a1) && Inv(Step(s, a1)) && May(Step(s, a1), a2)
    ensures Exec(s, actions) == Some(Step(Step(s, a1), a2))
    ensures AllPrepared(s, actions) <==> (a1.Call? ==> Prepared(s)) && (a2.Call? ==> Prepared(Step(s, a1)))
  {
    assert actions == [a1] + [a2] && [a2] == [a2] + [];
    ExecCons(s, a1, [a2]);
    ExecCons(Step(s, a1), a2, []);
  }

  lemma ExecThree(s: State, actions: seq<Action>, a1: Action, a2: Action, a3: Action)
    requires actions == [a1, a2, a3] && !a1.Call? && !a2.Call?
    requires Inv(s) && May(s, a1) && Inv(Step(s, a1)) && May(Step(s, a1), a2)
    requires Inv(Step(Step(s, a1), a2)) && May(Step(Step(s, a1), a2), a3)
    ensures Exec(s, actions) == Some(Step(Step(Step(s, a1), a2), a3))
    ensures AllPrepared(s, actions) <==> (a3.Call? ==> Prepared(Step(Step(s, a1), a2)))
  {
    assert actions == [a1] + [a2, a3];
    ExecCons(s, a1, [a2, a3]);
    ExecTwo(Step(s, a1), [a2, a3], a2, a3);
  }

  /** Such a holder: the top of a stack of n devices, once the IRP was sent to it. */
  lemma TopHolds(n: nat, actions: seq<Action>)
    requires n >= 1 && actions == [Call(n)]
    ensures var r := Run(n, actions);
            r.Some? && r.value.loc == n < r.value.count && Holder(r.value) == n && Finished !in r.value.log
  {
    FreshInv(n);
    assert actions == actions + [];
    ExecCons(Fresh(n), Call(n), []);
  }

  /** IoSyncForwardIrp up to the call: copy, set the routine for all outcomes with the address of an
      event as its context, call. */
  function SyncForward(s: State, dev: nat, routine: nat, event: nat): State
    requires InBounds(s) && 0 < s.loc < s.count
  {
    CallDriver(SetCompletionRoutine(CopyToNext(s), routine, event, true, true, true), dev)
  }

  function AsyncForward(s: State, dev: nat): State
    requires InBounds(s) && 0 < s.loc < s.count
  {
    CallDriver(CopyToNext(s), dev)
  }

  lemma CopyPrepares(s: State)
    requires Inv(s) && May(s, CopyNext)
    ensures var t := Step(s, CopyNext);
            Inv(t) && t.loc == s.loc && t.count == s.count && t.log == s.log && Holder(t) == Holder(s) && Prepared(t)
  {
    SlotBelow(s);
    StepKeeps(s, CopyNext);
  }

  lemma SetPrepares(s: State, a: Action)
    requires Inv(s) && May(s, a) && a.SetRoutine?
    ensures var t := Step(s, a);
            Inv(t) && t.loc == s.loc && t.count == s.count && t.log == s.log && Holder(t) == Holder(s) && Prepared(t)
  {
    SlotBelow(s);
    StepKeeps(s, a);
  }

  /** Both are runs of any holder to any device below it, and prepare the slot they enter. */
  lemma SyncForwardIsRun(s: State, dev: nat, routine: nat, event: nat, actions: seq<Action>)
    requires Inv(s) && s.loc < s.count && 1 <= dev < Holder(s) && Finished !in s.log
    requires actions == [CopyNext, SetRoutine(routine, event, true, true, true), Call(dev)]
    ensures 0 < s.loc && AllPrepared(s, actions)
    ensures Exec(s, actions) == Some(SyncForward(s, dev, routine, event))
  {
    SlotBelow(s);
    CopyPrepares(s);
    SetPrepares(Step(s, CopyNext), actions[1]);
    ExecThree(s, actions, CopyNext, actions[1], actions[2]);
  }

  lemma AsyncForwardIsRun(s: State, dev: nat, actions: seq<Action>)
    requires Inv(s) && s.loc < s.count && 1 <= dev < Holder(s) && Finished !in s.log
    requires actions == [CopyNext, Call(dev)]
    ensures 0 < s.loc && AllPrepared(s, actions)
    ensures Exec(s, actions) == Some(AsyncForward(s, dev))
  {
    SlotBelow(s);
    CopyPrepares(s);
    ExecTwo(s, actions, CopyNext, actions[1]);
  }

  // ------------------------------------------------------------- one IofCompleteRequest

  /** From slot i on, the events of one IofCompleteRequest, up to slot j and without the final
      stage. */
  predicate Climb(events: seq<Event>, i: int, j: int) {
    |events| == j - i && forall k :: 0 <= k < |events| ==> IsConsult(events[k], i + k)
  }

  /** From s to t the slots of these events are consulted; done tells whether the final stage followed.
      It did not exactly if the last routine called kept the IRP, and no other routine did. */
  ghost predicate Climbed(s: State, t: State, outs: seq<Outcome>, events: seq<Event>, done: bool) {
    && InBounds(t) && s.loc <= t.loc && t.count == s.count == |outs|
    && Climb(events, s.loc, t.loc) && 0 <= s.loc
    && t.log == s.log + events + (if done then [Finished] else [])
    && (done ==> t.loc == t.count)
    && (!done ==> events != [] && events[|events| - 1].invoked && outs[t.loc - 1].more)
    && (forall k :: 0 <= k < |events| && events[k].invoked && (done || k < |events| - 1) ==>
          !outs[s.loc + k].more)
  }

  lemma ClimbedCons(s: State, u: State, t: State, outs: seq<Outcome>, e: Event, rest: seq<Event>, done: bool)
    requires 0 <= s.loc && u.loc == s.loc + 1 && u.count == s.count && u.log == s.log + [e]
    requires Climbed(u, t, outs, rest, done)
    requires IsConsult(e, s.loc) && (e.invoked ==> !outs[s.loc].more)
    ensures Climbed(s, t, outs, [e] + rest, done)
  {
    var events, last := [e] + rest, if done then [Finished] else [];
    assert s.log + [e] + rest + last == s.log + events + last;
    assert forall k :: 1 <= k < |events| ==> events[k] == rest[k - 1];
  }

  /** One IofCompleteRequest consults the slots from the current one upwards, skipping none; it ends
      in the final stage unless the last routine called kept the IRP. */
  lemma {:induction false} CompleteClimbs(s: State, outs: seq<Outcome>)
    returns (events: seq<Event>, done: bool)
    requires InBounds(s) && |outs| == s.count
    ensures Climbed(s, Complete(s, outs), outs, events, done)
    decreases s.count - s.loc
  {
    if s.loc >= s.count {
      events, done := [], true;
      assert s.log + [] == s.log;
    } else {
      var out := outs[s.csl];
      var u, e := Consult(s, out), Leave(s).log[|s.log|];
      assert u.log == s.log + [e];
      if Stops(s, out) {
        events, done := [e], false;
        assert s.log + [e] + [] == s.log + [e];
      } else {
        var rest;
        rest, done := CompleteClimbs(u, outs);
        events := [e] + rest;
        ClimbedCons(s, u, Complete(u, outs), outs, e, rest, done);
      }
    }
  }

  /** The pending mark of a slot survives consultations of higher slots, and pending_returned stays
      set. */
  lemma {:induction false} PendingStays(s: State, outs: seq<Outcome>, i: int)
    requires InBounds(s) && |outs| == s.count && 0 <= i <= s.loc && i < s.count && s.slots[i].pending
    ensures |Complete(s, outs).slots| == s.count && Complete(s, outs).slots[i].pending
    ensures s.pendingReturned ==> Complete(s, outs).pendingReturned
    decreases s.count - s.loc
  {
    if s.loc < s.count && !Stops(s, outs[s.csl]) {
      PendingStays(Consult(s, outs[s.csl]), outs, i);
    }
  }

  /** A pending mark in the current slot reaches every higher slot up to which no completion routine
      is called, whether none is set or the status is not one it was set for. */
  lemma {:induction false} PendingPropagates(s: State, outs: seq<Outcome>, i: int)
    requires InBounds(s) && |outs| == s.count && s.loc < i < s.count
    requires s.pendingReturned || s.slots[s.csl].pending
    requires forall k :: s.loc <= k < i ==> !Invokes(s, s.slots[k])
    ensures Complete(s, outs).loc >= i && Complete(s, outs).pendingReturned
    ensures |Complete(s, outs).slots| == s.count && Complete(s, outs).slots[i].pending
    decreases i - s.loc
  {
    var u := Consult(s, outs[s.csl]);
    assert !Invokes(s, s.slots[s.loc]);
    if u.loc == i {
      PendingStays(u, outs, i);
      var _, _ := CompleteClimbs(u, outs);
    } else {
      assert forall k :: u.loc <= k < i ==> Invokes(u, u.slots[k]) == Invokes(s, s.slots[k]);
      PendingPropagates(u, outs, i);
    }
  }

  /** What the forwards leave in the slot they enter: the request, and the routine for every outcome or
      none that could be called. The other slots stay. */
  lemma ForwardedSlot(s: State, dev: nat, routine: nat, event: nat)
    requires InBounds(s) && 0 < s.loc < s.count
    ensures var t, u := SyncForward(s, dev, routine, event), AsyncForward(s, dev);
            && t.loc == t.csl == u.loc == u.csl == s.loc - 1 && |t.slots| == |u.slots| == s.count
            && t.slots[t.csl] == Slot(dev, s.slots[s.csl].request, routine, event, true, true, true, false, Caller(s))
            && u.slots[u.csl].request == s.slots[s.csl].request && !Enabled(u.slots[u.csl])
            && forall i :: 0 <= i < s.count && i != t.csl ==> t.slots[i] == u.slots[i] == s.slots[i]
  {
  }

  /** The routine of IoSyncForwardIrp: called whatever the status, and keeping the IRP. */
  predicate SyncSlot(x: Slot, out: Outcome) {
    x.routine != 0 && x.onSuccess && x.onError && out.more
  }

  /** Completion from any lower slot goes no further than a slot that IoSyncForwardIrp prepared, so
      the IRP comes back to its sender and is not finished. */
  lemma {:induction false} SyncForwardRegains(s: State, outs: seq<Outcome>, i: int)
    requires InBounds(s) && |outs| == s.count && s.loc <= i < s.count
    requires SyncSlot(s.slots[i], outs[i]) && Finished !in s.log
    ensures Complete(s, outs).loc <= i + 1 && Finished !in Complete(s, outs).log
    decreases i - s.loc
  {
    if s.loc < i && !Stops(s, outs[s.csl]) {
      SyncForwardRegains(Consult(s, outs[s.csl]), outs, i);
    }
  }

  // ------------------------------------------------------------------------ the object

  class Irp {
    const slots: array<Slot>
    const stackCount: nat
    var currentLocation: int
    var csl: int
    var pendingReturned: bool
    var status: int
    var cancel: bool
    ghost var log: seq<Event>

    ghost function View(): State
      reads this, slots
    {
      State(stackCount, currentLocation, csl, slots[..], pendingReturned, status, cancel, log)
    }

    /** IoAllocateIrp and IoInitializeIrp; stack_count is a signed char. */
    constructor (deviceStackCount: nat)
      requires deviceStackCount < 127
      ensures View() == Fresh(deviceStackCount) && fresh(slots)
    {
      var n := deviceStackCount + 1;
      slots := new Slot[n](_ => BLANK);
      stackCount, currentLocation, csl := n, n, n;
      pendingReturned, status, cancel, log := false, SUCCESS, false, [];
      new;
      assert slots[..] == seq(n, _ => BLANK);
    }

    method IoSetNextIrpStackLocation()
      modifies this
      ensures View() == old(View()).(loc := old(currentLocation) - 1, csl := old(csl) - 1)
    {
      currentLocation := currentLocation - 1;
      csl := csl - 1;
    }

    method IoSkipCurrentIrpStackLocation()
      modifies this
      ensures View() == old(View()).(loc := old(currentLocation) + 1, csl := old(csl) + 1)
    {
      currentLocation := currentLocation + 1;
      csl := csl + 1;
    }

    method IoCopyCurrentIrpStackLocationToNext()
      requires InBounds(View()) && 0 < currentLocation < stackCount
      modifies slots
      ensures View() == CopyToNext(old(View()))
    {
      var next := csl - 1;
      slots[next] := slots[csl].(routine := slots[next].routine, context := slots[next].context, setBy := slots[next].setBy);
      slots[next] := slots[next].(onSuccess := false, onError := false, onCancel := false, pending := false);
    }

    method IoSetCompletionRoutine(routine: nat, context: nat, success: bool, error: bool, cancelled: bool)
      requires InBounds(View()) && 0 < currentLocation
      modifies slots
      ensures View() == SetCompletionRoutine(old(View()), routine, context, success, error, cancelled)
    {
      var next := csl - 1;
      slots[next] := slots[next].(routine := routine, context := context);
      slots[next] := slots[next].(setBy := if currentLocation < stackCount then slots[csl].dev else 0);
      slots[next] := slots[next].(onSuccess := success, onError := error, onCancel := cancelled, pending := false);
    }

    method IoMarkIrpPending()
      requires InBounds(View()) && currentLocation < stackCount
      modifies slots
      ensures View() == Mark(old(View()))
    {
      slots[csl] := slots[csl].(pending := true);
    }

    /** Up to the call of the dispatch routine. */
    method IofCallDriver(dev: nat) returns (ok: bool)
      requires InBounds(View())
      modifies this, slots
      ensures ok <==> old(currentLocation) > 0
      ensures View() == CallDriver(old(View()), dev)
    {
      if currentLocation <= 0 {
        return false;
      }
      IoSetNextIrpStackLocation();
      slots[csl] := slots[csl].(dev := dev);
      log := log + [Called(csl, dev)];
      ok := true;
    }

    /** The first half of a turn of the loop of IofCompleteRequest, at slot irpSl, up to the test for
        a completion routine. */
    method LeaveSlot(irpSl: int) returns (invoked: bool)
      requires InBounds(View()) && currentLocation < stackCount && irpSl == csl
      modifies this
      ensures View() == Leave(old(View())) && invoked == Invokes(old(View()), old(slots[irpSl]))
    {
      var x := slots[irpSl];
      if x.pending {
        pendingReturned := true;
      }
      IoSkipCurrentIrpStackLocation();
      var dev := if currentLocation < stackCount then slots[csl].dev else 0;
      invoked :=
        x.routine != 0 &&
        ((status == SUCCESS && x.onSuccess) || (status != SUCCESS && x.onError) || (cancel && x.onCancel));
      log := log + [Consulted(irpSl, dev, x.setBy, invoked)];
    }

    /** One turn of the loop. */
    method ConsultSlot(irpSl: int, out: Outcome) returns (stop: bool)
      requires InBounds(View()) && currentLocation < stackCount && irpSl == csl
      modifies this, slots
      ensures View() == Consult(old(View()), out) && stop == Stops(old(View()), out)
    {
      var invoked := LeaveSlot(irpSl);
      var mark := if invoked then out.mark else pendingReturned;
      if mark && currentLocation < stackCount {
        IoMarkIrpPending();
      }
      if invoked {
        status := out.status;
      }
      stop := invoked && out.more;
    }

    method IofCompleteRequest(outs: seq<Outcome>)
      requires InBounds(View()) && |outs| == stackCount
      modifies this, slots
      ensures View() == Complete(old(View()), outs)
    {
      var irpSl := csl;
      while currentLocation < stackCount
        invariant InBounds(View()) && irpSl == csl
        invariant Complete(View(), outs) == Complete(old(View()), outs)
        decreases stackCount - currentLocation
      {
        var stop := ConsultSlot(irpSl, outs[irpSl]);
        if stop {
          return;
        }
        irpSl := irpSl + 1;
      }
      log := log + [Finished];
    }

    /** IoPassIrpDown. */
    method IoPassIrpDown(dev: nat) returns (ok: bool)
      requires InBounds(View()) && currentLocation < stackCount
      modifies this, slots
      ensures ok && View() == PassDown(old(View()), dev)
    {
      IoSkipCurrentIrpStackLocation();
      ghost var before := log;
      ok := IofCallDriver(dev);
      log := before + [Passed(csl, dev)];
    }

    /** IoSyncForwardIrp, up to the call; routine is IoIrpSyncComplete. */
    method IoSyncForwardIrp(dev: nat, routine: nat, event: nat) returns (ok: bool)
      requires InBounds(View()) && 0 < currentLocation < stackCount
      modifies this, slots
      ensures ok && View() == SyncForward(old(View()), dev, routine, event)
    {
      IoCopyCurrentIrpStackLocationToNext();
      IoSetCompletionRoutine(routine, event, true, true, true);
      ok := IofCallDriver(dev);
    }

    /** IoAsyncForwardIrp, up to the call. */
    method IoAsyncForwardIrp(dev: nat) returns (ok: bool)
      requires InBounds(View()) && 0 < currentLocation < stackCount
      modifies this, slots
      ensures ok && View() == AsyncForward(old(View()), dev)
    {
      IoCopyCurrentIrpStackLocationToNext();
      ok := IofCallDriver(dev);
    }
  }
}
