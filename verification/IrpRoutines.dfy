/** Which completion routines IofCompleteRequest calls, from the arguments of IoSetCompletionRoutine to
    the consultation of the slot. */
module IrpRoutines {
  import opened Basics
  import opened IrpStack

  /** The io_status after these consultations: a routine that was called has set it. */
  function StatusAfter(status: int, events: seq<Event>, outs: seq<Outcome>): int
    decreases |events|
  {
    if events == [] then status
    else
      var e := events[0];
      StatusAfter(if e.Consulted? && e.invoked && 0 <= e.slot < |outs| then outs[e.slot].status else status,
                  events[1..], outs)
  }

  /** The routine and flags in a slot. */
  predicate Says(x: Slot, routine: nat, success: bool, error: bool, cancel: bool) {
    x.routine == routine && x.onSuccess == success && x.onError == error && x.onCancel == cancel
  }

  predicate SameRoutine(x: Slot, y: Slot) {
    Says(x, y.routine, y.onSuccess, y.onError, y.onCancel)
  }

  lemma ConsultKeepsRoutines(s: State, out: Outcome, i: int)
    requires InBounds(s) && s.loc < s.count && 0 <= i < s.count
    ensures InBounds(Consult(s, out)) && SameRoutine(Consult(s, out).slots[i], s.slots[i])
    ensures Consult(s, out).cancel == s.cancel && Consult(s, out).log == Leave(s).log
  {
  }

  lemma {:induction false} CompleteKeepsRoutines(s: State, outs: seq<Outcome>, i: int)
    requires InBounds(s) && |outs| == s.count && 0 <= i < s.count
    ensures var t := Complete(s, outs);
            |t.slots| == s.count && SameRoutine(t.slots[i], s.slots[i]) && s.log <= t.log
    decreases s.count - s.loc
  {
    if s.loc < s.count {
      var u := Consult(s, outs[s.csl]);
      ConsultKeepsRoutines(s, outs[s.csl], i);
      assert s.log <= u.log;
      if !Stops(s, outs[s.csl]) {
        CompleteKeepsRoutines(u, outs, i);
      }
    }
  }

  /** Slot i is consulted with the io_status that the routines below have left. */
  lemma {:induction false} ConsultedWith(s: State, outs: seq<Outcome>, i: int, t: State, at: int)
    requires InBounds(s) && |outs| == s.count && t == Complete(s, outs)
    requires s.loc <= i < s.count && i < t.loc && at == |s.log| + i - s.loc
    ensures at < |t.log| && IsConsult(t.log[at], i)
    ensures var x, st := s.slots[i], StatusAfter(s.status, t.log[|s.log|..at], outs);
            t.log[at].invoked
            <==> x.routine != 0 && ((st == 0 && x.onSuccess) || (st != 0 && x.onError) || (s.cancel && x.onCancel))
    decreases i - s.loc
  {
    var out := outs[s.csl];
    var u := Consult(s, out);
    ConsultKeepsRoutines(s, out, i);
    if !Stops(s, out) {
      CompleteKeepsRoutines(u, outs, i);
    }
    assert u.log <= t.log && t.log[|s.log|] == u.log[|s.log|];
    if i == s.loc {
      assert t.log[|s.log|..at] == [];
    } else {
      ConsultedWith(u, outs, i, t, at);
      var events := t.log[|s.log|..at];
      assert events[0] == u.log[|s.log|] && events[1..] == t.log[|u.log|..at];
    }
  }

  /** No consultation of slot i from place n of the log on. */
  ghost predicate Unconsulted(log: seq<Event>, n: nat, i: int) {
    forall k :: n <= k < |log| ==> !IsConsult(log[k], i)
  }

  lemma StepGrows(s: State, a: Action)
    requires Inv(s) && May(s, a)
    ensures s.log <= Step(s, a).log
  {
    if a.CompleteRequest? {
      CompleteKeepsRoutines(s, a.outs, 0);
    }
  }

  lemma {:induction false} ExecGrows(s: State, actions: seq<Action>, t: State)
    requires Inv(s) && Exec(s, actions) == Some(t)
    ensures s.log <= t.log
    decreases |actions|
  {
    if actions != [] {
      StepGrows(s, actions[0]);
      StepKeeps(s, actions[0]);
      ExecGrows(Step(s, actions[0]), actions[1..], t);
    }
  }

  /** A slot in use keeps its routine until it is consulted. */
  lemma StepKeepsSlot(s: State, a: Action, i: int)
    requires Inv(s) && May(s, a) && s.loc <= i < s.count
    requires Unconsulted(Step(s, a).log, |s.log|, i)
    ensures Step(s, a).loc <= i && |Step(s, a).slots| == s.count && SameRoutine(Step(s, a).slots[i], s.slots[i])
  {
    if a.CompleteRequest? {
      CompleteKeepsRoutines(s, a.outs, i);
      var t := Complete(s, a.outs);
      if t.loc > i {
        ConsultedWith(s, a.outs, i, t, |s.log| + i - s.loc);
        assert false;
      }
    } else if a.CopyNext? || a.SetRoutine? {
      SlotBelow(s);
    }
  }

  lemma {:induction false} ExecKeepsSlot(s: State, actions: seq<Action>, t: State, i: int)
    requires Inv(s) && Exec(s, actions) == Some(t) && s.loc <= i < s.count
    requires Unconsulted(t.log, |s.log|, i)
    ensures t.loc <= i && |t.slots| == s.count && SameRoutine(t.slots[i], s.slots[i])
    decreases |actions|
  {
    if actions != [] {
      var u := Step(s, actions[0]);
      StepKeeps(s, actions[0]);
      StepGrows(s, actions[0]);
      ExecGrows(u, actions[1..], t);
      assert forall k :: |s.log| <= k < |u.log| ==> u.log[k] == t.log[k];
      StepKeepsSlot(s, actions[0], i);
      ExecKeepsSlot(u, actions[1..], t, i);
    }
  }

  /** Slot i was entered at v; it is consulted, for the first time since, from u. */
  lemma CalledFrom(v: State, more: seq<Action>, u: State, i: int, outs: seq<Outcome>, t: State, at: int)
    requires Inv(v) && v.loc <= i < v.count && Exec(v, more) == Some(u) && Unconsulted(u.log, |v.log|, i)
    requires |outs| == u.count && t == Complete(u, outs) && i < t.loc && at == |u.log| + i - u.loc
    ensures |u.log| <= at < |t.log| && IsConsult(t.log[at], i)
    ensures var x, st := v.slots[i], StatusAfter(u.status, t.log[|u.log|..at], outs);
            t.log[at].invoked
            <==> x.routine != 0 && ((st == 0 && x.onSuccess) || (st != 0 && x.onError) || (u.cancel && x.onCancel))
  {
    ExecKeepsSlot(v, more, u, i);
    ConsultedWith(u, outs, i, t, at);
  }

  /** The IRP as a holder sends it down, with a routine for the given outcomes. */
  function Sent(s: State, routine: nat, context: nat, success: bool, error: bool, cancel: bool, dev: nat): State
    requires InBounds(s) && 0 < s.loc
  {
    CallDriver(SetCompletionRoutine(s, routine, context, success, error, cancel), dev)
  }

  /** This is a run of any holder with a device below. */
  lemma SentIsRun(s: State, routine: nat, context: nat, success: bool, error: bool, cancel: bool, dev: nat,
                  actions: seq<Action>)
    requires Inv(s) && 1 <= dev < Holder(s) && Finished !in s.log
    requires actions == [SetRoutine(routine, context, success, error, cancel), Call(dev)]
    ensures 0 < s.loc && Exec(s, actions) == Some(Sent(s, routine, context, success, error, cancel, dev))
  {
    SlotBelow(s);
    SetPrepares(s, actions[0]);
    ExecTwo(s, actions, actions[0], actions[1]);
  }

  lemma SentSlot(s: State, routine: nat, context: nat, success: bool, error: bool, cancel: bool, dev: nat, v: State)
    requires InBounds(s) && 0 < s.loc && v == Sent(s, routine, context, success, error, cancel, dev)
    ensures v.loc == s.loc - 1 && v.count == s.count == |v.slots| && |v.log| == |s.log| + 1
    ensures Says(v.slots[v.loc], routine, success, error, cancel)
  {
  }

  /** A holder sets a completion routine and sends the IRP down; after any run in which that slot has not
      been consulted, an IofCompleteRequest that consults it calls the routine if and only if it was set
      for what has happened: success, an error, or cancellation. st is the io_status at that moment. */
  lemma CalledAsSet(s: State, routine: nat, context: nat, success: bool, error: bool, cancel: bool, dev: nat,
                    v: State, more: seq<Action>, u: State, outs: seq<Outcome>, t: State, at: int)
    requires InBounds(s) && 0 < s.loc && v == Sent(s, routine, context, success, error, cancel, dev) && Inv(v)
    requires Exec(v, more) == Some(u) && Unconsulted(u.log, |v.log|, s.loc - 1)
    requires |outs| == u.count && t == Complete(u, outs) && s.loc - 1 < t.loc && at == |u.log| + s.loc - 1 - u.loc
    ensures |u.log| <= at < |t.log| && IsConsult(t.log[at], s.loc - 1)
    ensures var st := StatusAfter(u.status, t.log[|u.log|..at], outs);
            t.log[at].invoked
            <==> routine != 0 && ((st == 0 && success) || (st != 0 && error) || (u.cancel && cancel))
  {
    SentSlot(s, routine, context, success, error, cancel, dev, v);
    CalledFrom(v, more, u, s.loc - 1, outs, t, at);
  }

  /** A slot that IoAsyncForwardIrp has entered calls nothing. */
  lemma AsyncCallsNothing(s: State, dev: nat, v: State, more: seq<Action>, u: State, outs: seq<Outcome>, t: State, at: int)
    requires InBounds(s) && 0 < s.loc < s.count && v == AsyncForward(s, dev) && Inv(v)
    requires Exec(v, more) == Some(u) && Unconsulted(u.log, |v.log|, s.loc - 1)
    requires |outs| == u.count && t == Complete(u, outs) && s.loc - 1 < t.loc && at == |u.log| + s.loc - 1 - u.loc
    ensures |u.log| <= at < |t.log| && IsConsult(t.log[at], s.loc - 1) && !t.log[at].invoked
  {
    AsyncSlot(s, dev, v);
    CalledFrom(v, more, u, s.loc - 1, outs, t, at);
  }

  lemma AsyncSlot(s: State, dev: nat, v: State)
    requires InBounds(s) && 0 < s.loc < s.count && v == AsyncForward(s, dev)
    ensures v.loc == s.loc - 1 && v.count == s.count == |v.slots|
    ensures Says(v.slots[v.loc], v.slots[v.loc].routine, false, false, false)
  {
  }

  /** A routine that marks the IRP pending marks it in the slot above its own. */
  lemma RoutineMarks(s: State, out: Outcome)
    requires InBounds(s) && s.loc + 1 < s.count && Says(s.slots[s.loc], s.slots[s.loc].routine, true, true, true)
    requires s.slots[s.loc].routine != 0
    ensures Consult(s, out).slots[s.loc + 1].pending <==> out.mark || s.slots[s.loc + 1].pending
    ensures Consult(s, out).status == out.status
  {
  }
}
