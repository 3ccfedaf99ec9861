/** The NDIS read/write lock (ndis.c): acquisition by compare-and-swap, release in separate test and
    update steps, for any number of threads. Each action is one atomic access to `count`. */
module RwLock {
  import opened Basics

  type Tid = nat

  datatype Role = Reader | Writer

  /** Where a thread is. ReadSeen carries the count it read before its cmpxchg; the three release
      states come after `count > 0` was seen true, after it was seen false, and after
      `count == -1` was seen true. */
  datatype Pc =
    | Out
    | WantWrite
    | WantRead
    | ReadSeen(seen: int)
    | Holds(role: Role)
    | Decrement(role: Role)
    | SecondTest(role: Role)
    | Clear(role: Role)

  datatype State = State(count: int, pcs: map<Tid, Pc>)

  datatype Action =
    | Arrive(t: Tid, role: Role)
    | CasWrite(t: Tid)
    | ReadCount(t: Tid)
    | CasRead(t: Tid)
    | Release(t: Tid)        // `if (rw_lock->count > 0)`
    | DoDecrement(t: Tid)    // pre_atomic_add(count, -1)
    | TestMinusOne(t: Tid)   // `else if (rw_lock->count == -1)`
    | DoClear(t: Tid)        // count = 0

  function PcOf(s: State, t: Tid): Pc {
    if t in s.pcs then s.pcs[t] else Out
  }

  predicate Enabled(s: State, a: Action) {
    match a
    case Arrive(t, _) => PcOf(s, t).Out?
    case CasWrite(t) => PcOf(s, t).WantWrite?
    case ReadCount(t) => PcOf(s, t).WantRead?
    case CasRead(t) => PcOf(s, t).ReadSeen?
    case Release(t) => PcOf(s, t).Holds?
    case DoDecrement(t) => PcOf(s, t).Decrement?
    case TestMinusOne(t) => PcOf(s, t).SecondTest?
    case DoClear(t) => PcOf(s, t).Clear?
  }

  function Go(s: State, t: Tid, pc: Pc, count: int): State {
    State(count, s.pcs[t := pc])
  }

  function Step(s: State, a: Action): State
    requires Enabled(s, a)
  {
    var c := s.count;
    match a
    case Arrive(t, role) => Go(s, t, if role.Writer? then WantWrite else WantRead, c)
    case CasWrite(t) => if c == 0 then Go(s, t, Holds(Writer), -1) else s
    case ReadCount(t) => if c < 0 then s else Go(s, t, ReadSeen(c), c)
    case CasRead(t) =>
      var seen := PcOf(s, t).seen;
      if c == seen then Go(s, t, Holds(Reader), seen + 1) else Go(s, t, WantRead, c)
    case Release(t) =>
      var role := PcOf(s, t).role;
      Go(s, t, if c > 0 then Decrement(role) else SecondTest(role), c)
    case DoDecrement(t) => Go(s, t, Out, c - 1)
    case TestMinusOne(t) =>
      if c == -1 then Go(s, t, Clear(PcOf(s, t).role), c)
      else Go(s, t, Out, c)   // the warning: the lock stays as it is
    case DoClear(t) => Go(s, t, Out, 0)
  }

  /** Acquired and not yet given up. */
  predicate Inside(pc: Pc, role: Role) {
    (pc.Holds? || pc.Decrement? || pc.SecondTest? || pc.Clear?) && pc.role == role
  }

  function Having(s: State, role: Role): set<Tid> {
    set t | t in s.pcs && Inside(s.pcs[t], role)
  }

  /** Readers only ever decrement and writers only ever clear. */
  predicate PcInv(pc: Pc) {
    && (pc.ReadSeen? ==> pc.seen >= 0)
    && (pc.Decrement? ==> pc.role == Reader)
    && (pc.SecondTest? || pc.Clear? ==> pc.role == Writer)
  }

  predicate Inv(s: State) {
    && (forall t :: t in s.pcs ==> PcInv(s.pcs[t]))
    && ((s.count == -1 && |Having(s, Writer)| == 1 && Having(s, Reader) == {})
        || (s.count == |Having(s, Reader)| && Having(s, Writer) == {}))
  }

  lemma HavingAfter(s: State, t: Tid, pc: Pc, count: int, role: Role)
    ensures Having(Go(s, t, pc, count), role)
         == if Inside(pc, role) then Having(s, role) + {t} else Having(s, role) - {t}
  {
  }

  lemma SoleMember(q: set<Tid>, t: Tid)
    requires |q| == 1 && t in q
    ensures q == {t}
  {
    assert |q - {t}| == 0;
  }

  /** A holder of the lock, seen from the count. */
  lemma HolderSees(s: State, t: Tid)
    requires Inv(s) && t in s.pcs
    ensures Inside(s.pcs[t], Writer) ==> s.count == -1 && Having(s, Writer) == {t}
    ensures Inside(s.pcs[t], Reader) ==> s.count > 0
  {
    if Inside(s.pcs[t], Writer) {
      assert t in Having(s, Writer);
      SoleMember(Having(s, Writer), t);
    } else if Inside(s.pcs[t], Reader) {
      assert t in Having(s, Reader);
    }
  }

  /** A step that neither enters nor leaves keeps the count. */
  lemma Neutral(s: State, t: Tid, pc: Pc)
    requires Inv(s) && PcInv(pc)
    requires forall role :: Inside(pc, role) == Inside(PcOf(s, t), role)
    ensures Inv(Go(s, t, pc, s.count))
  {
    var s' := Go(s, t, pc, s.count);
    assert Having(s', Reader) == Having(s, Reader) && Having(s', Writer) == Having(s, Writer);
  }

  lemma ReaderMoves(s: State, t: Tid, pc: Pc)
    requires Inv(s) && PcInv(pc) && s.count >= 0 && !Inside(PcOf(s, t), Writer) && !Inside(pc, Writer)
    requires Inside(pc, Reader) != Inside(PcOf(s, t), Reader)
    ensures Inv(Go(s, t, pc, if Inside(pc, Reader) then s.count + 1 else s.count - 1))
  {
    var s' := Go(s, t, pc, if Inside(pc, Reader) then s.count + 1 else s.count - 1);
    assert Having(s', Writer) == {};
    assert Having(s', Reader) == if Inside(pc, Reader) then Having(s, Reader) + {t} else Having(s, Reader) - {t};
    assert t in Having(s, Reader) <==> Inside(PcOf(s, t), Reader);
  }

  lemma WriterEnters(s: State, t: Tid)
    requires Inv(s) && s.count == 0
    ensures Inv(Go(s, t, Holds(Writer), -1))
  {
    var s' := Go(s, t, Holds(Writer), -1);
    assert Having(s', Writer) == {t} && Having(s', Reader) == {};
  }

  lemma WriterLeaves(s: State, t: Tid)
    requires Inv(s) && Inside(PcOf(s, t), Writer)
    ensures Inv(Go(s, t, Out, 0))
  {
    HolderSees(s, t);
    HavingAfter(s, t, Out, 0, Writer);
    HavingAfter(s, t, Out, 0, Reader);
  }

  lemma StepKeeps(s: State, a: Action)
    requires Inv(s) && Enabled(s, a)
    ensures Inv(Step(s, a))
  {
    var t := a.t;
    if t in s.pcs {
      HolderSees(s, t);
    }
    match a
    case CasWrite(_) =>
      if s.count == 0 {
        WriterEnters(s, t);
      }
    case CasRead(_) =>
      if s.count == PcOf(s, t).seen {
        ReaderMoves(s, t, Holds(Reader));
      } else {
        Neutral(s, t, WantRead);
      }
    case DoDecrement(_) => ReaderMoves(s, t, Out);
    case DoClear(_) => WriterLeaves(s, t);
    case Arrive(_, role) => Neutral(s, t, if role.Writer? then WantWrite else WantRead);
    case ReadCount(_) =>
      if s.count >= 0 {
        Neutral(s, t, ReadSeen(s.count));
      }
    case Release(_) => Neutral(s, t, PcOf(Step(s, a), t));
    case TestMinusOne(_) => Neutral(s, t, PcOf(Step(s, a), t));
  }

  // ------------------------------------------------------------------------- runs

  const INITIAL: State := State(0, map[])

  function Exec(s: State, actions: seq<Action>): (r: Option<State>)
    requires Inv(s)
    ensures r.Some? ==> Inv(r.value)
    decreases |actions|
  {
    if actions == [] then Some(s)
    else if !Enabled(s, actions[0]) then None
    else
      StepKeeps(s, actions[0]);
      Exec(Step(s, actions[0]), actions[1..])
  }

  // -------------------------------------------------------------- what was asked for

  /** From the return of the acquisition to the update of the release. */
  predicate InLock(pc: Pc) {
    pc.Holds? || pc.Decrement? || pc.SecondTest? || pc.Clear?
  }

  /** The role that each thread asked for last, after these actions. */
  function Asked(asks: map<Tid, Role>, actions: seq<Action>): map<Tid, Role>
    decreases |actions|
  {
    if actions == [] then asks
    else Asked(if actions[0].Arrive? then asks[actions[0].t := actions[0].role] else asks, actions[1..])
  }

  /** The threads in the lock that had asked for this role. */
  function InsideAs(s: State, asks: map<Tid, Role>, role: Role): set<Tid> {
    set t | t in s.pcs && InLock(s.pcs[t]) && t in asks && asks[t] == role
  }

  function RoleOf(pc: Pc): Role
    requires !pc.Out?
  {
    match pc
    case WantWrite => Writer
    case WantRead => Reader
    case ReadSeen(_) => Reader
    case Holds(role) => role
    case Decrement(role) => role
    case SecondTest(role) => role
    case Clear(role) => role
  }

  predicate AsAsked(s: State, asks: map<Tid, Role>) {
    forall t :: t in s.pcs && !s.pcs[t].Out? ==> t in asks && RoleOf(s.pcs[t]) == asks[t]
  }

  lemma StepAsAsked(s: State, asks: map<Tid, Role>, a: Action)
    requires AsAsked(s, asks) && Enabled(s, a)
    ensures AsAsked(Step(s, a), if a.Arrive? then asks[a.t := a.role] else asks)
  {
    assert PcOf(Step(s, a), a.t).Out? || a.Arrive? || RoleOf(PcOf(Step(s, a), a.t)) == RoleOf(PcOf(s, a.t));
  }

  lemma {:induction false} ExecAsAsked(s: State, asks: map<Tid, Role>, actions: seq<Action>, t: State)
    requires Inv(s) && AsAsked(s, asks) && Exec(s, actions) == Some(t)
    ensures AsAsked(t, Asked(asks, actions))
    decreases |actions|
  {
    if actions != [] {
      var a := actions[0];
      StepKeeps(s, a);
      var asks' := if a.Arrive? then asks[a.t := a.role] else asks;
      StepAsAsked(s, asks, a);
      ExecAsAsked(Step(s, a), asks', actions[1..], t);
    }
  }

  lemma InsideAsIs(s: State, asks: map<Tid, Role>, role: Role)
    requires AsAsked(s, asks)
    ensures InsideAs(s, asks, role) == Having(s, role)
  {
  }

  /** In every run the count is -1 with exactly one thread in the lock, which had asked to write, or it
      is the number of threads in the lock, all of which had asked to read. */
  lemma CountIsRight(actions: seq<Action>, s: State)
    requires Exec(INITIAL, actions) == Some(s)
    ensures var asks := Asked(map[], actions);
            var readers, writers := InsideAs(s, asks, Reader), InsideAs(s, asks, Writer);
            && (forall t :: t in s.pcs && InLock(s.pcs[t]) ==> t in readers || t in writers)
            && (s.count == -1 <==> writers != {})
            && (writers != {} ==> |writers| == 1 && readers == {})
            && (writers == {} ==> s.count == |readers|)
  {
    ExecAsAsked(INITIAL, map[], actions, s);
    InsideAsIs(s, Asked(map[], actions), Reader);
    InsideAsIs(s, Asked(map[], actions), Writer);
  }

  /** Who asked to write and is in the lock excludes everyone. */
  lemma WritersExclude(actions: seq<Action>, s: State, t: Tid, u: Tid)
    requires Exec(INITIAL, actions) == Some(s)
    requires t in s.pcs && u in s.pcs && t != u && InLock(s.pcs[t])
    requires t in Asked(map[], actions) && Asked(map[], actions)[t] == Writer
    ensures !InLock(s.pcs[u]) && s.count == -1
  {
    ExecAsAsked(INITIAL, map[], actions, s);
    HolderSees(s, t);
    HolderSees(s, u);
    assert Inside(s.pcs[u], Writer) ==> u in Having(s, Writer);
  }

  lemma ExecOne(s: State, actions: seq<Action>, t: State)
    requires Inv(s) && actions != [] && Enabled(s, actions[0]) && t == Step(s, actions[0])
    ensures Inv(t) && Exec(s, actions) == Exec(t, actions[1..])
  {
    StepKeeps(s, actions[0]);
  }

  /** And the lock is given: a free one to a thread that asks to write, ... */
  lemma WriteIsGiven(s: State, t: Tid, actions: seq<Action>)
    requires Inv(s) && PcOf(s, t).Out? && s.count == 0 && actions == [Arrive(t, Writer), CasWrite(t)]
    ensures Exec(s, actions).Some? && InLock(PcOf(Exec(s, actions).value, t))
  {
    var s1 := Step(s, actions[0]);
    ExecOne(s, actions, s1);
    ExecOne(s1, actions[1..], Step(s1, actions[1]));
  }

  /** ... and one without a writer to a thread that asks to read. */
  lemma ReadIsGiven(s: State, t: Tid, actions: seq<Action>)
    requires Inv(s) && PcOf(s, t).Out? && s.count >= 0
    requires actions == [Arrive(t, Reader), ReadCount(t), CasRead(t)]
    ensures Exec(s, actions).Some? && InLock(PcOf(Exec(s, actions).value, t))
  {
    var s1 := Step(s, actions[0]);
    ExecOne(s, actions, s1);
    var s2 := Step(s1, actions[1]);
    ExecOne(s1, actions[1..], s2);
    ExecOne(s2, actions[2..], Step(s2, actions[2]));
  }

  /** The release of a holder always takes the branch of its role, so the warning about an
      invalid state is never reached. */
  lemma ReleaseTakesItsBranch(s: State, a: Action)
    requires Inv(s) && Enabled(s, a)
    ensures a.Release? ==> (PcOf(Step(s, a), a.t).Decrement? <==> PcOf(s, a.t).role == Reader)
    ensures a.TestMinusOne? ==> PcOf(Step(s, a), a.t).Clear?
  {
    if a.t in s.pcs {
      HolderSees(s, a.t);
    }
  }
}
