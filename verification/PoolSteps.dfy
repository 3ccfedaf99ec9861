/** The descriptor pools of ndis.c under concurrency: the limits are tested outside the pool's lock, and
    the counters are atomic. Each action is one test, one atomic count, or one critical section. */
module PoolSteps {
  import opened Basics
  import opened Pools

  type Tid = nat

  datatype Kind = Packets | Buffers

  /** Inside an allocation: the limit test passed; the free list was empty; a descriptor was got. Inside
      a release: the descriptor given up, to be dropped, to be put on the free list. */
  datatype Pc = Passed | Empty | Got(d: Descr) | Freed(d: Descr) | Dropping(d: Descr) | Pushing(d: Descr)

  /** threads is the number of threads that use the pool, max its max_descr; out is what clients hold. */
  datatype State = State(kind: Kind, max: nat, threads: nat, counted: int, used: int,
                         free: seq<Descr>, out: set<Descr>, pcs: map<Tid, Pc>)

  datatype Action =
    | TestLimit(t: Tid)
    | Pop(t: Tid)
    | New(t: Tid, d: Descr)
    | NoMemory(t: Tid)
    | Use(t: Tid)
    | Release(t: Tid, d: Descr)
    | TestCount(t: Tid)
    | Drop(t: Tid)
    | Push(t: Tid)

  predicate Holds(pc: Pc) {
    !pc.Passed? && !pc.Empty?
  }

  /** The memory is in use. */
  predicate Live(s: State, d: Descr) {
    d in s.free || d in s.out || exists t :: t in s.pcs && Holds(s.pcs[t]) && s.pcs[t].d == d
  }

  predicate At(s: State, t: Tid, pc: Pc) {
    t in s.pcs && s.pcs[t] == pc
  }

  /** NdisAllocatePacket tests the limit before it looks at the free list, NdisAllocateBuffer after. A
      client releases what it holds, and new memory is not in use. */
  predicate Enabled(s: State, a: Action) {
    match a
    case TestLimit(t) => t < s.threads && if s.kind.Packets? then t !in s.pcs else At(s, t, Empty)
    case Pop(t) => t < s.threads && if s.kind.Packets? then At(s, t, Passed) else t !in s.pcs
    case New(t, d) => At(s, t, if s.kind.Packets? then Empty else Passed) && !Live(s, d)
    case NoMemory(t) => At(s, t, if s.kind.Packets? then Empty else Passed)
    case Use(t) => t in s.pcs && s.pcs[t].Got?
    case Release(t, d) => t < s.threads && t !in s.pcs && d in s.out
    case TestCount(t) => t in s.pcs && s.pcs[t].Freed?
    case Drop(t) => t in s.pcs && s.pcs[t].Dropping?
    case Push(t) => t in s.pcs && s.pcs[t].Pushing?
  }

  function Goto(s: State, t: Tid, pc: Pc): State {
    s.(pcs := s.pcs[t := pc])
  }

  function Leave(s: State, t: Tid): State {
    s.(pcs := s.pcs - {t})
  }

  function Step(s: State, a: Action): State
    requires Enabled(s, a)
  {
    match a
    case TestLimit(t) =>
      if s.kind.Packets? then (if s.used > s.max then s else Goto(s, t, Passed))
      else if s.counted > s.max then Leave(s, t) else Goto(s, t, Passed)
    case Pop(t) =>
      if s.free == [] then Goto(s, t, Empty) else Goto(s.(free := s.free[1..]), t, Got(s.free[0]))
    case New(t, d) => Goto(s.(counted := s.counted + 1), t, Got(d))
    case NoMemory(t) => Leave(s, t)
    case Use(t) =>
      Leave(s.(used := if s.kind.Packets? then s.used + 1 else s.used, out := s.out + {s.pcs[t].d}), t)
    case Release(t, d) =>
      Goto(s.(used := if s.kind.Packets? then s.used - 1 else s.used, out := s.out - {d}), t, Freed(d))
    case TestCount(t) =>
      var d := s.pcs[t].d;
      Goto(s, t, if s.counted > MAX_ALLOCATED then Dropping(d) else Pushing(d))
    case Drop(t) => Leave(s.(counted := s.counted - 1), t)
    case Push(t) => Leave(s.(free := [s.pcs[t].d] + s.free), t)
  }

  // -------------------------------------------------------------------- invariant

  datatype Group = Holders | Pushers | Window

  /** Window: past the limit test, and not yet counted. */
  predicate In(pc: Pc, g: Group, kind: Kind) {
    match g
    case Holders => Holds(pc)
    case Pushers => pc.Pushing?
    case Window => pc.Passed? || (kind.Packets? && (pc.Empty? || pc.Got?))
  }

  function Having(s: State, g: Group): set<Tid> {
    set t | t in s.pcs && In(s.pcs[t], g, s.kind)
  }

  /** Every counted descriptor is free, held by a client, or in the hands of one thread. */
  ghost predicate Counts(s: State) {
    && s.counted == |s.free| + |s.out| + |Having(s, Holders)|
    && (s.kind.Packets? ==> s.used == |s.out|)
    && forall t :: t in s.pcs ==> t < s.threads
  }

  ghost predicate Apart(s: State) {
    && Distinct(s.free) && (forall d :: d in s.free ==> d !in s.out)
    && (forall t :: t in s.pcs && Holds(s.pcs[t]) ==> s.pcs[t].d !in s.free && s.pcs[t].d !in s.out)
    && (forall t, u :: t in s.pcs && u in s.pcs && t != u && Holds(s.pcs[t]) && Holds(s.pcs[u]) ==>
          s.pcs[t].d != s.pcs[u].d)
  }

  /** The free list, with what is on its way there. */
  ghost predicate Short(s: State) {
    |s.free| + |Having(s, Pushers)| <= MAX_ALLOCATED
  }

  /** The limited count, with what is on its way into it. */
  ghost predicate Limited(s: State) {
    (if s.kind.Packets? then s.used else s.counted) + |Having(s, Window)| <= s.max + s.threads
  }

  ghost predicate Inv(s: State) {
    Counts(s) && Apart(s) && Short(s) && Limited(s)
  }

  // ----------------------------------------------------------------- preservation

  /** Only thread t moves. */
  ghost predicate Moves(s: State, s': State, t: Tid) {
    && s'.kind == s.kind && s'.max == s.max && s'.threads == s.threads
    && forall u: Tid :: u != t ==> (u in s'.pcs <==> u in s.pcs) && (u in s.pcs ==> s'.pcs[u] == s.pcs[u])
  }

  function Member(s: State, t: Tid, g: Group): int {
    if t in s.pcs && In(s.pcs[t], g, s.kind) then 1 else 0
  }

  lemma SwapOne(a: set<Tid>, b: set<Tid>, t: Tid)
    requires forall u :: u != t ==> (u in a <==> u in b)
    ensures |b| == |a| - (if t in a then 1 else 0) + (if t in b then 1 else 0)
  {
    assert a - {t} == b - {t};
    assert t in a ==> |a - {t}| == |a| - 1;
    assert t !in a ==> a - {t} == a;
    assert t in b ==> |b - {t}| == |b| - 1;
    assert t !in b ==> b - {t} == b;
  }

  lemma SizeAfter(s: State, s': State, t: Tid, g: Group)
    requires Moves(s, s', t)
    ensures |Having(s', g)| == |Having(s, g)| - Member(s, t, g) + Member(s', t, g)
  {
    forall u: Tid | u != t
      ensures u in Having(s, g) <==> u in Having(s', g)
    {
      assert u in s'.pcs <==> u in s.pcs;
    }
    SwapOne(Having(s, g), Having(s', g), t);
  }

  lemma Sizes(s: State, s': State, t: Tid)
    requires Moves(s, s', t)
    ensures |Having(s', Holders)| == |Having(s, Holders)| - Member(s, t, Holders) + Member(s', t, Holders)
    ensures |Having(s', Pushers)| == |Having(s, Pushers)| - Member(s, t, Pushers) + Member(s', t, Pushers)
    ensures |Having(s', Window)| == |Having(s, Window)| - Member(s, t, Window) + Member(s', t, Window)
  {
    SizeAfter(s, s', t, Holders);
    SizeAfter(s, s', t, Pushers);
    SizeAfter(s, s', t, Window);
  }

  lemma {:induction false} CountBelow(q: set<Tid>, n: nat)
    requires forall t :: t in q ==> t < n
    ensures |q| <= n
  {
    if n == 0 {
      assert q == {};
    } else {
      CountBelow(q - {n - 1}, n - 1);
      assert n - 1 in q ==> |q - {n - 1}| == |q| - 1;
      assert n - 1 !in q ==> q - {n - 1} == q;
    }
  }

  lemma WindowBelow(s: State)
    requires forall t :: t in s.pcs ==> t < s.threads
    ensures |Having(s, Window)| <= s.threads
  {
    CountBelow(Having(s, Window), s.threads);
  }

  lemma TestLimitKeeps(s: State, t: Tid)
    requires Inv(s) && Enabled(s, TestLimit(t))
    ensures Inv(Step(s, TestLimit(t)))
  {
    var s' := Step(s, TestLimit(t));
    Sizes(s, s', t);
    WindowBelow(s');
  }

  lemma PopKeeps(s: State, t: Tid)
    requires Inv(s) && Enabled(s, Pop(t))
    ensures Inv(Step(s, Pop(t)))
  {
    var s' := Step(s, Pop(t));
    Sizes(s, s', t);
    if s.free != [] {
      assert s.free[0] in s.free;
      DistinctTail(s.free);
    }
  }

  lemma NewKeeps(s: State, t: Tid, d: Descr)
    requires Inv(s) && Enabled(s, New(t, d))
    ensures Inv(Step(s, New(t, d)))
  {
    Sizes(s, Step(s, New(t, d)), t);
  }

  lemma UseKeeps(s: State, t: Tid)
    requires Inv(s) && Enabled(s, Use(t))
    ensures Inv(Step(s, Use(t)))
  {
    Sizes(s, Step(s, Use(t)), t);
  }

  lemma ReleaseKeeps(s: State, t: Tid, d: Descr)
    requires Inv(s) && Enabled(s, Release(t, d))
    ensures Inv(Step(s, Release(t, d)))
  {
    Sizes(s, Step(s, Release(t, d)), t);
  }

  /** Whoever is to put a descriptor back has found few counted, itself among them. */
  lemma TestCountKeeps(s: State, t: Tid)
    requires Inv(s) && Enabled(s, TestCount(t))
    ensures Inv(Step(s, TestCount(t)))
  {
    var s' := Step(s, TestCount(t));
    Sizes(s, s', t);
    Subset(Having(s', Pushers), Having(s', Holders));
  }

  lemma Subset(a: set<Tid>, b: set<Tid>)
    requires a <= b
    ensures |a| <= |b|
  {
    assert b == a + (b - a);
  }

  lemma DropKeeps(s: State, t: Tid)
    requires Inv(s) && Enabled(s, Drop(t))
    ensures Inv(Step(s, Drop(t)))
  {
    Sizes(s, Step(s, Drop(t)), t);
  }

  lemma PushKeeps(s: State, t: Tid)
    requires Inv(s) && Enabled(s, Push(t))
    ensures Inv(Step(s, Push(t)))
  {
    var d := s.pcs[t].d;
    Sizes(s, Step(s, Push(t)), t);
    assert forall e :: e in [d] + s.free <==> e == d || e in s.free;
  }

  lemma StepKeeps(s: State, a: Action)
    requires Inv(s) && Enabled(s, a)
    ensures Inv(Step(s, a))
  {
    match a
    case TestLimit(t) => TestLimitKeeps(s, t);
    case Pop(t) => PopKeeps(s, t);
    case New(t, d) => NewKeeps(s, t, d);
    case NoMemory(t) => Sizes(s, Step(s, a), t);
    case Use(t) => UseKeeps(s, t);
    case Release(t, d) => ReleaseKeeps(s, t, d);
    case TestCount(t) => TestCountKeeps(s, t);
    case Drop(t) => DropKeeps(s, t);
    case Push(t) => PushKeeps(s, t);
  }

  // ------------------------------------------------------------------------- runs

  function Fresh(kind: Kind, max: nat, threads: nat): State {
    State(kind, max, threads, 0, 0, [], {}, map[])
  }

  lemma FreshInv(kind: Kind, max: nat, threads: nat)
    ensures Inv(Fresh(kind, max, threads))
  {
    var s := Fresh(kind, max, threads);
    assert Having(s, Holders) == {} && Having(s, Pushers) == {} && Having(s, Window) == {};
  }

  function Exec(s: State, actions: seq<Action>): (r: Option<State>)
    decreases |actions|
  {
    if actions == [] then Some(s)
    else if !Enabled(s, actions[0]) then None
    else Exec(Step(s, actions[0]), actions[1..])
  }

  lemma {:induction false} ExecKeeps(s: State, actions: seq<Action>, t: State)
    requires Inv(s) && Exec(s, actions) == Some(t)
    ensures Inv(t) && t.kind == s.kind && t.max == s.max && t.threads == s.threads
    decreases |actions|
  {
    if actions != [] {
      StepKeeps(s, actions[0]);
      ExecKeeps(Step(s, actions[0]), actions[1..], t);
    }
  }

  /** In every run of any number of threads: the free list has at most 16 entries; the limited count is
      at most max_descr plus the number of threads; nothing is free twice or both free and held by a
      client; and the counts are exact when no thread is inside the pool. */
  lemma EveryRun(kind: Kind, max: nat, threads: nat, actions: seq<Action>, s: State)
    requires Exec(Fresh(kind, max, threads), actions) == Some(s)
    ensures |s.free| <= MAX_ALLOCATED
    ensures (if kind.Packets? then s.used else s.counted) <= max + threads
    ensures Distinct(s.free) && forall d :: d in s.free ==> d !in s.out
    ensures kind.Packets? ==> s.used == |s.out|
    ensures s.pcs == map[] ==> s.counted == |s.free| + |s.out|
  {
    FreshInv(kind, max, threads);
    ExecKeeps(Fresh(kind, max, threads), actions, s);
    assert s.pcs == map[] ==> Having(s, Holders) == {};
  }

  lemma BothPass(s0: State, s4: State, actions: seq<Action>)
    requires s0 == Fresh(Packets, 0, 2) && s4 == s0.(pcs := map[0 := Empty, 1 := Empty])
    requires |actions| >= 4 && actions[..4] == [TestLimit(0), TestLimit(1), Pop(0), Pop(1)]
    ensures Exec(s0, actions) == Exec(s4, actions[4..])
  {
    var s1, s2 := s0.(pcs := map[0 := Passed]), s0.(pcs := map[0 := Passed, 1 := Passed]);
    var s3 := s0.(pcs := map[0 := Empty, 1 := Passed]);
    assert actions[0] == actions[..4][0] && actions[1] == actions[..4][1];
    assert actions[2] == actions[..4][2] && actions[3] == actions[..4][3];
    ExecOne(s0, actions, s1);
    ExecOne(s1, actions[1..], s2);
    ExecOne(s2, actions[2..], s3);
    ExecOne(s3, actions[3..], s4);
  }

  lemma BothGet(s4: State, s: State, actions: seq<Action>)
    requires s4 == Fresh(Packets, 0, 2).(pcs := map[0 := Empty, 1 := Empty])
    requires s == State(Packets, 0, 2, 2, 2, [], {10, 11}, map[])
    requires actions == [New(0, 10), New(1, 11), Use(0), Use(1)]
    ensures Exec(s4, actions) == Some(s)
  {
    var s5 := s4.(counted := 1, pcs := map[0 := Got(10), 1 := Empty]);
    var s6 := s4.(counted := 2, pcs := map[0 := Got(10), 1 := Got(11)]);
    var s7 := s4.(counted := 2, used := 1, out := {10}, pcs := map[1 := Got(11)]);
    ExecOne(s4, actions, s5);
    ExecOne(s5, actions[1..], s6);
    ExecOne(s6, actions[2..], s7);
    ExecOne(s7, actions[3..], s);
  }

  /** The bound is met: two threads that pass the test of an empty pool together. */
  lemma LimitOverrun(actions: seq<Action>, s: State)
    requires actions == [TestLimit(0), TestLimit(1), Pop(0), Pop(1), New(0, 10), New(1, 11), Use(0), Use(1)]
    requires s == State(Packets, 0, 2, 2, 2, [], {10, 11}, map[])
    ensures Exec(Fresh(Packets, 0, 2), actions) == Some(s) && s.used == s.max + s.threads > s.max + 1
  {
    var s4 := Fresh(Packets, 0, 2).(pcs := map[0 := Empty, 1 := Empty]);
    BothPass(Fresh(Packets, 0, 2), s4, actions);
    BothGet(s4, s, actions[4..]);
  }

  lemma ExecOne(s: State, actions: seq<Action>, t: State)
    requires actions != [] && Enabled(s, actions[0]) && t == Step(s, actions[0])
    ensures Exec(s, actions) == Exec(t, actions[1..])
  {
  }

  // ------------------------------------------------------------- a thread that is alone

  /** A release by a thread that is alone: the descriptor goes back to the kernel exactly if more than 16
      are counted, and otherwise to the front of the free list. */
  lemma AloneReleases(s: State, t: Tid, d: Descr, actions: seq<Action>)
    requires Inv(s) && s.pcs == map[] && t < s.threads && d in s.out
    requires actions == [Release(t, d), TestCount(t), if |s.free| + |s.out| > 16 then Drop(t) else Push(t)]
    ensures var r := Exec(s, actions);
            && r.Some? && r.value.pcs == map[] && r.value.out == s.out - {d}
            && r.value.free == (if |s.free| + |s.out| > 16 then s.free else [d] + s.free)
            && r.value.counted == |r.value.free| + |r.value.out|
  {
    assert Having(s, Holders) == {};
    var s1 := Step(s, actions[0]);
    ExecOne(s, actions, s1);
    var s2 := Step(s1, actions[1]);
    ExecOne(s1, actions[1..], s2);
    var s3 := Step(s2, actions[2]);
    ExecOne(s2, actions[2..], s3);
  }

  /** An allocation of a packet by a thread that is alone: from the front of the free list if there is
      one, else new memory; refused exactly if more than max_descr are outstanding. */
  lemma AloneAllocatesPacket(s: State, t: Tid, d: Descr, actions: seq<Action>)
    requires Inv(s) && s.kind.Packets? && s.pcs == map[] && t < s.threads && !Live(s, d)
    requires actions == if |s.out| > s.max then [TestLimit(t)]
                        else if s.free != [] then [TestLimit(t), Pop(t), Use(t)]
                        else [TestLimit(t), Pop(t), New(t, d), Use(t)]
    ensures var r, got := Exec(s, actions), if s.free != [] then s.free[0] else d;
            && r.Some? && r.value.pcs == map[]
            && r.value.out == (if |s.out| > s.max then s.out else s.out + {got})
            && r.value.free == (if |s.out| > s.max || s.free == [] then s.free else s.free[1..])
  {
    var s1 := Step(s, actions[0]);
    ExecOne(s, actions, s1);
    if |s.out| <= s.max {
      var s2 := Step(s1, actions[1]);
      ExecOne(s1, actions[1..], s2);
      var s3 := Step(s2, actions[2]);
      ExecOne(s2, actions[2..], s3);
      if s.free == [] {
        ExecOne(s3, actions[3..], Step(s3, actions[3]));
      }
    }
  }

  /** An allocation of a buffer: the limit is on the counted descriptors, and tested only if none is
      free. */
  lemma AloneAllocatesBuffer(s: State, t: Tid, d: Descr, actions: seq<Action>)
    requires Inv(s) && s.kind.Buffers? && s.pcs == map[] && t < s.threads && !Live(s, d)
    requires actions == if s.free != [] then [Pop(t), Use(t)]
                        else if |s.out| > s.max then [Pop(t), TestLimit(t)]
                        else [Pop(t), TestLimit(t), New(t, d), Use(t)]
    ensures var r, got := Exec(s, actions), if s.free != [] then s.free[0] else d;
            && r.Some? && r.value.pcs == map[]
            && r.value.out == (if s.free == [] && |s.out| > s.max then s.out else s.out + {got})
            && r.value.free == (if s.free == [] then [] else s.free[1..])
  {
    assert Having(s, Holders) == {};
    var s1 := Step(s, actions[0]);
    ExecOne(s, actions, s1);
    var s2 := Step(s1, actions[1]);
    ExecOne(s1, actions[1..], s2);
    if s.free == [] && |s.out| <= s.max {
      var s3 := Step(s2, actions[2]);
      ExecOne(s2, actions[2..], s3);
      ExecOne(s3, actions[3..], Step(s3, actions[3]));
    }
  }
}
