/** Runs of the transmit path, step by step, to the states in which its promises fail. */
module TxRuns {
  import opened Basics
  import opened TxPath

  ghost predicate Reached(s: State) {
    exists actions :: Exec(INITIAL, actions) == Some(s)
  }

  lemma {:induction false} ExecSnoc(s: State, actions: seq<Action>, t: State, a: Action)
    requires Inv(s) && Exec(s, actions) == Some(t) && Possible(t, a) && Allowed(t, a)
    ensures Exec(s, actions + [a]) == Some(Step(t, a))
    decreases |actions|
  {
    StepKeeps(t, a);
    if actions == [] {
      assert (actions + [a])[1..] == [];
    } else {
      StepKeeps(s, actions[0]);
      ExecSnoc(Step(s, actions[0]), actions[1..], t, a);
      assert (actions + [a])[0] == actions[0] && (actions + [a])[1..] == actions[1..] + [a];
    }
  }

  predicate Goes(s: State, a: Action, t: State) {
    Possible(s, a) && Allowed(s, a) && t == Step(s, a)
  }

  lemma Reach(s: State, a: Action, t: State)
    requires Reached(s) && Goes(s, a, t)
    ensures Reached(t)
  {
    var actions :| Exec(INITIAL, actions) == Some(s);
    ExecSnoc(INITIAL, actions, s, a);
  }

  lemma ReachInitial()
    ensures Reached(INITIAL)
  {
    assert Exec(INITIAL, []) == Some(INITIAL);
  }

  /** One packet, held as k. */
  function One(p: Pid, k: Packet, pc: Pc, txOk: bool): State {
    State([p], [], map[p := k], pc, txOk)
  }

  lemma OneAccepted(p: Pid)
    ensures Goes(INITIAL, Enqueue(p), One(p, Packet(Success, Host, 0), Idle, true))
  {
    assert [] + [p] == [p];
  }

  lemma OneOffered(p: Pid, k: Packet)
    ensures Goes(One(p, k, Idle, true), StartCall(1), One(p, k.(owner := WithDriver), Calling(1), true))
  {
    assert [p][..1] == [p];
  }

  lemma OneRefused(p: Pid, k: Packet)
    requires k.owner == WithDriver
    ensures Goes(One(p, k, Calling(1), true), DriverSets(p, Resources),
                 One(p, k.(status := Resources, owner := Host), Calling(1), true))
  {
  }

  lemma OneReturned(p: Pid, k: Packet)
    requires k.owner == Host && k.status == Resources
    ensures Goes(One(p, k, Calling(1), true), CallReturns, One(p, k, Examining(1, 0), true))
  {
    assert CutAt(One(p, k, Calling(1), true), 0);
  }

  lemma OneExamined(p: Pid, k: Packet)
    requires k.status == Resources
    ensures Goes(One(p, k, Examining(1, 0), true), Examine, One(p, k.(status := NotRecognized), Examining(1, 0), false))
  {
  }

  lemma OneKept(p: Pid, k: Packet)
    ensures Goes(One(p, k, Examining(1, 0), false), LeaveLoop, One(p, k, Committing(0), false))
    ensures Goes(One(p, k, Committing(0), false), Commit, One(p, k, Idle, false))
    ensures Goes(One(p, k, Idle, false), ResourcesAvailable, One(p, k, Idle, true))
  {
    assert [p][0..] == [p] && [] + [p][..0] == [];
  }

  /** A packet is offered, refused, and offered again. */
  lemma OfferedAgain(p: Pid, s: State)
    requires s == One(p, Packet(NotRecognized, WithDriver, 0), Calling(1), true)
    ensures Reached(s)
  {
    var plain, offered, refused, found :=
      Packet(Success, Host, 0), Packet(Success, WithDriver, 0), Packet(Resources, Host, 0), Packet(NotRecognized, Host, 0);
    OneAccepted(p);
    OneOffered(p, plain);
    OneRefused(p, offered);
    OneReturned(p, refused);
    OneExamined(p, refused);
    OneKept(p, found);
    OneOffered(p, found);
    ReachInitial();
    Reach(INITIAL, Enqueue(p), One(p, plain, Idle, true));
    Reach(One(p, plain, Idle, true), StartCall(1), One(p, offered, Calling(1), true));
    Reach(One(p, offered, Calling(1), true), DriverSets(p, Resources), One(p, refused, Calling(1), true));
    Reach(One(p, refused, Calling(1), true), CallReturns, One(p, refused, Examining(1, 0), true));
    Reach(One(p, refused, Examining(1, 0), true), Examine, One(p, found, Examining(1, 0), false));
    Reach(One(p, found, Examining(1, 0), false), LeaveLoop, One(p, found, Committing(0), false));
    Reach(One(p, found, Committing(0), false), Commit, One(p, found, Idle, false));
    Reach(One(p, found, Idle, false), ResourcesAvailable, One(p, found, Idle, true));
    Reach(One(p, found, Idle, true), StartCall(1), s);
  }

  /** Otherwise both parties free it: NdisMSendComplete finds the NOT_RECOGNIZED left by the
      refusal, and the worker then finds the final status. */
  lemma UnsetCompletionFreesTwice(p: Pid, s: State, s1: State, s2: State)
    requires s == State([p], [], map[p := Packet(NotRecognized, WithDriver, 0)], Calling(1), true)
    requires s1 == Step(s, Complete(p, Success))
    requires s2 == s1.(pc := Examining(1, 0), packets := TakeBack(s1.packets))
    ensures Reached(s)
    ensures Allowed(s1, CallReturns) && s2 == Step(s1, CallReturns)
    ensures Possible(s2, Examine) && Step(s2, Examine).packets[p].frees == 2
  {
    OfferedAgain(p, s);
    assert CutAt(s1, 1);
  }

  function Three(k: seq<Packet>, pc: Pc, txOk: bool): State
    requires |k| == 3
  {
    State([0, 1, 2], [], map[0 := k[0], 1 := k[1], 2 := k[2]], pc, txOk)
  }

  lemma ThreeAccepted(k: Packet)
    requires k == Packet(Success, Host, 0)
    ensures Goes(State([0], [], map[0 := k], Idle, true), Enqueue(1), State([0, 1], [], map[0 := k, 1 := k], Idle, true))
    ensures Goes(State([0, 1], [], map[0 := k, 1 := k], Idle, true), Enqueue(2), Three([k, k, k], Idle, true))
  {
    assert [0] + [1] == [0, 1] && [0, 1] + [2] == [0, 1, 2];
  }

  lemma ThreeOffered(k: Packet, o: Packet)
    requires o == k.(owner := WithDriver)
    ensures Goes(Three([k, k, k], Idle, true), StartCall(3), Three([o, o, o], Calling(3), true))
  {
    var r := [0, 1, 2];
    assert r[..3] == r && r[0] in r && r[1] in r && r[2] in r;
  }

  lemma ThreeSets(k: seq<Packet>, j: nat, st: Status)
    requires |k| == 3 && j < 3 && k[j].owner == WithDriver && !st.NotRecognized?
    ensures var k' := k[j].(status := st, owner := if st.Pending? then Owes else Host);
            Goes(Three(k, Calling(3), true), DriverSets(j, st), Three(k[j := k'], Calling(3), true))
  {
    var k' := k[j].(status := st, owner := if st.Pending? then Owes else Host);
    assert Three(k, Calling(3), true).packets[j := k'] == Three(k[j := k'], Calling(3), true).packets;
  }

  lemma ThreeReturned(k: seq<Packet>, back: Packet)
    requires |k| == 3 && k[0] == Packet(Pending, Owes, 0) && k[1] == Packet(Resources, Host, 0)
    requires k[2].owner == WithDriver && back == k[2].(owner := Host)
    ensures Goes(Three(k, Calling(3), true), CallReturns, Three(k[2 := back], Examining(3, 0), true))
  {
    assert CutAt(Three(k, Calling(3), true), 1);
    assert TakeBack(Three(k, Calling(3), true).packets) == Three(k[2 := back], Idle, true).packets;
  }

  lemma ThreeExamined(k: seq<Packet>, j: nat, k': Packet)
    requires |k| == 3 && j < 3
    requires k' == if k[j].status.Pending? || k[j].status.Resources? then k[j].(status := NotRecognized)
                   else Freed(k[j].(status := NotRecognized))
    ensures var refused := k[j].status.Resources?;
            Goes(Three(k, Examining(3, j), true), Examine,
                 Three(k[j := k'], Examining(3, if refused then j else j + 1), !refused))
  {
    AdvanceValue(j, k[j].status.Resources?);
    assert [0, 1, 2][j] == j;
    assert Three(k, Idle, true).packets[j := k'] == Three(k[j := k'], Idle, true).packets;
  }

  lemma ThreeCompleted(k: seq<Packet>, k': Packet)
    requires |k| == 3 && k[0] == Packet(NotRecognized, Owes, 0) && k' == Packet(Success, Done, 1)
    ensures Goes(Three(k, Examining(3, 1), false), Complete(0, Success), Three(k[0 := k'], Examining(3, 1), true))
  {
    assert Three(k, Idle, true).packets[0 := k'] == Three(k[0 := k'], Idle, true).packets;
  }

  lemma ThreeGone(k: seq<Packet>, s: State)
    requires |k| == 3 && s == Three(k, Idle, true).(ring := [], gone := [0, 1, 2])
    ensures Goes(Three(k, Examining(3, 3), true), LeaveLoop, Three(k, Committing(3), true))
    ensures Goes(Three(k, Committing(3), true), Commit, s)
  {
    var r := [0, 1, 2];
    assert r[3..] == [] && [] + r[..3] == r;
  }

  lemma ReachOffered(k: Packet, o: Packet)
    requires k == Packet(Success, Host, 0) && o == Packet(Success, WithDriver, 0)
    ensures Reached(Three([o, o, o], Calling(3), true))
  {
    OneAccepted(0);
    ThreeAccepted(k);
    ThreeOffered(k, o);
    ReachInitial();
    var s1, s2 := State([0], [], map[0 := k], Idle, true), State([0, 1], [], map[0 := k, 1 := k], Idle, true);
    Reach(INITIAL, Enqueue(0), s1);
    Reach(s1, Enqueue(1), s2);
    Reach(s2, Enqueue(2), Three([k, k, k], Idle, true));
    Reach(Three([k, k, k], Idle, true), StartCall(3), Three([o, o, o], Calling(3), true));
  }

  lemma ReachDecided(o: Packet, k0: Packet, k1: Packet)
    requires o == Packet(Success, WithDriver, 0) && k0 == Packet(Pending, Owes, 0) && k1 == Packet(Resources, Host, 0)
    ensures Reached(Three([k0, k1, o], Calling(3), true))
  {
    ThreeSets([o, o, o], 0, Pending);
    ThreeSets([k0, o, o], 1, Resources);
    assert [o, o, o][0 := k0] == [k0, o, o] && [k0, o, o][1 := k1] == [k0, k1, o];
    ReachOffered(Packet(Success, Host, 0), o);
    Reach(Three([o, o, o], Calling(3), true), DriverSets(0, Pending), Three([k0, o, o], Calling(3), true));
    Reach(Three([k0, o, o], Calling(3), true), DriverSets(1, Resources), Three([k0, k1, o], Calling(3), true));
  }

  lemma ReachReturned(plain: Packet, k0: Packet, k1: Packet)
    requires plain == Packet(Success, Host, 0) && k0 == Packet(Pending, Owes, 0) && k1 == Packet(Resources, Host, 0)
    ensures Reached(Three([k0, k1, plain], Examining(3, 0), true))
  {
    var o := Packet(Success, WithDriver, 0);
    ThreeReturned([k0, k1, o], plain);
    assert [k0, k1, o][2 := plain] == [k0, k1, plain];
    ReachDecided(o, k0, k1);
    Reach(Three([k0, k1, o], Calling(3), true), CallReturns, Three([k0, k1, plain], Examining(3, 0), true));
  }

  /** The driver takes packet 0, refuses 1 and leaves 2 alone; the worker finds the refusal. */
  lemma ReachRefusal(plain: Packet, owed: Packet, found: Packet)
    requires plain == Packet(Success, Host, 0)
    requires owed == Packet(NotRecognized, Owes, 0) && found == Packet(NotRecognized, Host, 0)
    ensures Reached(Three([owed, found, plain], Examining(3, 1), false))
  {
    var k0, k1 := Packet(Pending, Owes, 0), Packet(Resources, Host, 0);
    ThreeExamined([k0, k1, plain], 0, owed);
    ThreeExamined([owed, k1, plain], 1, found);
    assert [k0, k1, plain][0 := owed] == [owed, k1, plain] && [owed, k1, plain][1 := found] == [owed, found, plain];
    ReachReturned(plain, k0, k1);
    Reach(Three([k0, k1, plain], Examining(3, 0), true), Examine, Three([owed, k1, plain], Examining(3, 1), true));
    Reach(Three([owed, k1, plain], Examining(3, 1), true), Examine, Three([owed, found, plain], Examining(3, 1), false));
  }

  /** Then the driver completes packet 0, which sets tx_ok; the worker, still in its loop, frees 1 as
      an invalid status and 2 as sent. The driver has taken neither. */
  lemma RefusedFreedUnsent(done: Packet, lost: Packet)
    requires done == Packet(Success, Done, 1) && lost == Packet(NotRecognized, Host, 1)
    ensures Reached(State([], [0, 1, 2], map[0 := done, 1 := lost, 2 := lost], Idle, true))
  {
    var plain, owed, found := Packet(Success, Host, 0), Packet(NotRecognized, Owes, 0), Packet(NotRecognized, Host, 0);
    ThreeCompleted([owed, found, plain], done);
    ThreeExamined([done, found, plain], 1, lost);
    ThreeExamined([done, lost, plain], 2, lost);
    var s := Three([done, lost, lost], Idle, true).(ring := [], gone := [0, 1, 2]);
    ThreeGone([done, lost, lost], s);
    assert [owed, found, plain][0 := done] == [done, found, plain];
    assert [done, found, plain][1 := lost] == [done, lost, plain] && [done, lost, plain][2 := lost] == [done, lost, lost];
    ReachRefusal(plain, owed, found);
    Reach(Three([owed, found, plain], Examining(3, 1), false), Complete(0, Success),
          Three([done, found, plain], Examining(3, 1), true));
    Reach(Three([done, found, plain], Examining(3, 1), true), Examine, Three([done, lost, plain], Examining(3, 2), true));
    Reach(Three([done, lost, plain], Examining(3, 2), true), Examine, Three([done, lost, lost], Examining(3, 3), true));
    Reach(Three([done, lost, lost], Examining(3, 3), true), LeaveLoop, Three([done, lost, lost], Committing(3), true));
    Reach(Three([done, lost, lost], Committing(3), true), Commit, s);
  }

  function Two(k: seq<Packet>, pc: Pc, txOk: bool): State
    requires |k| == 2
  {
    State([0, 1], [], map[0 := k[0], 1 := k[1]], pc, txOk)
  }

  lemma TwoAccepted(k: Packet)
    requires k == Packet(Success, Host, 0)
    ensures Goes(State([0], [], map[0 := k], Idle, true), Enqueue(1), Two([k, k], Idle, true))
  {
    assert [0] + [1] == [0, 1];
  }

  lemma TwoOffered(k: Packet, o: Packet)
    requires o == k.(owner := WithDriver)
    ensures Goes(Two([k, k], Idle, true), StartCall(2), Two([o, o], Calling(2), true))
  {
    var r := [0, 1];
    assert r[..2] == r && r[0] in r && r[1] in r;
  }

  lemma TwoSets(k: seq<Packet>, j: nat, st: Status, k': Packet)
    requires |k| == 2 && j < 2 && k[j].owner == WithDriver && !st.NotRecognized?
    requires k' == k[j].(status := st, owner := if st.Pending? then Owes else Host)
    ensures Goes(Two(k, Calling(2), true), DriverSets(j, st), Two(k[j := k'], Calling(2), true))
  {
    assert Two(k, Idle, true).packets[j := k'] == Two(k[j := k'], Idle, true).packets;
  }

  lemma TwoCompleted(k: seq<Packet>, pc: Pc, k': Packet)
    requires |k| == 2 && k[0].owner == Owes
    requires k' == (if k[0].status.NotRecognized? then Freed(k[0]) else k[0]).(status := Success, owner := Done)
    ensures Goes(Two(k, pc, true), Complete(0, Success), Two(k[0 := k'], pc, true))
  {
    assert Two(k, pc, true).packets[0 := k'] == Two(k[0 := k'], pc, true).packets;
  }

  lemma TwoReturned(k: seq<Packet>)
    requires |k| == 2 && k[0].owner == Done && k[0].status.Success? && k[1] == Packet(Resources, Host, 0)
    ensures Goes(Two(k, Calling(2), true), CallReturns, Two(k, Examining(2, 0), true))
  {
    assert CutAt(Two(k, Calling(2), true), 1);
    assert TakeBack(Two(k, Idle, true).packets) == Two(k, Idle, true).packets;
  }

  lemma TwoExamined(k: seq<Packet>, j: nat, k': Packet)
    requires |k| == 2 && j < 2
    requires k' == if k[j].status.Pending? || k[j].status.Resources? then k[j].(status := NotRecognized)
                   else Freed(k[j].(status := NotRecognized))
    ensures var refused := k[j].status.Resources?;
            Goes(Two(k, Examining(2, j), true), Examine,
                 Two(k[j := k'], Examining(2, if refused then j else j + 1), !refused))
  {
    AdvanceValue(j, k[j].status.Resources?);
    assert [0, 1][j] == j;
    assert Two(k, Idle, true).packets[j := k'] == Two(k[j := k'], Idle, true).packets;
  }

  lemma TwoLeft(k: seq<Packet>, pc: Pc, s: State)
    requires |k| == 2 && (pc == Examining(2, 1) || pc == Sending(2, 1))
    requires s == Two(k, Idle, false).(ring := [1], gone := [0])
    ensures Goes(Two(k, pc, false), LeaveLoop, Two(k, Committing(1), false))
    ensures Goes(Two(k, Committing(1), false), Commit, s)
  {
    var r := [0, 1];
    assert r[1..] == [1] && [] + r[..1] == [0];
  }

  lemma ReachTwo(k: Packet)
    requires k == Packet(Success, Host, 0)
    ensures Reached(Two([k, k], Idle, true))
  {
    OneAccepted(0);
    TwoAccepted(k);
    ReachInitial();
    var s1 := State([0], [], map[0 := k], Idle, true);
    Reach(INITIAL, Enqueue(0), s1);
    Reach(s1, Enqueue(1), Two([k, k], Idle, true));
  }

  lemma ReachEarly(d0: Packet, k1: Packet)
    requires d0 == Packet(Success, Done, 0) && k1 == Packet(Resources, Host, 0)
    ensures Reached(Two([d0, k1], Calling(2), true))
  {
    var k, o, k0 := Packet(Success, Host, 0), Packet(Success, WithDriver, 0), Packet(Pending, Owes, 0);
    TwoOffered(k, o);
    TwoSets([o, o], 0, Pending, k0);
    TwoSets([k0, o], 1, Resources, k1);
    TwoCompleted([k0, k1], Calling(2), d0);
    assert [o, o][0 := k0] == [k0, o] && [k0, o][1 := k1] == [k0, k1] && [k0, k1][0 := d0] == [d0, k1];
    ReachTwo(k);
    Reach(Two([k, k], Idle, true), StartCall(2), Two([o, o], Calling(2), true));
    Reach(Two([o, o], Calling(2), true), DriverSets(0, Pending), Two([k0, o], Calling(2), true));
    Reach(Two([k0, o], Calling(2), true), DriverSets(1, Resources), Two([k0, k1], Calling(2), true));
    Reach(Two([k0, k1], Calling(2), true), Complete(0, Success), Two([d0, k1], Calling(2), true));
  }

  lemma NothingOwed(k: seq<Packet>, s: State)
    requires |k| == 2 && k[0].owner != Owes && k[1].owner != Owes
    requires s == Two(k, Idle, false).(ring := [1], gone := [0]) && Reached(s)
    ensures Stalled(s)
  {
    ReachedInv(s);
  }

  /** MiniportSendPackets: the driver takes packet 0, refuses 1 and completes 0 before it returns. The
      worker finds the refusal afterwards, and packet 1 stays in the ring of a stalled worker. */
  lemma StallReached(freed: Packet, found: Packet, s: State)
    requires freed == Packet(NotRecognized, Done, 1) && found == Packet(NotRecognized, Host, 0)
    requires s == Two([freed, found], Idle, false).(ring := [1], gone := [0])
    ensures Reached(s) && Stalled(s)
  {
    var d0, k1 := Packet(Success, Done, 0), Packet(Resources, Host, 0);
    TwoReturned([d0, k1]);
    TwoExamined([d0, k1], 0, freed);
    TwoExamined([freed, k1], 1, found);
    TwoLeft([freed, found], Examining(2, 1), s);
    assert [d0, k1][0 := freed] == [freed, k1] && [freed, k1][1 := found] == [freed, found];
    ReachEarly(d0, k1);
    Reach(Two([d0, k1], Calling(2), true), CallReturns, Two([d0, k1], Examining(2, 0), true));
    Reach(Two([d0, k1], Examining(2, 0), true), Examine, Two([freed, k1], Examining(2, 1), true));
    Reach(Two([freed, k1], Examining(2, 1), true), Examine, Two([freed, found], Examining(2, 1), false));
    Reach(Two([freed, found], Examining(2, 1), false), LeaveLoop, Two([freed, found], Committing(1), false));
    Reach(Two([freed, found], Committing(1), false), Commit, s);
    NothingOwed([freed, found], s);
  }

  lemma ReachedInv(s: State)
    requires Reached(s)
    ensures Inv(s)
  {
    var actions :| Exec(INITIAL, actions) == Some(s);
  }

  lemma TwoSending(k: Packet)
    ensures Goes(Two([k, k], Idle, true), StartSends(2), Two([k, k], Sending(2, 0), true))
  {
  }

  lemma TwoCalls(k: seq<Packet>, j: nat, k': Packet)
    requires |k| == 2 && j < 2 && k' == k[j].(status := NotRecognized, owner := WithDriver)
    ensures Goes(Two(k, Sending(2, j), true), CallSend, Two(k[j := k'], InSend(2, j), true))
  {
    assert [0, 1][j] == j;
    assert Two(k, Idle, true).packets[j := k'] == Two(k[j := k'], Idle, true).packets;
  }

  lemma TwoTakes(k: seq<Packet>, k': Packet)
    requires |k| == 2 && k[0].owner == WithDriver && k' == k[0].(owner := Owes)
    ensures Goes(Two(k, InSend(2, 0), true), DriverTakes, Two(k[0 := k'], InSend(2, 0), true))
    ensures Goes(Two(k[0 := k'], InSend(2, 0), true), SendReturns(Pending), Two(k[0 := k'], Sending(2, 1), true))
  {
    AdvanceValue(0, false);
    assert [0, 1][0] == 0;
    assert Two(k, Idle, true).packets[0 := k'] == Two(k[0 := k'], Idle, true).packets;
    assert Two(k[0 := k'], Idle, true).packets[0 := k'] == Two(k[0 := k'], Idle, true).packets;
  }

  lemma TwoSendRefused(k: seq<Packet>, k': Packet)
    requires |k| == 2 && k[1].owner == WithDriver && k' == k[1].(owner := Host)
    ensures Goes(Two(k, InSend(2, 1), true), SendReturns(Resources), Two(k[1 := k'], Sending(2, 1), false))
  {
    AdvanceValue(1, true);
    assert [0, 1][1] == 1;
    assert Two(k, Idle, true).packets[1 := k'] == Two(k[1 := k'], Idle, true).packets;
  }

  lemma ReachTaken(o: Packet, t: Packet)
    requires o == Packet(NotRecognized, WithDriver, 0) && t == Packet(NotRecognized, Owes, 0)
    ensures Reached(Two([t, o], InSend(2, 1), true))
  {
    var k := Packet(Success, Host, 0);
    TwoSending(k);
    TwoCalls([k, k], 0, o);
    TwoTakes([o, k], t);
    TwoCalls([t, k], 1, o);
    assert [k, k][0 := o] == [o, k] && [o, k][0 := t] == [t, k] && [t, k][1 := o] == [t, o];
    ReachTwo(k);
    Reach(Two([k, k], Idle, true), StartSends(2), Two([k, k], Sending(2, 0), true));
    Reach(Two([k, k], Sending(2, 0), true), CallSend, Two([o, k], InSend(2, 0), true));
    Reach(Two([o, k], InSend(2, 0), true), DriverTakes, Two([t, k], InSend(2, 0), true));
    Reach(Two([t, k], InSend(2, 0), true), SendReturns(Pending), Two([t, k], Sending(2, 1), true));
    Reach(Two([t, k], Sending(2, 1), true), CallSend, Two([t, o], InSend(2, 1), true));
  }

  /** MiniportSend: the driver has taken packet 0 and completes it while it refuses packet 1. */
  lemma SendStallReached(freed: Packet, found: Packet, s: State)
    requires freed == Packet(Success, Done, 1) && found == Packet(NotRecognized, Host, 0)
    requires s == Two([freed, found], Idle, false).(ring := [1], gone := [0])
    ensures Reached(s) && Stalled(s)
  {
    var o, t := Packet(NotRecognized, WithDriver, 0), Packet(NotRecognized, Owes, 0);
    TwoCompleted([t, o], InSend(2, 1), freed);
    TwoSendRefused([freed, o], found);
    TwoLeft([freed, found], Sending(2, 1), s);
    assert [t, o][0 := freed] == [freed, o] && [freed, o][1 := found] == [freed, found];
    ReachTaken(o, t);
    Reach(Two([t, o], InSend(2, 1), true), Complete(0, Success), Two([freed, o], InSend(2, 1), true));
    Reach(Two([freed, o], InSend(2, 1), true), SendReturns(Resources), Two([freed, found], Sending(2, 1), false));
    Reach(Two([freed, found], Sending(2, 1), false), LeaveLoop, Two([freed, found], Committing(1), false));
    Reach(Two([freed, found], Committing(1), false), Commit, s);
    NothingOwed([freed, found], s);
  }
}
