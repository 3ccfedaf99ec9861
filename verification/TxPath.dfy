/** Who frees a transmitted packet: the sender's and NdisMSendComplete's xchg on the packet status
    (wrapndis.c, ndis.c), for serialized drivers. Each action is one atomic step of the transmit
    worker, of the driver, or of a completion; they interleave freely. */
module TxPath {
  import opened Basics
  import opened TxRing

  type Pid = nat

  /** NDIS_STATUS_SUCCESS is 0, which is also the value a fresh packet carries. */
  datatype Status = Success | Pending | NotRecognized | Resources | Failure | Other(code: nat)

  /** What the driver owes for a packet: nothing (Host), a decision (WithDriver), one call of
      NdisMSendComplete (Owes), or nothing any more because it has made that call (Done). */
  datatype Owner = Host | WithDriver | Owes | Done

  datatype Packet = Packet(status: Status, owner: Owner, frees: nat)

  /** Where the worker is: MiniportSendPackets is running on the first n packets, their statuses
      are being examined, MiniportSend is about to be called or is running, or the loop is over. */
  datatype Pc =
    | Idle
    | Calling(n: nat)
    | Examining(n: nat, sent: int)
    | Sending(n: nat, sent: int)
    | InSend(n: nat, sent: int)
    | Committing(sent: int)

  /** ring is the FIFO that the ring buffer represents; gone is everything removed from it. */
  datatype State = State(ring: seq<Pid>, gone: seq<Pid>, packets: map<Pid, Packet>, pc: Pc, txOk: bool)

  predicate Final(s: Status) {
    s.Success? || s.Failure? || s.Other?
  }

  /** u8 arithmetic of `sent--` followed by the loop's `sent++`. */
  function U8(x: int): int {
    x % 256
  }

  function Advance(sent: int, refused: bool): int {
    U8((if refused then U8(sent - 1) else sent) + 1)
  }

  // ------------------------------------------------------------------------ steps

  datatype Action =
    | Enqueue(p: Pid)
    | StartCall(n: nat)              // MiniportSendPackets on the snapshot
    | DriverSets(p: Pid, s: Status)  // the driver stores a status during that call
    | CallReturns
    | Examine                        // one turn of the loop: xchg and switch
    | StartSends(n: nat)             // driver without MiniportSendPackets
    | CallSend                       // pre-set NOT_RECOGNIZED, call MiniportSend
    | DriverTakes                    // MiniportSend decides to finish the packet later
    | SendReturns(s: Status)
    | LeaveLoop
    | Commit
    | Complete(p: Pid, s: Status)    // NdisMSendComplete
    | ResourcesAvailable             // NdisMSendResourcesAvailable

  function Set(s: State, p: Pid, k: Packet): State {
    s.(packets := s.packets[p := k])
  }

  function Freed(k: Packet): Packet {
    k.(frees := k.frees + 1)
  }

  function Offer(packets: map<Pid, Packet>, ps: seq<Pid>): map<Pid, Packet> {
    map p | p in packets :: if p in ps then packets[p].(owner := WithDriver) else packets[p]
  }

  /** Packets the driver did not decide on go back to the host. */
  function TakeBack(packets: map<Pid, Packet>): map<Pid, Packet> {
    map p | p in packets ::
      if packets[p].owner == WithDriver then packets[p].(owner := Host) else packets[p]
  }

  /** The step can be carried out at all: the worker is at the right place and packets exist. */
  predicate Possible(s: State, a: Action) {
    match a
    case Enqueue(p) => p !in s.packets && |s.ring| < TX_RING_SIZE
    case StartCall(n) => s.pc.Idle? && s.txOk && 0 < n <= |s.ring|
    case DriverSets(p, _) => s.pc.Calling? && p in s.packets
    case CallReturns => s.pc.Calling?
    case Examine =>
      s.pc.Examining? && 0 <= s.pc.sent < s.pc.n <= |s.ring| && s.txOk && s.ring[s.pc.sent] in s.packets
    case StartSends(n) => s.pc.Idle? && s.txOk && 0 < n <= |s.ring|
    case CallSend =>
      s.pc.Sending? && 0 <= s.pc.sent < s.pc.n <= |s.ring| && s.txOk && s.ring[s.pc.sent] in s.packets
    case DriverTakes => s.pc.InSend? && 0 <= s.pc.sent < |s.ring| && s.ring[s.pc.sent] in s.packets
    case SendReturns(_) => s.pc.InSend? && 0 <= s.pc.sent < |s.ring| && s.ring[s.pc.sent] in s.packets
    case LeaveLoop => (s.pc.Examining? || s.pc.Sending?) && !(s.pc.sent < s.pc.n && s.txOk)
    case Commit => s.pc.Committing? && 0 <= s.pc.sent <= |s.ring|
    case Complete(p, _) => p in s.packets
    case ResourcesAvailable => true
  }

  function Step(s: State, a: Action): State
    requires Possible(s, a)
  {
    match a
    case Enqueue(p) => Set(s, p, Packet(Success, Host, 0)).(ring := s.ring + [p])
    case StartCall(n) => s.(pc := Calling(n), packets := Offer(s.packets, s.ring[..n]))
    case DriverSets(p, st) =>
      Set(s, p, s.packets[p].(status := st, owner := if st.Pending? then Owes else Host))
    case CallReturns => s.(pc := Examining(s.pc.n, 0), packets := TakeBack(s.packets))
    case Examine =>
      var p := s.ring[s.pc.sent];
      var k := s.packets[p];
      var k' := k.(status := NotRecognized);
      var refused := k.status.Resources?;
      Set(s, p, if k.status.Pending? || refused then k' else Freed(k'))
        .(pc := Examining(s.pc.n, Advance(s.pc.sent, refused)), txOk := s.txOk && !refused)
    case StartSends(n) => s.(pc := Sending(n, 0))
    case CallSend =>
      var p := s.ring[s.pc.sent];
      Set(s, p, s.packets[p].(status := NotRecognized, owner := WithDriver))
        .(pc := InSend(s.pc.n, s.pc.sent))
    case DriverTakes =>
      var p := s.ring[s.pc.sent];
      Set(s, p, s.packets[p].(owner := Owes))
    case SendReturns(st) =>
      var p := s.ring[s.pc.sent];
      var k := s.packets[p];
      var refused := st.Resources?;
      var k' := match st
                case Success => Freed(k.(owner := Host))
                case Failure => Freed(k.(owner := Host))
                case Resources => k.(owner := Host)
                case _ => k;
      Set(s, p, k').(pc := Sending(s.pc.n, Advance(s.pc.sent, refused)), txOk := s.txOk && !refused)
    case LeaveLoop => s.(pc := Committing(s.pc.sent))
    case Commit =>
      s.(pc := Idle, ring := s.ring[s.pc.sent..], gone := s.gone + s.ring[..s.pc.sent])
    case Complete(p, st) =>
      var k := s.packets[p];
      var k' := k.(status := st, owner := Done);
      Set(s, p, if k.status.NotRecognized? then Freed(k') else k').(txOk := true)
    case ResourcesAvailable => s.(txOk := true)
  }

  /** What the NDIS status contract asks of the driver, on top of Possible. During
      MiniportSendPackets it stores a status other than NOT_RECOGNIZED for packets it was offered,
      each at most once, deciding all of them up to the first one it refuses with RESOURCES and
      keeping none after it; a packet it stored PENDING for it completes later, once, with a final
      status. It may complete a packet without storing PENDING first only during the call, and only
      if the packet was not refused before. MiniportSend returns PENDING exactly for the packets
      it took. */
  predicate Allowed(s: State, a: Action)
    requires Possible(s, a)
  {
    match a
    case DriverSets(p, st) => s.packets[p].owner == WithDriver && !st.NotRecognized?
    case CallReturns => DecidedPrefix(s)
    case DriverTakes => s.packets[s.ring[s.pc.sent]].owner == WithDriver
    case SendReturns(st) =>
      var k := s.packets[s.ring[s.pc.sent]];
      if st.Pending? then k.owner != WithDriver
      else (st.Success? || st.Failure? || st.Resources?) && k.owner == WithDriver
    case Complete(p, st) =>
      && Final(st)
      && (s.packets[p].owner == Owes
          || (s.packets[p].owner == WithDriver && s.pc.Calling?
              && !s.packets[p].status.NotRecognized?))
    case _ => true
  }

  /** When MiniportSendPackets returns: packets before the first refusal are decided, packets
      after it are refused too or were left alone. */
  predicate DecidedPrefix(s: State)
    requires s.pc.Calling?
  {
    s.pc.n <= |s.ring| && (forall p :: p in s.ring ==> p in s.packets) &&
    exists c :: 0 <= c <= s.pc.n && CutAt(s, c)
  }

  predicate CutAt(s: State, c: int)
    requires s.pc.Calling? && 0 <= c <= s.pc.n <= |s.ring|
    requires forall p :: p in s.ring ==> p in s.packets
  {
    && (forall i :: 0 <= i < c ==>
          s.packets[s.ring[i]].owner != WithDriver && !s.packets[s.ring[i]].status.Resources?)
    && (c < s.pc.n ==> s.packets[s.ring[c]].owner == Host && s.packets[s.ring[c]].status.Resources?)
    && (forall i :: c < i < s.pc.n ==>
          s.packets[s.ring[i]].owner == WithDriver
          || (s.packets[s.ring[i]].owner == Host && s.packets[s.ring[i]].status.Resources?))
  }

  // -------------------------------------------------------------------- invariant

  /** The worker is done with the packet: it has been freed once and nobody owes anything, or it
      is unfreed and the completion the driver owes will find NOT_RECOGNIZED and free it. */
  predicate Left(k: Packet) {
    || (k.frees == 1 && (k.owner == Host || k.owner == Done))
    || (k.frees == 0 && k.owner == Owes && k.status.NotRecognized?)
  }

  /** In the ring, with no claim on it. */
  predicate Waiting(k: Packet) {
    k.frees == 0 && k.owner == Host && !k.status.Pending?
  }

  /** Offered to MiniportSendPackets. */
  predicate Offered(k: Packet) {
    k.frees == 0 && match k.owner
                    case WithDriver => !k.status.Pending?
                    case Owes => k.status.Pending?
                    case Host => !k.status.Pending? && !k.status.NotRecognized?
                    case Done => Final(k.status)
  }

  /** After MiniportSendPackets has returned, not examined yet. */
  predicate Decided(k: Packet) {
    k.frees == 0 && match k.owner
                    case WithDriver => false
                    case Owes => k.status.Pending?
                    case Host => !k.status.Pending?
                    case Done => Final(k.status)
  }

  /** Inside MiniportSend. */
  predicate Current(k: Packet) {
    || (k.frees == 0 && k.status.NotRecognized? && (k.owner == WithDriver || k.owner == Owes))
    || (k.frees == 1 && k.owner == Done)
  }

  predicate Refused(k: Packet) {
    k.owner == Host && (k.status.Resources? || k.status.NotRecognized?)
  }

  predicate PcInRange(s: State) {
    match s.pc
    case Idle => true
    case Calling(n) => n <= |s.ring| && s.txOk
    case Examining(n, sent) => 0 <= sent <= n <= |s.ring|
    case Sending(n, sent) => 0 <= sent <= n <= |s.ring|
    case InSend(n, sent) => 0 <= sent < n <= |s.ring|
    case Committing(sent) => 0 <= sent <= |s.ring|
  }

  /** Packets at the front of the ring that the worker is done with. */
  function Processed(pc: Pc): int {
    if pc.Idle? || pc.Calling? then 0 else pc.sent
  }

  predicate SlotInv(pc: Pc, i: int, k: Packet) {
    if i < Processed(pc) then Left(k)
    else match pc
         case Calling(n) => if i < n then Offered(k) else Waiting(k)
         case Examining(n, _) => if i < n then Decided(k) else Waiting(k)
         case InSend(_, sent) => if i == sent then Current(k) else Waiting(k)
         case _ => Waiting(k)
  }

  predicate Known(s: State) {
    && |s.ring| <= TX_RING_SIZE
    && (forall p :: p in s.ring ==> p in s.packets)
    && (forall p :: p in s.gone ==> p in s.packets && p !in s.ring)
    && (forall p :: p in s.packets ==> p in s.ring || p in s.gone)
    && Distinct(s.ring) && Distinct(s.gone)
  }

  /** Once a packet of the batch was refused, the driver kept none after it; and once the loop is
      told to stop, everything from the cursor on is unclaimed. */
  predicate StopsCleanly(s: State)
    requires Known(s) && s.pc.Examining? && PcInRange(s)
  {
    && (forall i, j :: s.pc.sent <= i < j < s.pc.n && Refused(s.packets[s.ring[i]]) ==>
          s.packets[s.ring[j]].owner == Host)
    && (!s.txOk ==> forall i :: s.pc.sent <= i < s.pc.n ==> Waiting(s.packets[s.ring[i]]))
  }

  predicate Inv(s: State) {
    && Known(s) && PcInRange(s)
    && (forall i :: 0 <= i < |s.ring| ==> SlotInv(s.pc, i, s.packets[s.ring[i]]))
    && (forall p :: p in s.gone ==> Left(s.packets[p]))
    && (s.pc.Examining? ==> StopsCleanly(s))
  }

  // ----------------------------------------------------------------- preservation

  lemma AdvanceValue(sent: int, refused: bool)
    requires 0 <= sent < TX_RING_SIZE
    ensures Advance(sent, refused) == if refused then sent else sent + 1
  {
  }

  /** Changing one packet of the ring, by place. */
  lemma SetAt(s: State, i: int, k: Packet)
    requires Known(s) && 0 <= i < |s.ring|
    ensures var s' := Set(s, s.ring[i], k);
            && Known(s')
            && (forall j :: 0 <= j < |s.ring| && j != i ==> s'.packets[s.ring[j]] == s.packets[s.ring[j]])
            && (forall p :: p in s.gone ==> s'.packets[p] == s.packets[p])
  {
  }

  lemma EnqueueKnown(s: State, p: Pid)
    requires Known(s) && Possible(s, Enqueue(p))
    ensures Known(Step(s, Enqueue(p)))
  {
    assert p !in s.ring;
    DistinctSnoc(s.ring, p);
  }

  lemma EnqueueKeeps(s: State, p: Pid)
    requires Inv(s) && Possible(s, Enqueue(p))
    ensures Inv(Step(s, Enqueue(p)))
  {
    var s' := Step(s, Enqueue(p));
    EnqueueKnown(s, p);
    assert forall i :: 0 <= i < |s.ring| ==> s'.ring[i] == s.ring[i] && s.ring[i] in s.ring && s.ring[i] != p;
    forall i | 0 <= i < |s'.ring|
      ensures SlotInv(s'.pc, i, s'.packets[s'.ring[i]])
    {
      assert i < |s.ring| ==> SlotInv(s.pc, i, s.packets[s.ring[i]]);
    }
  }

  lemma StartCallKeeps(s: State, n: nat)
    requires Inv(s) && Possible(s, StartCall(n))
    ensures Inv(Step(s, StartCall(n)))
  {
    var s' := Step(s, StartCall(n));
    assert forall p :: p in s.ring[..n] ==> p in s.ring;
    forall i | 0 <= i < |s.ring|
      ensures SlotInv(s'.pc, i, s'.packets[s.ring[i]])
    {
      assert SlotInv(s.pc, i, s.packets[s.ring[i]]);
      assert i < n ==> s.ring[..n][i] == s.ring[i];
    }
  }

  lemma CallReturnsKeeps(s: State)
    requires Inv(s) && Possible(s, CallReturns) && Allowed(s, CallReturns)
    ensures Inv(Step(s, CallReturns))
  {
    var s' := Step(s, CallReturns);
    var c :| 0 <= c <= s.pc.n && CutAt(s, c);
    forall i | 0 <= i < |s.ring|
      ensures SlotInv(s'.pc, i, s'.packets[s.ring[i]])
    {
      assert SlotInv(s.pc, i, s.packets[s.ring[i]]);
    }
    forall i, j | 0 <= i < j < s.pc.n && Refused(s'.packets[s.ring[i]])
      ensures s'.packets[s.ring[j]].owner == Host
    {
      assert SlotInv(s.pc, i, s.packets[s.ring[i]]);
    }
  }

  lemma DriverSetsKeeps(s: State, a: Action)
    requires Inv(s) && a.DriverSets? && Possible(s, a) && Allowed(s, a)
    ensures Inv(Step(s, a))
  {
    var i := PlaceOf(s, a.p);
    var s' := Step(s, a);
    SetAt(s, i, s'.packets[a.p]);
    assert SlotInv(s.pc, i, s.packets[a.p]);
  }

  /** A packet the driver has a claim on during a call sits in the ring. */
  lemma PlaceOf(s: State, p: Pid) returns (i: int)
    requires Inv(s) && p in s.packets && s.packets[p].owner == WithDriver
    ensures 0 <= i < |s.ring| && s.ring[i] == p
  {
    assert p in s.ring;
    i :| 0 <= i < |s.ring| && s.ring[i] == p;
  }

  lemma ExamineKeeps(s: State)
    requires Inv(s) && Possible(s, Examine)
    ensures Inv(Step(s, Examine))
  {
    var i, n := s.pc.sent, s.pc.n;
    var p, s' := s.ring[i], Step(s, Examine);
    var k := s.packets[p];
    AdvanceValue(i, k.status.Resources?);
    SetAt(s, i, s'.packets[p]);
    assert SlotInv(s.pc, i, k);
    forall j | 0 <= j < |s.ring|
      ensures SlotInv(s'.pc, j, s'.packets[s.ring[j]])
    {
      assert SlotInv(s.pc, j, s.packets[s.ring[j]]);
    }
    if k.status.Resources? {
      assert Refused(k);
      forall j | i <= j < n
        ensures Waiting(s'.packets[s.ring[j]])
      {
        assert SlotInv(s.pc, j, s.packets[s.ring[j]]);
      }
    }
  }

  lemma SendKeeps(s: State, a: Action)
    requires Inv(s) && (a.CallSend? || a.DriverTakes? || a.SendReturns?) && Possible(s, a) && Allowed(s, a)
    ensures Inv(Step(s, a))
  {
    var i := s.pc.sent;
    var p, s' := s.ring[i], Step(s, a);
    AdvanceValue(i, a.SendReturns? && a.s.Resources?);
    SetAt(s, i, s'.packets[p]);
    assert SlotInv(s.pc, i, s.packets[p]);
    forall j | 0 <= j < |s.ring|
      ensures SlotInv(s'.pc, j, s'.packets[s.ring[j]])
    {
      assert SlotInv(s.pc, j, s.packets[s.ring[j]]);
    }
  }

  lemma LoopKeeps(s: State, a: Action)
    requires Inv(s) && (a.LeaveLoop? || a.StartSends? || a.ResourcesAvailable?) && Possible(s, a)
    ensures Inv(Step(s, a))
  {
    var s' := Step(s, a);
    forall j | 0 <= j < |s.ring|
      ensures SlotInv(s'.pc, j, s'.packets[s.ring[j]])
    {
      assert SlotInv(s.pc, j, s.packets[s.ring[j]]);
    }
  }

  /** Moving a prefix of one distinct sequence behind another keeps both distinct and apart. */
  lemma MovePrefix(ring: seq<Pid>, gone: seq<Pid>, n: nat)
    requires n <= |ring| && Distinct(ring) && Distinct(gone)
    requires forall p :: p in gone ==> p !in ring
    ensures Distinct(ring[n..]) && Distinct(gone + ring[..n])
    ensures forall p :: p in gone + ring[..n] ==> p !in ring[n..]
    ensures forall p :: p in ring || p in gone <==> p in ring[n..] || p in gone + ring[..n]
  {
    assert ring == ring[..n] + ring[n..];
    assert forall p :: p in gone + ring[..n] <==> p in gone || p in ring[..n];
    assert forall p :: p in ring <==> p in ring[..n] || p in ring[n..];
    forall i, j | 0 <= i < |gone| && 0 <= j < |ring|
      ensures gone[i] != ring[j]
    {
      assert gone[i] in gone && ring[j] in ring;
    }
  }

  lemma CommitKeeps(s: State)
    requires Inv(s) && Possible(s, Commit)
    ensures Inv(Step(s, Commit))
  {
    var n, s' := s.pc.sent, Step(s, Commit);
    MovePrefix(s.ring, s.gone, n);
    forall p | p in s'.gone
      ensures Left(s'.packets[p])
    {
      if p !in s.gone {
        var i :| 0 <= i < n && s.ring[..n][i] == p;
        assert SlotInv(s.pc, i, s.packets[s.ring[i]]);
      }
    }
    forall i | 0 <= i < |s'.ring|
      ensures SlotInv(s'.pc, i, s'.packets[s'.ring[i]])
    {
      assert SlotInv(s.pc, n + i, s.packets[s.ring[n + i]]);
    }
  }

  lemma CompleteInRing(s: State, a: Action, i: int)
    requires Inv(s) && a.Complete? && Possible(s, a) && Allowed(s, a)
    requires 0 <= i < |s.ring| && s.ring[i] == a.p
    ensures Inv(Step(s, a))
  {
    var s' := Step(s, a);
    SetAt(s, i, s'.packets[a.p]);
    assert SlotInv(s.pc, i, s.packets[s.ring[i]]);
    assert SlotInv(s'.pc, i, s'.packets[s.ring[i]]);
    forall j | 0 <= j < |s.ring| && j != i
      ensures SlotInv(s'.pc, j, s'.packets[s.ring[j]])
    {
      assert SlotInv(s.pc, j, s.packets[s.ring[j]]);
    }
  }

  lemma CompleteKeeps(s: State, a: Action)
    requires Inv(s) && a.Complete? && Possible(s, a) && Allowed(s, a)
    ensures Inv(Step(s, a))
  {
    if a.p in s.ring {
      var i :| 0 <= i < |s.ring| && s.ring[i] == a.p;
      CompleteInRing(s, a, i);
    } else {
      assert Left(s.packets[a.p]);
      var s' := Step(s, a);
      assert forall j :: 0 <= j < |s.ring| ==> s.ring[j] in s.ring && s'.packets[s.ring[j]] == s.packets[s.ring[j]];
    }
  }

  lemma StepKeeps(s: State, a: Action)
    requires Inv(s) && Possible(s, a) && Allowed(s, a)
    ensures Inv(Step(s, a))
  {
    match a
    case Enqueue(p) => EnqueueKeeps(s, p);
    case StartCall(n) => StartCallKeeps(s, n);
    case DriverSets(_, _) => DriverSetsKeeps(s, a);
    case CallReturns => CallReturnsKeeps(s);
    case Examine => ExamineKeeps(s);
    case StartSends(_) => LoopKeeps(s, a);
    case CallSend => SendKeeps(s, a);
    case DriverTakes => SendKeeps(s, a);
    case SendReturns(_) => SendKeeps(s, a);
    case LeaveLoop => LoopKeeps(s, a);
    case Commit => CommitKeeps(s);
    case Complete(_, _) => CompleteKeeps(s, a);
    case ResourcesAvailable => LoopKeeps(s, a);
  }

  // ------------------------------------------------------------------------- runs

  const INITIAL: State := State([], [], map[], Idle, true)

  function Exec(s: State, actions: seq<Action>): (r: Option<State>)
    requires Inv(s)
    ensures r.Some? ==> Inv(r.value)
    decreases |actions|
  {
    if actions == [] then Some(s)
    else if !Possible(s, actions[0]) || !Allowed(s, actions[0]) then None
    else
      StepKeeps(s, actions[0]);
      Exec(Step(s, actions[0]), actions[1..])
  }

  /** In every run with a driver that obeys the contract: no packet is freed twice; a packet that
      has left the ring has been freed, except that it waits, unfreed, for the one completion the
      driver still owes; and nothing at or behind the worker's cursor has been freed, except that
      the driver may complete the packet it has just taken from inside MiniportSend. */
  lemma FreedExactlyOnce(actions: seq<Action>, s: State)
    requires Exec(INITIAL, actions) == Some(s)
    ensures forall p :: p in s.packets ==> s.packets[p].frees <= 1
    ensures forall p :: p in s.gone ==> (s.packets[p].frees == 1 <==> s.packets[p].owner != Owes)
    ensures forall p :: p in s.packets ==> p in s.ring || p in s.gone
    ensures forall i :: Processed(s.pc) <= i < |s.ring| ==>
              s.packets[s.ring[i]].frees == 0 || (s.pc.InSend? && i == s.pc.sent && s.packets[s.ring[i]].owner == Done)
  {
    forall i | Processed(s.pc) <= i < |s.ring|
      ensures s.packets[s.ring[i]].frees == 0 || (s.pc.InSend? && i == s.pc.sent && s.packets[s.ring[i]].owner == Done)
    {
      assert SlotInv(s.pc, i, s.packets[s.ring[i]]);
    }
    forall p | p in s.packets
      ensures s.packets[p].frees <= 1
      ensures p in s.gone ==> (s.packets[p].frees == 1 <==> s.packets[p].owner != Owes)
    {
      if p in s.ring {
        var i :| 0 <= i < |s.ring| && s.ring[i] == p;
        assert SlotInv(s.pc, i, s.packets[s.ring[i]]);
      } else {
        assert Left(s.packets[p]);
      }
    }
  }

  /** The completion that was owed does free, when the packet has left the ring. */
  lemma OwedCompletionFrees(s: State, p: Pid, st: Status)
    requires Inv(s) && p in s.gone && s.packets[p].owner == Owes
    requires Possible(s, Complete(p, st)) && Allowed(s, Complete(p, st))
    ensures Step(s, Complete(p, st)).packets[p].frees == 1
    ensures Step(s, Complete(p, st)).packets[p].owner == Done
  {
    assert Left(s.packets[p]);
  }

  /** Neither party touches a packet after it was freed. */
  lemma NoUseAfterFree(s: State, a: Action)
    requires Inv(s) && Possible(s, a) && Allowed(s, a)
    ensures a.Examine? || a.CallSend? ==> s.packets[s.ring[s.pc.sent]].frees == 0
    ensures a.Complete? || a.DriverSets? ==> s.packets[a.p].frees == 0
    ensures a.SendReturns? && !a.s.Pending? ==> s.packets[s.ring[s.pc.sent]].frees == 0
  {
    if a.Examine? || a.CallSend? || a.SendReturns? {
      var i := s.pc.sent;
      assert SlotInv(s.pc, i, s.packets[s.ring[i]]);
    } else if a.Complete? || a.DriverSets? {
      if a.p in s.ring {
        var i :| 0 <= i < |s.ring| && s.ring[i] == a.p;
        assert SlotInv(s.pc, i, s.packets[s.ring[i]]);
      } else {
        assert Left(s.packets[a.p]);
      }
    }
  }

  // ------------------------------------------------------------------------ order

  function Accepted(a: Action): seq<Pid> {
    if a.Enqueue? then [a.p] else []
  }

  /** The packets a run accepts, in order. */
  function Enqueued(actions: seq<Action>): seq<Pid> {
    if actions == [] then [] else Accepted(actions[0]) + Enqueued(actions[1..])
  }

  /** Only acceptance adds to the ring, and only Commit takes from it. */
  lemma StepRing(s: State, a: Action)
    requires Possible(s, a)
    ensures !a.Commit? ==> Step(s, a).ring == s.ring + Accepted(a) && Step(s, a).gone == s.gone
    ensures a.Commit? ==> Step(s, a).gone + Step(s, a).ring == s.gone + s.ring
  {
    if a.Commit? {
      assert s.ring == s.ring[..s.pc.sent] + s.ring[s.pc.sent..];
    }
  }

  lemma Assoc(x: seq<Pid>, y: seq<Pid>, z: seq<Pid>)
    ensures (x + y) + z == x + (y + z)
  {
  }

  lemma StepOrder(s: State, a: Action)
    requires Possible(s, a)
    ensures Step(s, a).gone + Step(s, a).ring == (s.gone + s.ring) + Accepted(a)
  {
    StepRing(s, a);
    Assoc(s.gone, s.ring, Accepted(a));
    assert a.Commit? ==> (s.gone + s.ring) + [] == s.gone + s.ring;
  }

  lemma {:induction false} ExecOrder(s: State, actions: seq<Action>, t: State)
    requires Inv(s) && Exec(s, actions) == Some(t)
    ensures t.gone + t.ring == (s.gone + s.ring) + Enqueued(actions)
    decreases |actions|
  {
    if actions == [] {
      assert (s.gone + s.ring) + [] == s.gone + s.ring;
    } else {
      var a, rest := actions[0], actions[1..];
      StepKeeps(s, a);
      StepOrder(s, a);
      ExecOrder(Step(s, a), rest, t);
      Assoc(s.gone + s.ring, Accepted(a), Enqueued(rest));
    }
  }

  /** In every run, what has left the ring and then what is in it are the accepted packets, in the
      order of acceptance. */
  lemma LeavesInOrder(actions: seq<Action>, t: State)
    requires Exec(INITIAL, actions) == Some(t)
    ensures t.gone + t.ring == Enqueued(actions)
  {
    ExecOrder(INITIAL, actions, t);
  }

  // ----------------------------------------------------- packets refused with RESOURCES

  /** What sets tx_ok again. */
  predicate Wakes(a: Action) {
    a.Complete? || a.ResourcesAvailable?
  }

  /** tx_ok is set again before the worker has left its loop. */
  predicate WokenInLoop(actions: seq<Action>) {
    actions != [] && !actions[0].LeaveLoop? && (Wakes(actions[0]) || WokenInLoop(actions[1..]))
  }

  /** The worker's cursor is at p, which was refused and which nobody has a claim on. */
  predicate AtRefused(s: State, c: int, p: Pid) {
    && Inv(s) && s.pc.Examining? && 0 <= c == s.pc.sent < s.pc.n <= |s.ring| && s.ring[c] == p
    && s.packets[p] == Packet(NotRecognized, Host, 0)
  }

  /** p lies behind the cursor, freed, without the driver having taken it. */
  predicate FreedUnsent(s: State, c: int, p: Pid) {
    && Inv(s) && (s.pc.Examining? || s.pc.Committing?) && 0 <= c < s.pc.sent && c < |s.ring| && s.ring[c] == p
    && s.packets[p].frees == 1 && s.packets[p].owner == Host
  }

  lemma NotTheOnlyOne(s: State, i: int, j: int)
    requires Inv(s) && 0 <= i < |s.ring| && 0 <= j < |s.ring| && i != j
    ensures s.ring[i] != s.ring[j]
  {
  }

  lemma AtRefusedStep(s: State, c: int, p: Pid, a: Action)
    requires AtRefused(s, c, p) && Possible(s, a) && Allowed(s, a) && !a.Commit?
    ensures a.LeaveLoop? ==> !s.txOk && Step(s, a).pc == Committing(c) && Inv(Step(s, a))
    ensures a.Examine? ==> s.txOk && FreedUnsent(Step(s, a), c, p)
    ensures !a.LeaveLoop? && !a.Examine? ==>
              AtRefused(Step(s, a), c, p) && Step(s, a).txOk == (s.txOk || Wakes(a))
  {
    StepKeeps(s, a);
    StepRing(s, a);
    AdvanceValue(c, false);
  }

  lemma FreedUnsentStep(s: State, c: int, p: Pid, a: Action)
    requires FreedUnsent(s, c, p) && Possible(s, a) && Allowed(s, a) && !a.Commit?
    ensures FreedUnsent(Step(s, a), c, p)
  {
    StepKeeps(s, a);
    StepRing(s, a);
    if a.Examine? {
      NotTheOnlyOne(s, c, s.pc.sent);
      AdvanceValue(s.pc.sent, s.packets[s.ring[s.pc.sent]].status.Resources?);
    }
  }

  lemma {:induction false} FreedUnsentStays(s: State, c: int, p: Pid, actions: seq<Action>, v: State)
    requires FreedUnsent(s, c, p) && Commit !in actions && Exec(s, actions) == Some(v)
    ensures FreedUnsent(v, c, p)
    decreases |actions|
  {
    if actions != [] {
      FreedUnsentStep(s, c, p, actions[0]);
      FreedUnsentStays(Step(s, actions[0]), c, p, actions[1..], v);
    }
  }

  /** Woken in the loop, the worker goes on to the refused packet and frees it. */
  lemma {:induction false} WokenFrees(s: State, c: int, p: Pid, actions: seq<Action>, v: State)
    requires AtRefused(s, c, p) && (s.txOk || WokenInLoop(actions))
    requires Commit !in actions && Exec(s, actions) == Some(v) && v.pc.Committing?
    ensures FreedUnsent(v, c, p)
    decreases |actions|
  {
    var a, rest := actions[0], actions[1..];
    AtRefusedStep(s, c, p, a);
    if a.Examine? {
      FreedUnsentStays(Step(s, a), c, p, rest, v);
    } else {
      WokenFrees(Step(s, a), c, p, rest, v);
    }
  }

  /** Without Commit the ring only grows. */
  lemma {:induction false} RingGrows(s: State, actions: seq<Action>, v: State)
    requires Inv(s) && Commit !in actions && Exec(s, actions) == Some(v)
    ensures v.ring == s.ring + Enqueued(actions)
    decreases |actions|
  {
    if actions != [] {
      var a, rest := actions[0], actions[1..];
      StepKeeps(s, a);
      StepRing(s, a);
      RingGrows(Step(s, a), rest, v);
      Assoc(s.ring, Accepted(a), Enqueued(rest));
    }
  }

  lemma {:induction false} CommittingStays(s: State, actions: seq<Action>, v: State)
    requires Inv(s) && s.pc.Committing? && Commit !in actions && Exec(s, actions) == Some(v)
    ensures v.pc == s.pc
    decreases |actions|
  {
    if actions != [] {
      StepKeeps(s, actions[0]);
      CommittingStays(Step(s, actions[0]), actions[1..], v);
    }
  }

  /** Not woken, the worker leaves the loop with its cursor at the refused packet. */
  lemma {:induction false} UnwokenStays(s: State, c: int, p: Pid, actions: seq<Action>, v: State)
    requires AtRefused(s, c, p) && !s.txOk && !WokenInLoop(actions)
    requires Commit !in actions && Exec(s, actions) == Some(v) && v.pc.Committing?
    ensures v.pc.sent == c
    decreases |actions|
  {
    var a, rest := actions[0], actions[1..];
    AtRefusedStep(s, c, p, a);
    if a.LeaveLoop? {
      CommittingStays(Step(s, a), rest, v);
    } else {
      UnwokenStays(Step(s, a), c, p, rest, v);
    }
  }

  lemma RefusedHere(s: State)
    requires Inv(s) && Possible(s, Examine) && s.packets[s.ring[s.pc.sent]].status.Resources?
    ensures AtRefused(Step(s, Examine), s.pc.sent, s.ring[s.pc.sent]) && !Step(s, Examine).txOk
    ensures Step(s, Examine).ring == s.ring
  {
    var c := s.pc.sent;
    assert SlotInv(s.pc, c, s.packets[s.ring[c]]);
    ExamineKeeps(s);
    AdvanceValue(c, true);
  }

  /** A packet that MiniportSendPackets refused, with all behind it, stays in the ring if and only if
      nothing sets tx_ok between the refusal and the end of the loop. Otherwise it leaves the ring and
      is freed, although the driver has not taken it. */
  lemma Resubmitted(s: State, actions: seq<Action>, v: State)
    requires Inv(s) && Possible(s, Examine) && s.packets[s.ring[s.pc.sent]].status.Resources?
    requires Inv(Step(s, Examine)) && Exec(Step(s, Examine), actions) == Some(v)
    requires Commit !in actions && v.pc.Committing?
    ensures Possible(v, Commit)
    ensures Step(v, Commit).ring == s.ring[s.pc.sent..] + Enqueued(actions) <==> !WokenInLoop(actions)
    ensures WokenInLoop(actions) ==>
              var p := s.ring[s.pc.sent];
              p in Step(v, Commit).gone && p in v.packets && v.packets[p].frees == 1 && v.packets[p].owner == Host
  {
    var c, p, u := s.pc.sent, s.ring[s.pc.sent], Step(s, Examine);
    RefusedHere(s);
    RingGrows(u, actions, v);
    if WokenInLoop(actions) {
      WokenFrees(u, c, p, actions, v);
      LostFromRing(v, c, p);
      assert p == (s.ring[c..] + Enqueued(actions))[0];
    } else {
      UnwokenStays(u, c, p, actions, v);
      CutBoth(s.ring, Enqueued(actions), c);
    }
  }

  lemma CutBoth(a: seq<Pid>, b: seq<Pid>, c: int)
    requires 0 <= c <= |a|
    ensures (a + b)[c..] == a[c..] + b
  {
  }

  lemma LostFromRing(v: State, c: int, p: Pid)
    requires FreedUnsent(v, c, p) && v.pc.Committing?
    ensures p in v.ring[..v.pc.sent] && p !in v.ring[v.pc.sent..]
  {
    assert v.ring[..v.pc.sent][c] == p;
  }

  /** The cursor of MiniportSend's loop, with nothing sent since. */
  predicate StillAt(pc: Pc, c: int) {
    (pc.Sending? && pc.sent == c) || pc == Committing(c)
  }

  lemma {:induction false} SendStays(s: State, c: int, actions: seq<Action>, v: State)
    requires Inv(s) && StillAt(s.pc, c) && Commit !in actions && CallSend !in actions && Exec(s, actions) == Some(v)
    ensures StillAt(v.pc, c)
    decreases |actions|
  {
    if actions != [] {
      StepKeeps(s, actions[0]);
      assert actions[0] in actions;
      SendStays(Step(s, actions[0]), c, actions[1..], v);
    }
  }

  /** A packet that MiniportSend refused stays in the ring, with all behind it, until MiniportSend is
      called again, whatever sets tx_ok. */
  lemma ResentBySend(s: State, actions: seq<Action>, v: State)
    requires Inv(s) && Possible(s, SendReturns(Resources)) && Allowed(s, SendReturns(Resources))
    requires Inv(Step(s, SendReturns(Resources))) && Exec(Step(s, SendReturns(Resources)), actions) == Some(v)
    requires Commit !in actions && CallSend !in actions && v.pc.Committing?
    ensures Possible(v, Commit) && Step(v, Commit).ring == s.ring[s.pc.sent..] + Enqueued(actions)
  {
    var c, u := s.pc.sent, Step(s, SendReturns(Resources));
    AdvanceValue(c, true);
    SendStays(u, c, actions, v);
    RingGrows(u, actions, v);
    CutBoth(s.ring, Enqueued(actions), c);
  }

  // ----------------------------------------------------- whether the worker goes on again

  /** A completion is still to come. */
  ghost predicate Owed(s: State) {
    exists p :: p in s.packets && s.packets[p].owner == Owes
  }

  /** A paused worker has a completion coming, which will set tx_ok. */
  ghost predicate PausedIsOwed(s: State) {
    !s.txOk ==> Owed(s)
  }

  /** The step that clears tx_ok. */
  predicate Refusal(s: State, a: Action)
    requires Possible(s, a)
  {
    (a == Examine && s.packets[s.ring[s.pc.sent]].status.Resources?) || a == SendReturns(Resources)
  }

  /** Who owes a completion goes on owing it until he makes it. */
  lemma OwesOn(s: State, a: Action, p: Pid)
    requires Inv(s) && Possible(s, a) && Allowed(s, a) && p in s.packets && s.packets[p].owner == Owes
    requires !a.Complete?
    ensures p in Step(s, a).packets && Step(s, a).packets[p].owner == Owes
  {
    if a.StartCall? {
      forall i | 0 <= i < a.n
        ensures s.ring[..a.n][i] != p
      {
        assert SlotInv(s.pc, i, s.packets[s.ring[i]]);
      }
    } else if a.CallSend? {
      assert SlotInv(s.pc, s.pc.sent, s.packets[s.ring[s.pc.sent]]);
    }
  }

  lemma RefusalOwes(s: State, a: Action)
    requires Inv(s) && Possible(s, a) && Allowed(s, a) && Refusal(s, a) && Owed(Step(s, a))
    ensures Owed(s)
  {
    var p :| p in Step(s, a).packets && Step(s, a).packets[p].owner == Owes;
    assert p in s.packets && s.packets[p].owner == Owes;
  }

  /** A step keeps it that a paused worker has a completion coming, if and only if it is not a refusal
      made while nothing is owed. The completions that a refusal counts on may come before it: then
      tx_ok is set too early, and cleared for good. */
  lemma PauseStep(s: State, a: Action)
    requires Inv(s) && Possible(s, a) && Allowed(s, a) && PausedIsOwed(s)
    ensures PausedIsOwed(Step(s, a)) <==> !(Refusal(s, a) && !Owed(s))
  {
    if Refusal(s, a) && !Owed(s) {
      if Owed(Step(s, a)) {
        RefusalOwes(s, a);
      }
    } else if Owed(s) && !a.Complete? {
      var p :| p in s.packets && s.packets[p].owner == Owes;
      OwesOn(s, a, p);
    }
  }

  /** Every refusal of the run is made while a completion is owed. */
  ghost predicate Backed(s: State, actions: seq<Action>)
    requires Inv(s)
    decreases |actions|
  {
    actions == [] || !Possible(s, actions[0]) || !Allowed(s, actions[0]) ||
    (!(Refusal(s, actions[0]) && !Owed(s)) && (StepKeeps(s, actions[0]); Backed(Step(s, actions[0]), actions[1..])))
  }

  lemma {:induction false} BackedExec(s: State, actions: seq<Action>, t: State)
    requires Inv(s) && PausedIsOwed(s) && Backed(s, actions) && Exec(s, actions) == Some(t)
    ensures PausedIsOwed(t)
    decreases |actions|
  {
    if actions != [] {
      PauseStep(s, actions[0]);
      StepKeeps(s, actions[0]);
      BackedExec(Step(s, actions[0]), actions[1..], t);
    }
  }

  /** In every such run a paused worker can be woken: a completion is owed, the driver may make it, and
      it sets tx_ok, so that a worker at rest can offer what is in the ring. */
  lemma PauseEnds(actions: seq<Action>, s: State) returns (a: Action)
    requires Exec(INITIAL, actions) == Some(s) && Backed(INITIAL, actions) && !s.txOk
    ensures a.Complete? && Possible(s, a) && Allowed(s, a) && Step(s, a).txOk
    ensures s.pc.Idle? && s.ring != [] ==> Possible(Step(s, a), StartCall(1)) && Possible(Step(s, a), StartSends(1))
  {
    BackedExec(INITIAL, actions, s);
    var p :| p in s.packets && s.packets[p].owner == Owes;
    a := Complete(p, Success);
  }

  /** Paused with nothing owed. */
  ghost predicate Stalled(s: State) {
    Inv(s) && !s.txOk && !Owed(s) && !s.pc.InSend?
  }

  /** Only NdisMSendResourcesAvailable ends it; the worker makes no offer. */
  lemma StalledStep(s: State, a: Action)
    requires Stalled(s) && Possible(s, a) && Allowed(s, a)
    ensures Stalled(Step(s, a)) <==> a != ResourcesAvailable
    ensures !a.StartCall? && !a.CallSend? && !a.Examine? && !a.Complete?
  {
    StepKeeps(s, a);
    forall p | p in Step(s, a).packets
      ensures Step(s, a).packets[p].owner != Owes
    {
      assert p in s.packets ==> s.packets[p].owner != Owes;
    }
  }

  lemma {:induction false} StalledForEver(s: State, actions: seq<Action>, t: State)
    requires Stalled(s) && ResourcesAvailable !in actions && Exec(s, actions) == Some(t)
    ensures Stalled(t) && forall k :: 0 <= k < |actions| ==> !actions[k].StartCall? && !actions[k].CallSend?
    decreases |actions|
  {
    if actions != [] {
      StalledStep(s, actions[0]);
      StalledForEver(Step(s, actions[0]), actions[1..], t);
      assert forall k :: 1 <= k < |actions| ==> actions[k] == actions[1..][k - 1];
    }
  }

  /** A driver that completes a packet inside MiniportSendPackets without storing PENDING first
      keeps the handshake sound exactly when the packet was not refused before. */
  lemma UnsetCompletion(s: State, p: Pid, st: Status)
    requires Inv(s) && s.pc.Calling? && p in s.packets && s.packets[p].owner == WithDriver && Final(st)
    ensures Inv(Step(s, Complete(p, st))) <==> !s.packets[p].status.NotRecognized?
  {
    if s.packets[p].status.NotRecognized? {
      var i := PlaceOf(s, p);
      var s' := Step(s, Complete(p, st));
      assert SlotInv(s.pc, i, s.packets[s.ring[i]]);
      assert s'.packets[s.ring[i]].frees == 1;
      assert !SlotInv(s'.pc, i, s'.packets[s.ring[i]]);
    } else {
      CompleteKeeps(s, Complete(p, st));
    }
  }
}
