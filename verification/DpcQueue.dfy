/** The DPC queue of ntoskernel.c, over the intrusive list. Each method is one critical section
    under kdpc_list_lock. */
module DpcQueue {
  import opened NtList

  type Ticket = nat

  // ------------------------------------------------------------ history of a queue

  /** Accepted queueings, numbered in order of acceptance: those linked, in list order; whether
      each was of high importance; those run and those removed, in order. */
  datatype History = History(linked: seq<Ticket>, high: seq<bool>, ran: seq<Ticket>, removed: seq<Ticket>)

  function Accept(h: History, high: bool): History {
    var t := |h.high|;
    h.(linked := if high then [t] + h.linked else h.linked + [t], high := h.high + [high])
  }

  function Run(h: History): History
    requires h.linked != []
  {
    h.(linked := h.linked[1..], ran := h.ran + [h.linked[0]])
  }

  function Remove(h: History, k: nat): History
    requires k < |h.linked|
  {
    h.(linked := h.linked[..k] + h.linked[k + 1..], removed := h.removed + [h.linked[k]])
  }

  predicate Normal(h: History, t: Ticket) {
    t < |h.high| && !h.high[t]
  }

  /** Queueings not of high importance appear in the order they were accepted. */
  predicate NormalInOrder(h: History, q: seq<Ticket>) {
    forall i, j :: 0 <= i < j < |q| && Normal(h, q[i]) && Normal(h, q[j]) ==> q[i] < q[j]
  }

  /** Run ones, then linked ones: FIFO for normal importance. */
  predicate Fifo(h: History) {
    NormalInOrder(h, h.ran + h.linked)
  }

  /** Every accepted queueing is linked, was run or was removed: exactly one, exactly once. */
  ghost predicate Accounted(h: History) {
    multiset(h.linked) + multiset(h.ran) + multiset(h.removed) == multiset(Upto(|h.high|))
  }

  function Upto(n: nat): (s: seq<Ticket>)
    ensures |s| == n && forall i :: 0 <= i < n ==> s[i] == i
  {
    seq(n, i => i)
  }

  lemma UptoOnce(n: nat, t: Ticket)
    ensures multiset(Upto(n))[t] == if t < n then 1 else 0
  {
    if n > 0 {
      UptoOnce(n - 1, t);
      assert Upto(n) == Upto(n - 1) + [n - 1];
    } else {
      assert Upto(n) == [];
    }
  }

  ghost predicate HistoryInv(h: History) {
    Fifo(h) && Accounted(h)
  }

  lemma TicketsKnown(h: History, x: Ticket)
    requires Accounted(h) && x in h.ran + h.linked
    ensures x < |h.high|
  {
    UptoOnce(|h.high|, x);
    assert x in multiset(h.linked) + multiset(h.ran);
  }

  /** A new ticket at the end, or a high one anywhere, keeps the normal order. */
  lemma InsertInOrder(h: History, h': History, q: seq<Ticket>, m: nat)
    requires NormalInOrder(h, q) && m <= |q| && forall x :: x in q ==> x < |h.high|
    requires |h'.high| == |h.high| + 1 && h'.high[..|h.high|] == h.high
    requires h'.high[|h.high|] || m == |q|
    ensures NormalInOrder(h', q[..m] + [|h.high|] + q[m..])
  {
    var t := |h.high|;
    var q' := q[..m] + [t] + q[m..];
    forall i, j | 0 <= i < j < |q'| && Normal(h', q'[i]) && Normal(h', q'[j])
      ensures q'[i] < q'[j]
    {
      assert i != m ==> q'[i] == q[if i < m then i else i - 1] && q'[i] in q;
      assert j != m ==> q'[j] == q[if j < m then j else j - 1] && q'[j] in q;
      assert forall x :: x in q ==> h'.high[x] == h.high[x];
    }
  }

  lemma AcceptFifo(h: History, high: bool)
    requires Fifo(h) && forall x :: x in h.ran + h.linked ==> x < |h.high|
    ensures Fifo(Accept(h, high))
  {
    var h' := Accept(h, high);
    var q := h.ran + h.linked;
    var m := if high then |h.ran| else |q|;
    InsertInOrder(h, h', q, m);
    assert q[..m] + [|h.high|] + q[m..] == h'.ran + h'.linked;
  }

  lemma AcceptAccounted(h: History, high: bool)
    requires Accounted(h)
    ensures Accounted(Accept(h, high))
  {
    var t: Ticket := |h.high|;
    assert Upto(t + 1) == Upto(t) + [t];
    assert multiset(Accept(h, high).linked) == multiset(h.linked) + multiset([t]);
  }

  lemma AcceptKeeps(h: History, high: bool)
    requires HistoryInv(h)
    ensures HistoryInv(Accept(h, high))
  {
    forall x | x in h.ran + h.linked
      ensures x < |h.high|
    {
      TicketsKnown(h, x);
    }
    AcceptFifo(h, high);
    AcceptAccounted(h, high);
  }

  lemma RunKeeps(h: History)
    requires HistoryInv(h) && h.linked != []
    ensures HistoryInv(Run(h))
  {
    var h' := Run(h);
    assert h.linked == [h.linked[0]] + h'.linked;
    assert h'.ran + h'.linked == h.ran + h.linked;
  }

  lemma RemoveKeeps(h: History, k: nat)
    requires HistoryInv(h) && k < |h.linked|
    ensures HistoryInv(Remove(h, k))
  {
    var h' := Remove(h, k);
    assert h.linked == h.linked[..k] + [h.linked[k]] + h.linked[k + 1..];
    var q, q', m := h.ran + h.linked, h'.ran + h'.linked, |h.ran| + k;
    forall i, j | 0 <= i < j < |q'| && Normal(h', q'[i]) && Normal(h', q'[j])
      ensures q'[i] < q'[j]
    {
      assert q'[i] == q[if i < m then i else i + 1];
      assert q'[j] == q[if j < m then j else j + 1];
    }
  }

  /** What the invariant means: a queueing that is no longer linked ended once, by running or by
      removal; normal ones ran in the order they were accepted, and if one ran, every normal one
      accepted before it is no longer linked. */
  lemma EndsOnce(h: History, t: Ticket)
    requires HistoryInv(h) && t < |h.high|
    ensures multiset(h.linked)[t] + multiset(h.ran)[t] + multiset(h.removed)[t] == 1
    ensures forall u: Ticket :: Normal(h, t) && t in h.ran && Normal(h, u) && u < t ==> u !in h.linked
    ensures NormalInOrder(h, h.ran)
  {
    assert forall i :: 0 <= i < |h.ran| ==> (h.ran + h.linked)[i] == h.ran[i];
    UptoOnce(|h.high|, t);
    forall u: Ticket | Normal(h, t) && t in h.ran && Normal(h, u) && u < t
      ensures u !in h.linked
    {
      var i :| 0 <= i < |h.ran| && h.ran[i] == t;
      var q := h.ran + h.linked;
      forall j | 0 <= j < |h.linked|
        ensures h.linked[j] != u
      {
        assert q[i] == t && q[|h.ran| + j] == h.linked[j];
      }
    }
  }

  // ---------------------------------------------------------------- the code in place

  /** kdpc_list with the DPCs that were initialised. container_of makes a DPC and its embedded list
      entry one object, so a DPC is named by its entry, and its `queued` field kept under it. */
  class Queue {
    const head: Entry
    var queued: map<Entry, bool>
    ghost var items: seq<Entry>
    ghost var h: History
    ghost var asked: seq<Entry>     // the DPC of each accepted queueing

    /** A well-formed ring on which exactly the DPCs with `queued` set are linked, once each, in the
        order of the history. */
    ghost predicate Valid()
      reads this, head, items
    {
      IsRing(head, items) && Fits(head, queued, items, h, asked)
    }

    constructor ()
      ensures Valid() && items == [] && queued == map[] && asked == [] && fresh(head)
    {
      head := new Entry();
      queued := map[];
      items, h, asked := [], History([], [], [], []), [];
      new;
      assert Upto(0) == [];
    }

    /** KeInitializeDpc on a DPC not seen before. */
    method Initialize(k: Entry)
      requires Valid() && k != head && (k in queued ==> !queued[k])
      modifies this`queued, k
      ensures Valid() && queued == old(queued)[k := false]
    {
      assert k !in items;
      InitializeListHead(k);
      queued := queued[k := false];
    }

    method QueueKdpc(k: Entry, high: bool) returns (ret: bool)
      requires Valid() && k in queued
      modifies this`queued, this`items, this`h, this`asked, head, items, k
      ensures Valid()
      ensures asked == if ret then old(asked) + [k] else old(asked)
      ensures ret == !old(queued)[k] && queued == old(queued)[k := true]
      ensures items == if !ret then old(items) else if high then [k] + old(items) else old(items) + [k]
      ensures h == if ret then Accept(old(h), high) else old(h)
    {
      if queued[k] {
        ret := false;
        assert queued[k := true] == queued;
      } else {
        ghost var now := if high then [k] + items else items + [k];
        FitsAccept(head, queued, items, h, asked, k, high, now);
        Insert(k, high, now, Accept(h, high), asked + [k]);
        ret := true;
      }
    }

    /** The stores of queue_kdpc, to a state that fits. */
    method Insert(k: Entry, high: bool, ghost now: seq<Entry>, ghost h': History, ghost asked': seq<Entry>)
      requires IsRing(head, items) && k !in Chain(head, items)
      requires now == (if high then [k] + items else items + [k]) && Fits(head, queued[k := true], now, h', asked')
      modifies this`queued, this`items, this`h, this`asked, head, items, k
      ensures Valid() && queued == old(queued)[k := true] && items == now && h == h' && asked == asked'
    {
      Link(head, k, high, items, now);
      queued := queued[k := true];
      items, h, asked := now, h', asked';
    }

    method DequeueKdpc(k: Entry) returns (ret: bool, ghost i: int)
      requires Valid() && k in queued
      modifies this`queued, this`items, this`h, head, items
      ensures Valid()
      ensures ret == old(queued)[k] && queued == old(queued)[k := false]
      ensures !ret ==> items == old(items) && h == old(h)
      ensures ret ==> 0 <= i < |old(items)| && old(items)[i] == k
      ensures ret ==> items == old(items)[..i] + old(items)[i + 1..] && h == Remove(old(h), i)
    {
      i := 0;
      if !queued[k] {
        return false, 0;
      }
      ghost var was := items;
      i :| 0 <= i < |was| && was[i] == k;
      ghost var now := was[..i] + was[i + 1..];
      FitsRemove(head, queued, was, h, asked, i, now);
      Unlink(head, k, was, i);
      queued := queued[k := false];
      items, h := now, Remove(h, i);
      ret := true;
    }

    /** The critical section of kdpc_worker; the DPC returned is then run. */
    method TakeNext() returns (k: Entry?)
      requires Valid()
      modifies this`queued, this`items, this`h, head, items
      ensures Valid()
      ensures old(items) == [] ==> k == null && items == [] && queued == old(queued) && h == old(h)
      ensures old(items) != [] ==> k == old(items)[0] && items == old(items)[1..] && h == Run(old(h))
      ensures old(items) != [] ==> h.ran == old(h).ran + [h.ran[|old(h).ran|]] && asked[h.ran[|old(h).ran|]] == k
      ensures old(items) != [] ==> old(queued)[old(items)[0]] && queued == old(queued)[old(items)[0] := false]
    {
      ghost var was := items;
      Neighbours(head, was, 0);
      FitsRun(head, queued, was, h, asked);
      k := RemoveHeadList(head, was);
      if k != null {
        queued := queued[k := false];
        items, h := was[1..], Run(h);
      }
    }
  }

  /** The history is about these DPCs: place i of the list is the DPC of the queueing linked there. */
  ghost predicate Names(asked: seq<Entry>, h: History, items: seq<Entry>) {
    && |asked| == |h.high| && |h.linked| == |items|
    && forall i :: 0 <= i < |items| ==> h.linked[i] < |asked| && asked[h.linked[i]] == items[i]
  }

  lemma NamesAccept(asked: seq<Entry>, h: History, items: seq<Entry>, k: Entry, high: bool)
    requires Names(asked, h, items)
    ensures Names(asked + [k], Accept(h, high), if high then [k] + items else items + [k])
  {
  }

  lemma NamesRun(asked: seq<Entry>, h: History, items: seq<Entry>)
    requires Names(asked, h, items)
    ensures items != [] ==> Names(asked, Run(h), items[1..]) && asked[h.linked[0]] == items[0]
  {
  }

  lemma NamesRemove(asked: seq<Entry>, h: History, items: seq<Entry>, i: nat)
    requires Names(asked, h, items) && i < |items|
    ensures Names(asked, Remove(h, i), items[..i] + items[i + 1..])
  {
  }

  /** The insertion of queue_kdpc, at the front for high importance. */
  method Link(head: Entry, k: Entry, high: bool, ghost items: seq<Entry>, ghost now: seq<Entry>)
    requires IsRing(head, items) && k !in Chain(head, items) && now == if high then [k] + items else items + [k]
    modifies head, k, items
    ensures IsRing(head, now)
  {
    Neighbours(head, items, 0);
    if high {
      var unused := InsertHeadList(head, k, items);
    } else {
      var unused := InsertTailList(head, k, items);
    }
  }

  method Unlink(head: Entry, k: Entry, ghost items: seq<Entry>, ghost i: nat)
    requires IsRing(head, items) && i < |items| && items[i] == k
    modifies head, items
    ensures IsRing(head, items[..i] + items[i + 1..])
  {
    Neighbours(head, items, i);
    RemoveEntryList(k, head, items, i);
  }

  /** Linked exactly when flagged. */
  ghost predicate Flags(head: Entry, queued: map<Entry, bool>, items: seq<Entry>) {
    && head !in queued
    && (forall e :: e in items ==> e in queued)
    && (forall e :: e in queued ==> (queued[e] <==> e in items))
  }

  lemma FlagsAdd(head: Entry, queued: map<Entry, bool>, items: seq<Entry>, k: Entry)
    requires Flags(head, queued, items) && k in queued && !queued[k]
    ensures Flags(head, queued[k := true], [k] + items) && Flags(head, queued[k := true], items + [k])
    ensures k !in Chain(head, items)
  {
    assert forall e :: e in [k] + items <==> e == k || e in items;
    assert forall e :: e in items + [k] <==> e == k || e in items;
  }

  /** Flags, history and list agree. */
  ghost predicate Fits(head: Entry, queued: map<Entry, bool>, items: seq<Entry>, h: History, asked: seq<Entry>) {
    Flags(head, queued, items) && Names(asked, h, items) && HistoryInv(h)
  }

  lemma FitsAccept(head: Entry, queued: map<Entry, bool>, items: seq<Entry>, h: History, asked: seq<Entry>,
                   k: Entry, high: bool, now: seq<Entry>)
    requires Fits(head, queued, items, h, asked) && k in queued && !queued[k]
    requires now == if high then [k] + items else items + [k]
    ensures Fits(head, queued[k := true], now, Accept(h, high), asked + [k]) && k !in Chain(head, items)
  {
    FlagsAdd(head, queued, items, k);
    AcceptKeeps(h, high);
    NamesAccept(asked, h, items, k, high);
  }

  lemma FitsRemove(head: Entry, queued: map<Entry, bool>, items: seq<Entry>, h: History, asked: seq<Entry>,
                   i: nat, now: seq<Entry>)
    requires Fits(head, queued, items, h, asked) && IsRing(head, items) && i < |items|
    requires now == items[..i] + items[i + 1..]
    ensures Fits(head, queued[items[i] := false], now, Remove(h, i), asked)
  {
    FlagsDrop(head, queued, items, i);
    RemoveKeeps(h, i);
    NamesRemove(asked, h, items, i);
  }

  /** What holds once the head is taken. */
  lemma FitsRun(head: Entry, queued: map<Entry, bool>, items: seq<Entry>, h: History, asked: seq<Entry>)
    requires Fits(head, queued, items, h, asked) && IsRing(head, items)
    ensures items != [] ==> items[0] in queued && queued[items[0]] && asked[h.linked[0]] == items[0]
    ensures items != [] ==> Fits(head, queued[items[0] := false], items[1..], Run(h), asked)
  {
    if items != [] {
      FlagsDrop(head, queued, items, 0);
      RunKeeps(h);
      NamesRun(asked, h, items);
      assert items[..0] + items[1..] == items[1..];
    }
  }

  lemma FlagsDrop(head: Entry, queued: map<Entry, bool>, items: seq<Entry>, i: nat)
    requires Flags(head, queued, items) && i < |items| && IsRing(head, items)
    ensures items[i] in queued && queued[items[i]]
    ensures Flags(head, queued[items[i] := false], items[..i] + items[i + 1..])
  {
    var k, q, c := items[i], items[..i] + items[i + 1..], Chain(head, items);
    assert k in items;
    forall j | 0 <= j < |items| && j != i
      ensures items[j] != k
    {
      assert c[j + 1] == items[j] && c[i + 1] == k;
    }
    assert items == items[..i] + [k] + items[i + 1..];
    assert forall e :: e in q <==> e in items && e != k;
  }

  /** The links the list functions follow stay inside the ring. */
  lemma Neighbours(head: Entry, items: seq<Entry>, i: nat)
    requires IsRing(head, items)
    ensures head.next in Chain(head, items) && head.prev in Chain(head, items)
    ensures head.next.next in Chain(head, items)
    ensures i < |items| ==> items[i].prev in Chain(head, items) && items[i].next in Chain(head, items)
  {
    var c := Chain(head, items);
    assert c[0] == head;
    if items != [] {
      assert c[0].next == c[1];
      assert c[1].next == if |items| > 1 then c[2] else head;
    }
    if i < |items| {
      assert items[i] == c[i + 1] && c[i + 1].prev == c[i];
      assert c[i + 1].next == if i + 2 < |c| then c[i + 2] else head;
    }
  }
}
