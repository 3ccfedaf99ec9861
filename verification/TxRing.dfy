/** The transmit ring of wrapndis.c: tx_skbuff fills it, tx_worker drains it. Enqueue, Snapshot and the
    two stores of the commit are separate atomic steps; the packets are sent after Snapshot. */
module TxRing {
  import opened Basics

  const TX_RING_SIZE: int := 16

  /** The slot i places after start. */
  function Slot(start: int, i: int): (k: int)
    ensures 0 <= k < TX_RING_SIZE
  {
    (start + i) % TX_RING_SIZE
  }

  lemma SlotShift(start: int, n: int, i: int)
    ensures Slot(Slot(start, n), i) == Slot(start, n + i)
  {
  }

  /** The array and the three variables represent this FIFO. */
  ghost predicate Represents<P>(slots: seq<P>, start: int, end: int, full: bool, fifo: seq<P>) {
    && |slots| == TX_RING_SIZE
    && 0 <= start < TX_RING_SIZE && 0 <= end < TX_RING_SIZE
    && |fifo| <= TX_RING_SIZE
    && end == Slot(start, |fifo|)
    && (full <==> |fifo| == TX_RING_SIZE)
    && forall i :: 0 <= i < |fifo| ==> slots[Slot(start, i)] == fifo[i]
  }

  /** A representation has one reading: empty and full rings, whose indices coincide, included. */
  lemma RepresentsOneFifo<P>(slots: seq<P>, start: int, end: int, full: bool, f: seq<P>, g: seq<P>)
    requires Represents(slots, start, end, full, f) && Represents(slots, start, end, full, g)
    ensures f == g
  {
    assert |f| == |g| by {
      SlotGap(start, |f|, |g|);
    }
    assert forall i :: 0 <= i < |f| ==> f[i] == slots[Slot(start, i)] == g[i];
  }

  lemma SlotGap(start: int, m: int, n: int)
    requires 0 <= m <= TX_RING_SIZE && 0 <= n <= TX_RING_SIZE && Slot(start, m) == Slot(start, n)
    ensures m == n || (m == 0 && n == TX_RING_SIZE) || (n == 0 && m == TX_RING_SIZE)
  {
  }

  /** tx_ring_end after a store. */
  function Next(end: int): int {
    if end + 1 == TX_RING_SIZE then 0 else end + 1
  }

  lemma EnqueueRepresents<P>(slots: seq<P>, start: int, end: int, fifo: seq<P>, packet: P)
    requires Represents(slots, start, end, false, fifo)
    ensures Represents(slots[end := packet], start, Next(end), Next(end) == start, fifo + [packet])
  {
    SlotShift(start, |fifo|, 1);
    forall i | 0 <= i < |fifo|
      ensures Slot(start, i) != end
    {
      if Slot(start, i) == Slot(start, |fifo|) {
        SlotGap(start, i, |fifo|);
      }
    }
  }

  lemma CommitRepresents<P>(slots: seq<P>, start: int, end: int, full: bool, fifo: seq<P>, sent: int)
    requires Represents(slots, start, end, full, fifo) && 0 < sent <= |fifo|
    ensures Represents(slots, Slot(start, sent), end, false, fifo[sent..])
  {
    forall i | 0 <= i <= |fifo| - sent
      ensures Slot(Slot(start, sent), i) == Slot(start, sent + i)
    {
      SlotShift(start, sent, i);
    }
  }

  lemma Moved<P>(all: seq<P>, gone: seq<P>, f: seq<P>, n: int)
    requires all == gone + f && 0 <= n <= |f|
    ensures all == gone + f[..n] + f[n..]
  {
    assert f == f[..n] + f[n..];
  }

  /** The store that clears is_tx_ring_full is harmless if and only if the ring is not full; otherwise
      a full ring reads as empty. */
  lemma LateClear<P>(slots: seq<P>, start: int, end: int, full: bool, fifo: seq<P>)
    requires Represents(slots, start, end, full, fifo)
    ensures Represents(slots, start, end, false, fifo) <==> |fifo| < TX_RING_SIZE
    ensures |fifo| == TX_RING_SIZE ==> Represents(slots, start, end, false, [])
  {
  }

  /** The array and end after these packets are stored. */
  function StoreAll<P>(slots: seq<P>, end: int, more: seq<P>): (seq<P>, int)
    requires |slots| == TX_RING_SIZE && 0 <= end < TX_RING_SIZE
    decreases |more|
  {
    if more == [] then (slots, end) else StoreAll(slots[end := more[0]], Next(end), more[1..])
  }

  lemma {:induction false} StoreAllRepresents<P>(slots: seq<P>, start: int, end: int, fifo: seq<P>, more: seq<P>)
    requires |fifo| + |more| <= TX_RING_SIZE && Represents(slots, start, end, |fifo| == TX_RING_SIZE, fifo)
    ensures var (slots', end') := StoreAll(slots, end, more);
            Represents(slots', start, end', |fifo + more| == TX_RING_SIZE, fifo + more)
    decreases |more|
  {
    if more == [] {
      assert fifo + more == fifo;
    } else {
      EnqueueRepresents(slots, start, end, fifo, more[0]);
      StoreAllRepresents(slots[end := more[0]], start, Next(end), fifo + [more[0]], more[1..]);
      assert fifo + [more[0]] + more[1..] == fifo + more;
    }
  }

  /** tx_worker commits with two stores outside tx_ring_lock. With the packets `more` accepted between
      them, the ring represents the right FIFO afterwards if and only if they do not fill it; if they
      do, all that is in it is lost. While the old ring is full none are accepted. */
  lemma CommitInTwoStores<P>(slots: seq<P>, start: int, end: int, full: bool, fifo: seq<P>, sent: int, more: seq<P>)
    requires Represents(slots, start, end, full, fifo) && 0 < sent <= |fifo| && (full ==> more == [])
    requires |fifo| - sent + |more| <= TX_RING_SIZE
    ensures var (slots', end') := StoreAll(slots, end, more);
            && (Represents(slots', Slot(start, sent), end', false, fifo[sent..] + more)
                <==> |fifo| - sent + |more| < TX_RING_SIZE)
            && (|fifo| - sent + |more| == TX_RING_SIZE ==> Represents(slots', Slot(start, sent), end', false, []))
  {
    var (slots', end') := StoreAll(slots, end, more);
    CommitRepresents(slots, start, end, full, fifo, sent);
    StoreAllRepresents(slots, Slot(start, sent), end, fifo[sent..], more);
    LateClear(slots', Slot(start, sent), end', |fifo[sent..] + more| == TX_RING_SIZE, fifo[sent..] + more);
  }

  class Ring<P(0)> {
    const slots: array<P>
    var start: int           // tx_ring_start, u8
    var end: int             // tx_ring_end, u8
    var full: bool           // is_tx_ring_full

    ghost var fifo: seq<P>       // accepted and not yet removed, oldest first
    ghost var accepted: seq<P>   // everything ever accepted, in order
    ghost var removed: seq<P>    // everything ever removed, in order
    ghost var offered: int       // length of the prefix between Snapshot and Commit
    ghost var clearing: bool     // between the two stores of a commit

    /** start, end and full represent the FIFO, except that between the two stores of a commit a ring
        with room may still read as full; the offered prefix does not wrap around. */
    ghost predicate Valid()
      reads this, slots
    {
      && Represents(slots[..], start, end, |fifo| == TX_RING_SIZE, fifo)
      && (|fifo| == TX_RING_SIZE ==> full) && (full && !clearing ==> |fifo| == TX_RING_SIZE)
      && 0 <= offered <= |fifo| && start + offered <= TX_RING_SIZE
      && accepted == removed + fifo
    }

    constructor ()
      ensures Valid() && fifo == [] && accepted == [] && removed == [] && offered == 0 && !clearing
      ensures fresh(slots)
    {
      slots := new P[16];
      start, end, full := 0, 0, false;
      fifo, accepted, removed, offered, clearing := [], [], [], 0, false;
    }

    /** tx_skbuff; the network layer calls it only while its queue is not stopped. Allowed at any
        time, also while the worker is sending or between its two stores. */
    method Enqueue(packet: P)
      requires Valid() && !full
      modifies this`end, this`full, this`fifo, this`accepted, slots
      ensures Valid()
      ensures fifo == old(fifo) + [packet] && accepted == old(accepted) + [packet]
      ensures full <==> |fifo| == TX_RING_SIZE
    {
      EnqueueRepresents(slots[..], start, end, fifo, packet);
      slots[end] := packet;
      end := end + 1;
      if end == TX_RING_SIZE {
        end := 0;
      }
      if end == start {
        full := true;
      }
      fifo, accepted := fifo + [packet], accepted + [packet];
    }

    /** The part of tx_worker under tx_ring_lock: how many packets can be offered at once from
        start. 0 exactly when the ring is empty; up to the end of the array, which the comment above
        mp_tx_packets excludes, exactly when that many are there and allowed. */
    method Snapshot(maxTxPackets: nat) returns (n: int)
      requires Valid() && !clearing && maxTxPackets >= 1
      modifies this`offered
      ensures Valid() && offered == n
      ensures n == Min(maxTxPackets, Min(|fifo|, TX_RING_SIZE - start))
      ensures n == 0 <==> fifo == []
      ensures start + n == TX_RING_SIZE <==> TX_RING_SIZE <= start + Min(maxTxPackets, |fifo|)
      ensures slots[start..start + n] == fifo[..n]
    {
      n := end - start;
      if n == 0 {
        if full {
          n := TX_RING_SIZE - start;
        }
      } else if n < 0 {
        n := TX_RING_SIZE - start;
      }
      if n > maxTxPackets {
        n := maxTxPackets;
      }
      offered := n;
      forall i | 0 <= i < n
        ensures slots[start..start + n][i] == fifo[..n][i]
      {
        assert Slot(start, i) == start + i;
      }
    }

    /** The first store, after mp_tx_packets reported that it disposed of the first `sent` offered
        packets. */
    method CommitStart(sent: int)
      requires Valid() && !clearing && 0 < sent <= offered
      modifies this`start, this`fifo, this`removed, this`offered, this`clearing
      ensures Valid() && clearing && offered == 0 && |fifo| < TX_RING_SIZE
      ensures fifo == old(fifo)[sent..] && removed == old(removed) + old(fifo)[..sent]
    {
      ghost var f := fifo;
      CommitRepresents(slots[..], start, end, full, f, sent);
      Moved(accepted, removed, f, sent);
      start := (start + sent) % TX_RING_SIZE;
      fifo, removed, offered, clearing := f[sent..], removed + f[..sent], 0, true;
    }

    /** The second store. If the ring has been filled in between, it now reads as empty. */
    method ClearFull()
      requires Valid() && clearing
      modifies this`full, this`clearing
      ensures !full && !clearing
      ensures Valid() <==> |fifo| < TX_RING_SIZE
      ensures |fifo| == TX_RING_SIZE ==> Represents(slots[..], start, end, full, [])
    {
      LateClear(slots[..], start, end, |fifo| == TX_RING_SIZE, fifo);
      full, clearing := false, false;
    }

    /** Both, with nothing accepted in between. */
    method Commit(sent: int)
      requires Valid() && !clearing && 0 <= sent <= offered
      modifies this`start, this`full, this`fifo, this`removed, this`offered, this`clearing
      ensures Valid() && !clearing && offered == 0
      ensures fifo == old(fifo)[sent..] && removed == old(removed) + old(fifo)[..sent]
    {
      if sent != 0 {
        CommitStart(sent);
        ClearFull();
      } else {
        offered := 0;
        assert fifo[0..] == fifo && removed + fifo[..0] == removed;
      }
    }
  }
}
