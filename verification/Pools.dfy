/** NDIS descriptor pools (ndis.c): packets and buffers recycled through a free list. A descriptor is
    named by its address; each method is one allocation or release. */
module Pools {
  import opened Basics

  type Descr = nat

  const MAX_ALLOCATED: nat := 16      // MAX_ALLOCATED_NDIS_PACKETS and _BUFFERS: TX_RING_SIZE

  /** Every allocated descriptor is outstanding or on the free list, never both, never twice; and
      the free list is short. */
  ghost predicate Balanced(count: int, free: seq<Descr>, outstanding: set<Descr>) {
    && count == |outstanding| + |free|
    && Distinct(free) && (forall d :: d in free ==> d !in outstanding)
    && |free| <= MAX_ALLOCATED
  }

  lemma TakeBalanced(count: int, free: seq<Descr>, outstanding: set<Descr>)
    requires Balanced(count, free, outstanding) && free != []
    ensures Balanced(count, free[1..], outstanding + {free[0]})
    ensures free[0] !in outstanding
  {
    assert free[0] in free;
    assert forall d :: d in free[1..] ==> d in free && d != free[0];
  }

  lemma PutBalanced(count: int, free: seq<Descr>, outstanding: set<Descr>, d: Descr)
    requires Balanced(count, free, outstanding) && d in outstanding && count <= MAX_ALLOCATED
    ensures Balanced(count, [d] + free, outstanding - {d})
  {
    assert forall e :: e in [d] + free <==> e == d || e in free;
    assert |outstanding| >= 1;
  }

  class PacketPool {
    const maxDescr: nat
    var numAllocated: int
    var numUsed: int
    var free: seq<Descr>
    ghost var outstanding: set<Descr>

    ghost predicate Valid()
      reads this
    {
      && Balanced(numAllocated, free, outstanding)
      && numUsed == |outstanding|
      && numUsed <= maxDescr + 1
    }

    constructor (maxDescr: nat)
      ensures Valid() && this.maxDescr == maxDescr && outstanding == {}
    {
      this.maxDescr := maxDescr;
      numAllocated, numUsed, free, outstanding := 0, 0, [], {};
    }

    /** NdisAllocatePacket; kmalloc is what the kernel allocator would return. Refused exactly when
        the pool is over its limit, or nothing is free and the kernel has no memory. */
    method AllocatePacket(kmalloc: Option<Descr>) returns (packet: Option<Descr>)
      requires Valid()
      requires kmalloc.Some? ==> kmalloc.value !in outstanding && kmalloc.value !in free
      modifies this
      ensures Valid()
      ensures packet.None? <==> |old(outstanding)| > maxDescr || (old(free) == [] && kmalloc.None?)
      ensures packet.None? ==> outstanding == old(outstanding) && free == old(free)
      ensures packet.Some? ==> packet == if old(free) != [] then Some(old(free)[0]) else kmalloc
      ensures packet.Some? ==> free == if old(free) != [] then old(free)[1..] else []
      ensures packet.Some? ==> packet.value !in old(outstanding) && outstanding == old(outstanding) + {packet.value}
    {
      if numUsed > maxDescr {
        return None;
      }
      if free != [] {
        TakeBalanced(numAllocated, free, outstanding);
        packet, free := Some(free[0]), free[1..];
      } else {
        if kmalloc.None? {
          return None;
        }
        packet := kmalloc;
        numAllocated := numAllocated + 1;
      }
      numUsed := numUsed + 1;
      outstanding := outstanding + {packet.value};
    }

    /** NdisFreePacket, by a client that holds the packet. */
    method FreePacket(packet: Descr) returns (kfreed: bool)
      requires Valid() && packet in outstanding
      modifies this
      ensures Valid()
      ensures outstanding == old(outstanding) - {packet}
      ensures kfreed <==> |old(outstanding)| + |old(free)| > MAX_ALLOCATED
      ensures free == if kfreed then old(free) else [packet] + old(free)
    {
      numUsed := numUsed - 1;
      kfreed := numAllocated > MAX_ALLOCATED;
      if kfreed {
        numAllocated := numAllocated - 1;
      } else {
        PutBalanced(numAllocated, free, outstanding, packet);
        free := [packet] + free;
      }
      outstanding := outstanding - {packet};
    }
  }

  class BufferPool {
    const maxDescr: nat
    var numAllocated: int
    var free: seq<Descr>
    ghost var outstanding: set<Descr>

    ghost predicate Valid()
      reads this
    {
      Balanced(numAllocated, free, outstanding) && numAllocated <= maxDescr + 1
    }

    constructor (maxDescr: nat)
      ensures Valid() && this.maxDescr == maxDescr && outstanding == {}
    {
      this.maxDescr := maxDescr;
      numAllocated, free, outstanding := 0, [], {};
    }

    /** NdisAllocateBuffer: unlike packets, the free list is tried before the limit. */
    method AllocateBuffer(mdl: Option<Descr>) returns (buffer: Option<Descr>)
      requires Valid()
      requires mdl.Some? ==> mdl.value !in outstanding && mdl.value !in free
      modifies this
      ensures Valid()
      ensures buffer.None? <==> old(free) == [] && (|old(outstanding)| > maxDescr || mdl.None?)
      ensures buffer.None? ==> outstanding == old(outstanding) && free == old(free)
      ensures buffer.Some? ==> buffer == if old(free) != [] then Some(old(free)[0]) else mdl
      ensures buffer.Some? ==> free == if old(free) != [] then old(free)[1..] else []
      ensures buffer.Some? ==> buffer.value !in old(outstanding) && outstanding == old(outstanding) + {buffer.value}
    {
      if free != [] {
        TakeBalanced(numAllocated, free, outstanding);
        buffer, free := Some(free[0]), free[1..];
      } else {
        if numAllocated > maxDescr {
          return None;
        }
        if mdl.None? {
          return None;
        }
        buffer := mdl;
        numAllocated := numAllocated + 1;
      }
      outstanding := outstanding + {buffer.value};
    }

    /** NdisFreeBuffer, by a client that holds the buffer. */
    method FreeBuffer(buffer: Descr) returns (freedMdl: bool)
      requires Valid() && buffer in outstanding
      modifies this
      ensures Valid()
      ensures outstanding == old(outstanding) - {buffer}
      ensures freedMdl <==> |old(outstanding)| + |old(free)| > MAX_ALLOCATED
      ensures free == if freedMdl then old(free) else [buffer] + old(free)
    {
      freedMdl := numAllocated > MAX_ALLOCATED;
      if freedMdl {
        numAllocated := numAllocated - 1;
      } else {
        PutBalanced(numAllocated, free, outstanding, buffer);
        free := [buffer] + free;
      }
      outstanding := outstanding - {buffer};
    }
  }
}
