/** The intrusive circular doubly linked list of winnt_types.h. */
module NtList {
  import opened Basics


  /** struct nt_list. */
  class Entry {
    var next: Entry
    var prev: Entry

    /** InitializeListHead. */
    constructor ()
      ensures IsRing(this, [])
    {
      next, prev := this, this;
    }
  }

  /** The entries of the list, head first. */
  ghost function Chain(head: Entry, items: seq<Entry>): (c: seq<Entry>)
    ensures |c| == |items| + 1
  {
    [head] + items
  }

  /** Following next from head visits items in order and comes back, and prev is its inverse. */
  ghost predicate IsRing(head: Entry, items: seq<Entry>)
    reads head, items
  {
    var c := Chain(head, items);
    && Distinct(c)
    && (forall i :: 0 <= i < |items| ==> c[i].next == c[i + 1])
    && (forall i :: 0 < i <= |items| ==> c[i].prev == c[i - 1])
    && c[|items|].next == head && head.prev == c[|items|]
  }

  lemma InsertDistinct(c: seq<Entry>, entry: Entry, k: nat)
    requires Distinct(c) && entry !in c && k <= |c|
    ensures Distinct(c[..k] + [entry] + c[k..])
  {
    var d := c[..k] + [entry] + c[k..];
    forall i, j | 0 <= i < j < |d|
      ensures d[i] != d[j]
    {
      assert d[i] == if i < k then c[i] else if i == k then entry else c[i - 1];
      assert d[j] == if j < k then c[j] else if j == k then entry else c[j - 1];
    }
  }

  lemma RemoveDistinct(c: seq<Entry>, k: nat)
    requires Distinct(c) && k < |c|
    ensures Distinct(c[..k] + c[k + 1..])
  {
  }

  method InitializeListHead(head: Entry)
    modifies head
    ensures IsRing(head, [])
  {
    head.next, head.prev := head, head;
  }

  method IsListEmpty(head: Entry, ghost items: seq<Entry>) returns (empty: bool)
    requires IsRing(head, items)
    ensures empty <==> items == []
  {
    empty := head == head.next;
    assert items != [] ==> Chain(head, items)[0].next == Chain(head, items)[1];
  }

  /** The chain with entry linked in after place k, read off its links. */
  lemma RingByLinks(head: Entry, items: seq<Entry>, entry: Entry, k: nat, after: nat)
    requires k <= |items| && after == (if k < |items| then k + 1 else 0)
    requires var c := Chain(head, items);
             && Distinct(c) && entry !in c
             && (forall i :: 0 <= i < |items| && i != k ==> c[i].next == c[i + 1])
             && (forall i :: 0 < i <= |items| && i != k + 1 ==> c[i].prev == c[i - 1])
             && c[k].next == entry && entry.prev == c[k] && entry.next == c[after] && c[after].prev == entry
             && (k < |items| ==> c[|items|].next == head && head.prev == c[|items|])
    ensures IsRing(head, items[..k] + [entry] + items[k..])
  {
    var c := Chain(head, items);
    var items' := items[..k] + [entry] + items[k..];
    var d := Chain(head, items');
    assert d == c[..k + 1] + [entry] + c[k + 1..];
    forall i | 0 <= i < |items'|
      ensures d[i].next == d[i + 1]
    {
      if i < k {
        assert d[i] == c[i] && d[i + 1] == c[i + 1];
      } else if i > k + 1 {
        assert d[i] == c[i - 1] && d[i + 1] == c[i];
      }
    }
    forall i | 0 < i <= |items'|
      ensures d[i].prev == d[i - 1]
    {
      if i <= k {
        assert d[i] == c[i] && d[i - 1] == c[i - 1];
      } else if i > k + 2 {
        assert d[i] == c[i - 1] && d[i - 1] == c[i - 2];
      }
    }
    InsertDistinct(c, entry, k + 1);
  }

  /** Links entry between place k and place k + 1 of the chain. */
  method InsertListEntry(entry: Entry, prev: Entry, next: Entry,
                         ghost head: Entry, ghost items: seq<Entry>, ghost k: nat)
    requires IsRing(head, items) && k <= |items| && entry !in Chain(head, items)
    requires prev == Chain(head, items)[k] && next == prev.next
    modifies entry, prev, next
    ensures IsRing(head, items[..k] + [entry] + items[k..])
  {
    ghost var c := Chain(head, items);
    assert forall i :: 0 <= i < |c| ==> c[i] in c && c[i] != entry;
    ghost var after := if k < |items| then k + 1 else 0;
    assert next == c[after];
    assert forall i :: 0 <= i < |c| && i != k ==> c[i] != prev;
    assert forall i :: 0 <= i < |c| && i != after ==> c[i] != c[after];
    next.prev := entry;
    entry.next := next;
    entry.prev := prev;
    prev.next := entry;
    RingByLinks(head, items, entry, k, after);
  }

  method InsertHeadList(head: Entry, entry: Entry, ghost items: seq<Entry>) returns (ret: Entry?)
    requires IsRing(head, items) && entry !in Chain(head, items)
    modifies head, entry, head.next
    ensures IsRing(head, [entry] + items)
    ensures ret == if items == [] then null else items[0]
  {
    var empty := IsListEmpty(head, items);
    assert items != [] ==> Chain(head, items)[0].next == Chain(head, items)[1];
    ret := if empty then null else head.next;
    InsertListEntry(entry, head, head.next, head, items, 0);
    assert items[..0] + [entry] + items[0..] == [entry] + items;
  }

  method InsertTailList(head: Entry, entry: Entry, ghost items: seq<Entry>) returns (ret: Entry?)
    requires IsRing(head, items) && entry !in Chain(head, items)
    modifies head, entry, head.prev
    ensures IsRing(head, items + [entry])
    ensures ret == if items == [] then null else items[|items| - 1]
  {
    var empty := IsListEmpty(head, items);
    ret := if empty then null else head.prev;
    InsertListEntry(entry, head.prev, head, head, items, |items|);
    assert items[..|items|] + [entry] + items[|items|..] == items + [entry];
  }

  method RemoveEntryList(entry: Entry, ghost head: Entry, ghost items: seq<Entry>, ghost k: nat)
    requires IsRing(head, items) && k < |items| && entry == items[k]
    modifies entry.prev, entry.next
    ensures IsRing(head, items[..k] + items[k + 1..])
  {
    ghost var c := Chain(head, items);
    assert c[k + 1] == entry && entry.prev == c[k];
    assert forall i :: 0 <= i < |c| && i != k ==> c[i] != c[k];
    ghost var after := if k + 2 <= |items| then k + 2 else 0;
    assert entry.next == c[after];
    assert forall i :: 0 <= i < |c| && i != after ==> c[i] != c[after];
    entry.prev.next := entry.next;
    entry.next.prev := entry.prev;
    ghost var items' := items[..k] + items[k + 1..];
    ghost var d := Chain(head, items');
    assert d == c[..k + 1] + c[k + 2..];
    forall i | 0 <= i < |items'|
      ensures d[i].next == d[i + 1]
    {
      if i < k {
        assert d[i] == c[i] && d[i + 1] == c[i + 1];
      } else if i > k {
        assert d[i] == c[i + 1] && d[i + 1] == c[i + 2];
      }
    }
    forall i | 0 < i <= |items'|
      ensures d[i].prev == d[i - 1]
    {
      if i <= k {
        assert d[i] == c[i] && d[i - 1] == c[i - 1];
      } else if i > k + 1 {
        assert d[i] == c[i + 1] && d[i - 1] == c[i];
      }
    }
    RemoveDistinct(c, k + 1);
  }

  method RemoveHeadList(head: Entry, ghost items: seq<Entry>) returns (entry: Entry?)
    requires IsRing(head, items)
    modifies head, head.next.next
    ensures items == [] ==> entry == null && IsRing(head, [])
    ensures items != [] ==> entry == items[0] && IsRing(head, items[1..])
  {
    var first := head.next;
    ghost var c := Chain(head, items);
    assert items != [] ==> c[0].next == c[1];
    if first == head {
      entry := null;
    } else {
      RemoveEntryList(first, head, items, 0);
      assert items[..0] + items[1..] == items[1..];
      entry := first;
    }
  }
}
