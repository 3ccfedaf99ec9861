/** Notions shared by the models of the driver's queues and protocols. */
module Basics {
  datatype Option<T> = None | Some(value: T)

  function Min(a: int, b: int): int {
    if a <= b then a else b
  }

  predicate Distinct<T(==)>(q: seq<T>) {
    forall i, j :: 0 <= i < j < |q| ==> q[i] != q[j]
  }

  lemma DistinctSnoc<T>(q: seq<T>, x: T)
    requires Distinct(q) && x !in q
    ensures Distinct(q + [x])
    ensures forall y :: y in q + [x] <==> y in q || y == x
  {
    assert forall i :: 0 <= i < |q| ==> q[i] in q;
  }

  lemma DistinctTail<T>(q: seq<T>)
    requires Distinct(q) && q != []
    ensures Distinct(q[1..])
    ensures forall y :: y in q[1..] <==> y in q && y != q[0]
  {
    assert q == [q[0]] + q[1..];
    assert forall k :: 1 <= k < |q| ==> q[k] != q[0] && q[1..][k - 1] == q[k];
  }

  /** The first x taken out: list_del, or RemoveEntryList, seen from the list. */
  function Unlink<T(==)>(q: seq<T>, x: T): (r: seq<T>)
    ensures |r| <= |q|
  {
    if q == [] then [] else if q[0] == x then q[1..] else [q[0]] + Unlink(q[1..], x)
  }

  lemma {:induction false} UnlinkMembers<T>(q: seq<T>, x: T)
    requires Distinct(q)
    ensures Distinct(Unlink(q, x)) && |Unlink(q, x)| == |q| - if x in q then 1 else 0
    ensures forall y :: y in Unlink(q, x) <==> y in q && y != x
  {
    if q != [] {
      DistinctTail(q);
      UnlinkMembers(q[1..], x);
      var r := Unlink(q[1..], x);
      if q[0] != x {
        assert forall k :: 0 <= k < |r| ==> r[k] in r;
      }
    }
  }
}
