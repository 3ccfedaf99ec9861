/** Device stacks (IoGetAttachedDevice, IoAttachDeviceToDeviceStack and IoDetachDevice of
    ntoskernel_io.c): devices linked from the bottom up, each knowing how many are at or below it. */
module DeviceStack {
  import opened Basics

  class Device {
    var attached: Device?       // the device above
    var stackCount: int
    var attachedTo: Device?     // dev_obj_ext->attached_to

    /** As IoCreateDevice leaves it. */
    constructor ()
      ensures attached == null && stackCount == 1 && attachedTo == null
    {
      attached, stackCount, attachedTo := null, 1, null;
    }
  }

  /** A stack from the bottom to the top. */
  ghost predicate Stack(devs: seq<Device>)
    reads devs
  {
    devs != [] && (forall i :: 0 <= i < |devs| ==> devs[i].stackCount == i + 1) && LinkedFrom(devs, 0)
  }

  /** From place k on, each device links to the next and the last to none. */
  ghost predicate LinkedFrom(devs: seq<Device>, k: nat)
    reads devs
  {
    && (forall i, j :: k <= i && i + 1 == j < |devs| ==> devs[i].attached == devs[j])
    && (forall i :: k <= i == |devs| - 1 ==> devs[i].attached == null)
  }

  /** The stack_count tells devices of one stack apart: position and device determine each other. */
  lemma CountNamesDevice(devs: seq<Device>, i: nat, j: nat)
    requires Stack(devs) && i < |devs| && j < |devs|
    ensures devs[i] == devs[j] <==> i == j
    ensures devs[i].stackCount == devs[j].stackCount <==> devs[i] == devs[j]
  {
    assert devs[i].stackCount == i + 1 && devs[j].stackCount == j + 1;
  }

  lemma OnlyTopIsFree(devs: seq<Device>, i: nat)
    requires Stack(devs) && i < |devs|
    ensures devs[i].attached == null <==> i == |devs| - 1
  {
    if i + 1 < |devs| {
      var above := devs[i + 1];
    }
  }

  lemma AllDistinct(devs: seq<Device>)
    requires Stack(devs)
    ensures Distinct(devs)
  {
    forall i, j | 0 <= i < j < |devs|
      ensures devs[i] != devs[j]
    {
      CountNamesDevice(devs, i, j);
    }
  }

  method IoGetAttachedDevice(d: Device?, ghost devs: seq<Device>) returns (top: Device?)
    requires d != null ==> Stack(devs) && d in devs
    ensures d == null ==> top == null
    ensures d != null ==> top == devs[|devs| - 1]
  {
    top := d;
    if d == null {
      return;
    }
    ghost var i :| 0 <= i < |devs| && devs[i] == d;
    while top.attached != null
      invariant 0 <= i < |devs| && top == devs[i]
      decreases |devs| - i
    {
      OnlyTopIsFree(devs, i);
      top := top.attached;
      i := i + 1;
    }
    OnlyTopIsFree(devs, i);
  }

  /** The new device becomes the top. stack_count is a signed char. */
  method IoAttachDeviceToDeviceStack(src: Device, tgt: Device, ghost devs: seq<Device>)
    returns (attached: Device)
    requires Stack(devs) && tgt in devs && src !in devs && |devs| < 127
    modifies src, devs[|devs| - 1]
    ensures attached == devs[|devs| - 1] && Stack(devs + [src]) && src.attachedTo == attached
    ensures forall d :: d in devs ==> d.stackCount == old(d.stackCount)
  {
    attached := IoGetAttachedDevice(tgt, devs);
    AllDistinct(devs);
    attached.attached := src;
    src.attached := null;
    src.stackCount := attached.stackCount + 1;
    src.attachedTo := attached;
  }

  function Without(devs: seq<Device>, k: nat): seq<Device>
    requires k < |devs|
  {
    devs[..k] + devs[k + 1..]
  }

  /** The device above devs[i] leaves, and those above it come down by one. The one that leaves
      keeps its link upwards. */
  method IoDetachDevice(tgt: Device?, ghost devs: seq<Device>, ghost i: nat)
    requires tgt != null ==> Stack(devs) && i < |devs| && devs[i] == tgt
    modifies devs
    ensures tgt == null || i == |devs| - 1 ==> forall d :: d in devs ==> unchanged(d)
    ensures tgt != null && i < |devs| - 1 ==>
              Stack(Without(devs, i + 1)) && devs[i + 1].attached == old(devs[i + 1].attached)
  {
    if tgt == null {
      return;
    }
    OnlyTopIsFree(devs, i);
    if tgt.attached == null {
      return;
    }
    var tail := tgt.attached;
    AllDistinct(devs);
    tgt.attached := tail.attached;
    LowerAll(tail, devs, i + 1);
    StackWithout(devs, i + 1);
  }

  lemma StackWithout(devs: seq<Device>, k: nat)
    requires 0 < k < |devs| && LinkedFrom(devs, k)
    requires forall i :: 0 <= i < |devs| && i != k ==> devs[i].stackCount == if i < k then i + 1 else i
    requires forall i, j :: 0 <= i < k - 1 && i + 1 == j ==> devs[i].attached == devs[j]
    requires devs[k - 1].attached == if k + 1 < |devs| then devs[k + 1] else null
    ensures Stack(Without(devs, k))
  {
    var left := Without(devs, k);
    assert forall j :: 0 <= j < k ==> left[j] == devs[j];
    assert forall j :: k <= j < |left| ==> left[j] == devs[j + 1];
  }

  /** The loop of IoDetachDevice. */
  method LowerAll(first: Device, ghost devs: seq<Device>, ghost k: nat)
    requires k < |devs| && first == devs[k]
    requires Distinct(devs)
    requires LinkedFrom(devs, k)
    modifies devs
    ensures forall i :: 0 <= i < |devs| ==>
              && devs[i].attached == old(devs[i].attached)
              && devs[i].stackCount == old(devs[i].stackCount) - if k <= i then 1 else 0
  {
    var tail: Device? := first;
    ghost var n := k;
    while tail != null
      invariant k <= n <= |devs| && tail == if n < |devs| then devs[n] else null
      invariant forall i :: 0 <= i < |devs| ==>
                  && devs[i].attached == old(devs[i].attached)
                  && devs[i].stackCount == old(devs[i].stackCount) - if k <= i < n then 1 else 0
      decreases |devs| - n
    {
      assert forall i :: 0 <= i < |devs| && i != n ==> devs[i] != tail;
      tail.stackCount := tail.stackCount - 1;
      tail := tail.attached;
      n := n + 1;
    }
  }
}
