/** Base relocation (fixup_reloc of pe_linker.c), on a kernel whose pointers have 64 bits. */
module PeReloc {
  import opened PeLinker
  import Words

  // --------------------------------------------------------------- little endian

  function Pow256(w: nat): (p: nat)
    ensures p > 0
  {
    if w == 0 then 1 else 256 * Pow256(w - 1)
  }

  lemma Pow256Values()
    ensures Pow256(2) == 0x1_0000 && Pow256(4) == U32 && Pow256(8) == U64
  {
    assert Pow256(4) == 0x1_0000 * Pow256(2);
    assert Pow256(8) == 0x1_0000 * Pow256(6) && Pow256(6) == 0x1_0000 * Pow256(4);
  }

  function LE(b: seq<Byte>): nat {
    if b == [] then 0 else b[0] + 256 * LE(b[1..])
  }

  function ToLE(n: nat, w: nat): (b: seq<Byte>)
    ensures |b| == w
  {
    if w == 0 then [] else [n % 256] + ToLE(n / 256, w - 1)
  }

  lemma {:induction false} LEofToLE(n: nat, w: nat)
    requires n < Pow256(w)
    ensures LE(ToLE(n, w)) == n
  {
    if w > 0 {
      LEofToLE(n / 256, w - 1);
      assert ToLE(n, w)[1..] == ToLE(n / 256, w - 1);
    }
  }

  // ------------------------------------------------------------------- fixups

  /** One TypeOffset entry: its type and the RVA it refers to. */
  datatype Fixup = Fixup(kind: nat, at: nat)

  const ABSOLUTE: nat := 0
  const HIGHLOW: nat := 3
  const DIR64: nat := 10

  predicate AllKnown(fs: seq<Fixup>) {
    forall i :: 0 <= i < |fs| ==> Known(fs[i])
  }

  predicate Known(f: Fixup) {
    f.kind == ABSOLUTE || f.kind == HIGHLOW || f.kind == DIR64
  }

  /** Bytes patched. */
  function Width(f: Fixup): nat {
    if f.kind == HIGHLOW then 4 else if f.kind == DIR64 then 8 else 0
  }

  function Modulus(f: Fixup): int {
    if f.kind == HIGHLOW then U32 else U64
  }

  predicate InSlot(f: Fixup, x: int) {
    f.at <= x < f.at + Width(f)
  }

  function Value(img: seq<Byte>, f: Fixup): nat
    requires f.at + Width(f) <= |img|
  {
    LE(img[f.at..f.at + Width(f)])
  }

  /** The slot's bytes after relocation: its old value plus delta, in its own width. */
  function Patched(img: seq<Byte>, f: Fixup, delta: int): (b: seq<Byte>)
    requires f.at + Width(f) <= |img|
    ensures |b| == Width(f)
  {
    ToLE((Value(img, f) + delta) % Modulus(f), Width(f))
  }

  predicate SlotFits(f: Fixup, n: nat) {
    Width(f) > 0 ==> f.at + Width(f) <= n
  }

  function ApplyOne(img: seq<Byte>, f: Fixup, delta: int): (r: seq<Byte>)
    requires SlotFits(f, |img|)
    ensures |r| == |img|
  {
    if Width(f) == 0 then img
    else img[..f.at] + Patched(img, f, delta) + img[f.at + Width(f)..]
  }

  lemma ApplyOneBytes(img: seq<Byte>, f: Fixup, delta: int)
    requires SlotFits(f, |img|)
    ensures forall x :: 0 <= x < |img| ==>
              ApplyOne(img, f, delta)[x] == if InSlot(f, x) then Patched(img, f, delta)[x - f.at] else img[x]
  {
  }

  predicate Inside(fs: seq<Fixup>, n: nat) {
    forall i :: 0 <= i < |fs| ==> SlotFits(fs[i], n)
  }

  /** The fixups applied in order. */
  function Apply(img: seq<Byte>, fs: seq<Fixup>, delta: int): (r: seq<Byte>)
    requires Inside(fs, |img|)
    ensures |r| == |img|
  {
    if fs == [] then img
    else ApplyOne(Apply(img, fs[..|fs| - 1], delta), fs[|fs| - 1], delta)
  }

  lemma ApplySnoc(img: seq<Byte>, fs: seq<Fixup>, f: Fixup, delta: int)
    requires Inside(fs, |img|) && SlotFits(f, |img|)
    ensures Inside(fs + [f], |img|)
    ensures Apply(img, fs + [f], delta) == ApplyOne(Apply(img, fs, delta), f, delta)
  {
    assert (fs + [f])[..|fs|] == fs;
  }

  /** No two slots share a byte. */
  ghost predicate Separate(fs: seq<Fixup>) {
    forall i, j, x :: 0 <= i < j < |fs| && InSlot(fs[i], x) ==> !InSlot(fs[j], x)
  }

  /** A byte outside the slots does not change. */
  lemma {:induction false} ApplyFrame(img: seq<Byte>, fs: seq<Fixup>, delta: int, x: nat)
    requires Inside(fs, |img|) && x < |img|
    requires forall i :: 0 <= i < |fs| ==> !InSlot(fs[i], x)
    ensures Apply(img, fs, delta)[x] == img[x]
  {
    if fs != [] {
      var n := |fs| - 1;
      assert forall i :: 0 <= i < n ==> fs[..n][i] == fs[i];
      ApplyFrame(img, fs[..n], delta, x);
      ApplyOneBytes(Apply(img, fs[..n], delta), fs[n], delta);
    }
  }

  lemma InsidePrefix(fs: seq<Fixup>, n: nat)
    requires Inside(fs, n) && fs != []
    ensures Inside(fs[..|fs| - 1], n)
    ensures Separate(fs) ==> Separate(fs[..|fs| - 1])
  {
  }

  /** The last of separate fixups finds its slot untouched. */
  lemma LastSlot(img: seq<Byte>, fs: seq<Fixup>, delta: int)
    requires Inside(fs, |img|) && Separate(fs) && fs != [] && Inside(fs[..|fs| - 1], |img|)
    requires Width(fs[|fs| - 1]) > 0
    ensures var f := fs[|fs| - 1];
            Apply(img, fs[..|fs| - 1], delta)[f.at..f.at + Width(f)] == img[f.at..f.at + Width(f)]
  {
    var n := |fs| - 1;
    var f, before := fs[n], Apply(img, fs[..n], delta);
    forall x | f.at <= x < f.at + Width(f)
      ensures before[x] == img[x]
    {
      assert InSlot(f, x);
      assert forall i :: 0 <= i < n ==> fs[..n][i] == fs[i] && !InSlot(fs[i], x);
      ApplyFrame(img, fs[..n], delta, x);
    }
  }

  /** A later fixup leaves the slot alone. */
  lemma LaterSlot(img: seq<Byte>, f: Fixup, g: Fixup, delta: int)
    requires f.at + Width(f) <= |img| && SlotFits(g, |img|)
    requires forall x :: InSlot(f, x) ==> !InSlot(g, x)
    ensures ApplyOne(img, g, delta)[f.at..f.at + Width(f)] == img[f.at..f.at + Width(f)]
  {
    var r := ApplyOne(img, g, delta);
    ApplyOneBytes(img, g, delta);
    forall x | f.at <= x < f.at + Width(f)
      ensures r[x] == img[x]
    {
      assert InSlot(f, x);
    }
  }

  lemma OwnSlot(img: seq<Byte>, f: Fixup, delta: int)
    requires Width(f) > 0 && f.at + Width(f) <= |img|
    ensures ApplyOne(img, f, delta)[f.at..f.at + Width(f)] == Patched(img, f, delta)
  {
    ApplyOneBytes(img, f, delta);
  }

  lemma SamePatched(a: seq<Byte>, b: seq<Byte>, f: Fixup, delta: int)
    requires |a| == |b| && f.at + Width(f) <= |a| && a[f.at..f.at + Width(f)] == b[f.at..f.at + Width(f)]
    ensures Patched(a, f, delta) == Patched(b, f, delta)
  {
  }

  lemma LastPatched(img: seq<Byte>, fs: seq<Fixup>, delta: int, n: nat, f: Fixup, before: seq<Byte>)
    requires Inside(fs, |img|) && Separate(fs) && |fs| == n + 1 && fs[n] == f && Width(f) > 0
    requires Inside(fs[..n], |img|) && before == Apply(img, fs[..n], delta)
    ensures ApplyOne(before, f, delta)[f.at..f.at + Width(f)] == Patched(img, f, delta)
  {
    LastSlot(img, fs, delta);
    SamePatched(before, img, f, delta);
    OwnSlot(before, f, delta);
  }

  lemma ApplyLast(img: seq<Byte>, fs: seq<Fixup>, delta: int, n: nat)
    requires Inside(fs, |img|) && |fs| == n + 1
    ensures Inside(fs[..n], |img|) && Apply(img, fs, delta) == ApplyOne(Apply(img, fs[..n], delta), fs[n], delta)
  {
  }

  /** A slot of separate fixups ends up with its old value plus delta. */
  lemma {:induction false} ApplySlot(img: seq<Byte>, fs: seq<Fixup>, delta: int, k: nat)
    requires Inside(fs, |img|) && Separate(fs) && k < |fs| && Width(fs[k]) > 0
    ensures Apply(img, fs, delta)[fs[k].at..fs[k].at + Width(fs[k])] == Patched(img, fs[k], delta)
  {
    var n, f := |fs| - 1, fs[k];
    InsidePrefix(fs, |img|);
    ApplyLast(img, fs, delta, n);
    var before := Apply(img, fs[..n], delta);
    if k == n {
      LastPatched(img, fs, delta, n, f, before);
    } else {
      assert before[f.at..f.at + Width(f)] == Patched(img, f, delta) by { ApplySlot(img, fs[..n], delta, k); }
      assert forall x :: InSlot(f, x) ==> !InSlot(fs[n], x);
      LaterSlot(before, f, fs[n], delta);
    }
  }

  /** As numbers: every HIGHLOW and DIR64 slot is its old value plus delta, modulo its width. */
  lemma RelocatedValue(img: seq<Byte>, fs: seq<Fixup>, delta: int, k: nat)
    requires Inside(fs, |img|) && Separate(fs) && k < |fs| && Width(fs[k]) > 0
    ensures Value(Apply(img, fs, delta), fs[k]) == (Value(img, fs[k]) + delta) % Modulus(fs[k])
  {
    ApplySlot(img, fs, delta, k);
    Pow256Values();
    LEofToLE((Value(img, fs[k]) + delta) % Modulus(fs[k]), Width(fs[k]));
  }

  /** A byte of a slot, whatever the other fixups. */
  lemma SlotByte(img: seq<Byte>, fs: seq<Fixup>, delta: int, k: nat, x: nat)
    requires Inside(fs, |img|) && Separate(fs) && k < |fs| && InSlot(fs[k], x)
    ensures Apply(img, fs, delta)[x] == Patched(img, fs[k], delta)[x - fs[k].at]
  {
    ApplySlot(img, fs, delta, k);
    var f, r := fs[k], Apply(img, fs, delta);
    assert r[x] == r[f.at..f.at + Width(f)][x - f.at];
  }

  lemma PatchedTwice(img: seq<Byte>, fs: seq<Fixup>, d1: int, d2: int, k: nat)
    requires Inside(fs, |img|) && Separate(fs) && k < |fs| && Width(fs[k]) > 0
    ensures Patched(Apply(img, fs, d1), fs[k], d2) == Patched(img, fs[k], d1 + d2)
  {
    RelocatedValue(img, fs, d1, k);
    SumMod(Value(img, fs[k]) + d1, d2, Modulus(fs[k]));
  }

  /** Relocating twice is relocating once by the sum: from A to B and on to C is from A to C. */
  lemma RelocateTwice(img: seq<Byte>, fs: seq<Fixup>, d1: int, d2: int)
    requires Inside(fs, |img|) && Separate(fs)
    ensures Apply(Apply(img, fs, d1), fs, d2) == Apply(img, fs, d1 + d2)
  {
    var mid := Apply(img, fs, d1);
    forall x | 0 <= x < |img|
      ensures Apply(mid, fs, d2)[x] == Apply(img, fs, d1 + d2)[x]
    {
      TwiceAt(img, fs, d1, d2, x);
    }
  }

  lemma SlotByteTwice(img: seq<Byte>, fs: seq<Fixup>, d1: int, d2: int, k: nat, x: nat)
    requires Inside(fs, |img|) && Separate(fs) && k < |fs| && InSlot(fs[k], x)
    ensures Apply(Apply(img, fs, d1), fs, d2)[x] == Patched(img, fs[k], d1 + d2)[x - fs[k].at]
  {
    SlotByte(Apply(img, fs, d1), fs, d2, k, x);
    PatchedTwice(img, fs, d1, d2, k);
  }

  lemma TwiceInSlot(img: seq<Byte>, fs: seq<Fixup>, d1: int, d2: int, k: nat, x: nat)
    requires Inside(fs, |img|) && Separate(fs) && k < |fs| && InSlot(fs[k], x)
    ensures Apply(Apply(img, fs, d1), fs, d2)[x] == Apply(img, fs, d1 + d2)[x]
  {
    SlotByteTwice(img, fs, d1, d2, k, x);
    SlotByte(img, fs, d1 + d2, k, x);
  }

  lemma TwiceOutside(img: seq<Byte>, fs: seq<Fixup>, d1: int, d2: int, x: nat)
    requires Inside(fs, |img|) && x < |img| && forall k :: 0 <= k < |fs| ==> !InSlot(fs[k], x)
    ensures Apply(Apply(img, fs, d1), fs, d2)[x] == Apply(img, fs, d1 + d2)[x]
  {
    var mid := Apply(img, fs, d1);
    assert mid[x] == img[x] by { ApplyFrame(img, fs, d1, x); }
    assert Apply(mid, fs, d2)[x] == mid[x] by { ApplyFrame(mid, fs, d2, x); }
    assert Apply(img, fs, d1 + d2)[x] == img[x] by { ApplyFrame(img, fs, d1 + d2, x); }
  }

  lemma TwiceAt(img: seq<Byte>, fs: seq<Fixup>, d1: int, d2: int, x: nat)
    requires Inside(fs, |img|) && Separate(fs) && x < |img|
    ensures Apply(Apply(img, fs, d1), fs, d2)[x] == Apply(img, fs, d1 + d2)[x]
  {
    if exists k :: 0 <= k < |fs| && InSlot(fs[k], x) {
      var k :| 0 <= k < |fs| && InSlot(fs[k], x);
      TwiceInSlot(img, fs, d1, d2, k, x);
    } else {
      TwiceOutside(img, fs, d1, d2, x);
    }
  }

  lemma SumMod(a: int, b: int, m: int)
    requires m > 0
    ensures (a % m + b) % m == (a + b) % m
  {
    var q, r := a / m, a % m;
    var q', r' := (r + b) / m, (r + b) % m;
    assert a + b == (q + q') * m + r' by {
      assert (q + q') * m == q * m + q' * m;
    }
    Words.DivModUnique(a + b, m, q + q', r');
  }

  /** The image as loaded and relocated: outside the slots each byte is the file byte its section
      maps there, a header byte, or zero. Each slot is its loaded value plus delta by RelocatedValue. */
  lemma RelocatedImage(file: seq<Byte>, headers: nat, sections: seq<Section>, img: seq<Byte>, fs: seq<Fixup>,
                       delta: int, x: nat)
    requires Readable(sections, |file|) && headers <= |file| && Disjoint(sections)
    requires forall y: nat :: y < |img| ==> img[y] == Loaded(file, headers, sections, y)
    requires Inside(fs, |img|) && Separate(fs) && x < |img|
    requires forall k :: 0 <= k < |fs| ==> !InSlot(fs[k], x)
    ensures forall i :: 0 <= i < |sections| && Covers(sections[i], x) ==>
              Apply(img, fs, delta)[x] == file[sections[i].raw + (x - sections[i].va)]
    ensures (forall i :: 0 <= i < |sections| ==> !Covers(sections[i], x)) ==>
              Apply(img, fs, delta)[x] == if x < headers then file[x] else 0
  {
    ApplyFrame(img, fs, delta, x);
    LoadedDisjoint(file, headers, sections, x);
  }

  // ----------------------------------------------------------- the relocation table

  /** The w-byte number stored at place p. */
  function Read(img: seq<Byte>, p: nat, w: nat): nat
    requires p + w <= |img|
  {
    LE(img[p..p + w])
  }

  /** SizeOfBlock and the number of entries of the block at p. */
  function BlockSize(img: seq<Byte>, p: nat): nat
    requires p + 8 <= |img|
  {
    Read(img, p + 4, 4)
  }

  function Count(size: nat): nat
    requires size >= 8
  {
    (size - 8) / 2
  }

  function Entry(img: seq<Byte>, p: nat, i: nat): Fixup
    requires p + 8 + 2 * i + 2 <= |img|
  {
    var e := Read(img, p + 8 + 2 * i, 2);
    Fixup(e / 4096 % 16, (Read(img, p, 4) + e % 4096) % U32)
  }

  ghost function BlockFixups(img: seq<Byte>, p: nat, k: nat): (fs: seq<Fixup>)
    requires p + 8 + 2 * k <= |img|
    ensures |fs| == k && forall i :: 0 <= i < k ==> fs[i] == Entry(img, p, i)
  {
    if k == 0 then [] else BlockFixups(img, p, k - 1) + [Entry(img, p, k - 1)]
  }

  /** A block with its entries inside the image. */
  ghost predicate BlockAt(img: seq<Byte>, p: nat) {
    p + 8 <= |img| && BlockSize(img, p) >= 8 && p + BlockSize(img, p) <= |img|
  }

  ghost function Block(img: seq<Byte>, p: nat): seq<Fixup>
    requires BlockAt(img, p)
  {
    BlockFixups(img, p, Count(BlockSize(img, p)))
  }

  /** At most n blocks at p: then one whose SizeOfBlock is zero, unless a block before has an entry of
      unknown type. */
  ghost predicate TableAt(img: seq<Byte>, p: nat, n: nat)
    decreases n
  {
    if n == 0 then p + 8 <= |img| && BlockSize(img, p) == 0
    else BlockAt(img, p) && (AllKnown(Block(img, p)) ==> TableAt(img, p + BlockSize(img, p), n - 1))
  }

  /** The end of what is read. */
  ghost function TableEnd(img: seq<Byte>, p: nat, n: nat): (e: nat)
    requires TableAt(img, p, n)
    ensures p + 8 <= e <= |img| && (n > 0 ==> p + BlockSize(img, p) <= e)
    decreases n
  {
    if n == 0 then p + 8
    else if !AllKnown(Block(img, p)) then p + BlockSize(img, p)
    else TableEnd(img, p + BlockSize(img, p), n - 1)
  }

  /** All entries of these blocks, in order. */
  ghost function Fixups(img: seq<Byte>, p: nat, n: nat): seq<Fixup>
    requires TableAt(img, p, n)
    decreases n
  {
    if n == 0 then []
    else if !AllKnown(Block(img, p)) then Block(img, p)
    else Block(img, p) + Fixups(img, p + BlockSize(img, p), n - 1)
  }

  /** No fixup patches these places. */
  ghost predicate Avoids(fs: seq<Fixup>, lo: nat, hi: nat) {
    forall i, x :: 0 <= i < |fs| && lo <= x < hi ==> !InSlot(fs[i], x)
  }

  ghost predicate SameOn(a: seq<Byte>, b: seq<Byte>, lo: nat, hi: nat) {
    |a| == |b| && lo <= hi <= |a| && a[lo..hi] == b[lo..hi]
  }

  /** A patch outside the table leaves the table as it was. */
  lemma PatchKeepsTable(img: seq<Byte>, a: seq<Byte>, f: Fixup, delta: int, lo: nat, hi: nat)
    requires SameOn(a, img, lo, hi) && SlotFits(f, |a|) && forall x :: lo <= x < hi ==> !InSlot(f, x)
    ensures SameOn(ApplyOne(a, f, delta), img, lo, hi)
  {
    ApplyOneBytes(a, f, delta);
    assert ApplyOne(a, f, delta)[lo..hi] == a[lo..hi];
  }

  lemma SameRead(a: seq<Byte>, b: seq<Byte>, lo: nat, hi: nat, p: nat, w: nat)
    requires SameOn(a, b, lo, hi) && lo <= p && p + w <= hi
    ensures Read(a, p, w) == Read(b, p, w)
  {
    forall x | p <= x < p + w
      ensures a[x] == b[x]
    {
      assert a[x] == a[lo..hi][x - lo] && b[x] == b[lo..hi][x - lo];
    }
    assert a[p..p + w] == b[p..p + w];
  }

  /** The store of one fixup. */
  method Patch(image: array<Byte>, f: Fixup, delta: int)
    requires SlotFits(f, image.Length)
    modifies image
    ensures image[..] == ApplyOne(old(image[..]), f, delta)
  {
    if Width(f) > 0 {
      var img := image[..];
      var bytes := Patched(img, f, delta);
      forall x | f.at <= x < f.at + Width(f) {
        image[x] := bytes[x - f.at];
      }
      ApplyOneBytes(img, f, delta);
      assert image[..] == ApplyOne(img, f, delta);
    }
  }

  /** The image so far: the fixups done applied to img, whose table at lo..hi is untouched. */
  ghost predicate Progress(img: seq<Byte>, now: seq<Byte>, done: seq<Fixup>, delta: int, lo: nat, hi: nat) {
    Inside(done, |img|) && now == Apply(img, done, delta) && SameOn(now, img, lo, hi)
  }

  lemma OneMore(img: seq<Byte>, now: seq<Byte>, done: seq<Fixup>, f: Fixup, delta: int, lo: nat, hi: nat)
    requires Progress(img, now, done, delta, lo, hi)
    requires SlotFits(f, |img|) && Avoids([f], lo, hi)
    ensures Progress(img, ApplyOne(now, f, delta), done + [f], delta, lo, hi)
  {
    ApplySnoc(img, done, f, delta);
    assert forall x :: lo <= x < hi ==> !InSlot([f][0], x);
    PatchKeepsTable(img, now, f, delta, lo, hi);
  }

  lemma SameEntry(a: seq<Byte>, b: seq<Byte>, lo: nat, hi: nat, p: nat, i: nat)
    requires SameOn(a, b, lo, hi) && lo <= p && p + 8 + 2 * i + 2 <= hi
    ensures Entry(a, p, i) == Entry(b, p, i)
  {
    SameRead(a, b, lo, hi, p, 4);
    SameRead(a, b, lo, hi, p + 8 + 2 * i, 2);
  }

  /** One turn of the loop over the entries of the block at p. */
  method FixupEntry(image: array<Byte>, p: nat, i: nat, delta: int,
                    ghost img: seq<Byte>, ghost done: seq<Fixup>, ghost lo: nat, ghost hi: nat)
    returns (ok: bool)
    requires Progress(img, image[..], done, delta, lo, hi) && lo <= p && p + 8 + 2 * i + 2 <= hi
    requires SlotFits(Entry(img, p, i), |img|) && Avoids([Entry(img, p, i)], lo, hi)
    modifies image
    ensures ok <==> Known(Entry(img, p, i))
    ensures Progress(img, image[..], if ok then done + [Entry(img, p, i)] else done, delta, lo, hi)
  {
    SameEntry(image[..], img, lo, hi, p, i);
    var f := Entry(image[..], p, i);
    ok := Known(f);
    if ok {
      OneMore(img, image[..], done, f, delta, lo, hi);
      Patch(image, f, delta);
    }
  }

  /** The prefix of fs that is handled: up to the first unknown type. */
  ghost function Handled(fs: seq<Fixup>): (hs: seq<Fixup>)
    ensures hs <= fs
  {
    if fs == [] || !Known(fs[0]) then [] else [fs[0]] + Handled(fs[1..])
  }

  lemma {:induction false} HandledProperties(fs: seq<Fixup>)
    ensures forall i :: 0 <= i < |Handled(fs)| ==> Known(fs[i])
    ensures |Handled(fs)| < |fs| ==> !Known(fs[|Handled(fs)|])
  {
    if fs != [] {
      HandledProperties(fs[1..]);
    }
  }

  /** What is handled is determined by these properties. */
  lemma {:induction false} HandledIs(fs: seq<Fixup>, k: nat)
    requires k <= |fs| && (forall i :: 0 <= i < k ==> Known(fs[i]))
    requires k < |fs| ==> !Known(fs[k])
    ensures Handled(fs) == fs[..k]
  {
    if k > 0 {
      HandledIs(fs[1..], k - 1);
      assert [fs[0]] + fs[1..][..k - 1] == fs[..k];
    }
  }

  lemma AllHandled(fs: seq<Fixup>)
    ensures Handled(fs) == fs <==> AllKnown(fs)
  {
    HandledProperties(fs);
    if Handled(fs) != fs {
      assert |Handled(fs)| < |fs|;
    }
  }

  lemma {:induction false} HandledConcat(fs: seq<Fixup>, gs: seq<Fixup>)
    ensures Handled(fs + gs) == if Handled(fs) == fs then fs + Handled(gs) else Handled(fs)
  {
    if fs == [] {
      assert fs + gs == gs;
    } else {
      assert (fs + gs)[1..] == fs[1..] + gs;
      HandledConcat(fs[1..], gs);
      assert fs == [fs[0]] + fs[1..];
    }
  }

  /** The loop over the entries of one block: it stops at the first unknown type. */
  method FixupBlock(image: array<Byte>, p: nat, size: nat, delta: int, ghost img: seq<Byte>, ghost done: seq<Fixup>,
                    ghost fs: seq<Fixup>, ghost lo: nat, ghost hi: nat)
    returns (ok: bool)
    requires Progress(img, image[..], done, delta, lo, hi) && lo <= p && p + 8 + 2 * size <= hi
    requires fs == BlockFixups(img, p, size) && Inside(Handled(fs), |img|) && Avoids(Handled(fs), lo, hi)
    modifies image
    ensures ok <==> AllKnown(fs)
    ensures Progress(img, image[..], done + Handled(fs), delta, lo, hi)
  {
    var i := 0;
    ghost var now := done;
    Prefixes(done, fs);
    while i < size
      invariant 0 <= i <= size && now == done + fs[..i]
      invariant Progress(img, image[..], now, delta, lo, hi)
      invariant forall j :: 0 <= j < i ==> Known(fs[j])
    {
      EntryOf(img, p, size, fs, i, lo, hi);
      ok := FixupEntry(image, p, i, delta, img, now, lo, hi);
      if !ok {
        HandledIs(fs, i);
        return;
      }
      now := now + [fs[i]];
      i := i + 1;
    }
    HandledIs(fs, size);
    ok := true;
  }

  /** An entry that the loop comes to is handled or of unknown type. */
  lemma EntryOf(img: seq<Byte>, p: nat, size: nat, fs: seq<Fixup>, i: nat, lo: nat, hi: nat)
    requires p + 8 + 2 * size <= hi <= |img| && i < size
    requires fs == BlockFixups(img, p, size) && Inside(Handled(fs), |img|) && Avoids(Handled(fs), lo, hi)
    requires forall j :: 0 <= j < i ==> Known(fs[j])
    ensures fs[i] == Entry(img, p, i) && SlotFits(fs[i], |img|) && Avoids([fs[i]], lo, hi)
  {
    if Known(fs[i]) {
      HandledProperties(fs);
      assert i < |Handled(fs)| && Handled(fs)[i] == fs[i];
    }
  }

  lemma Prefixes(done: seq<Fixup>, fs: seq<Fixup>)
    ensures done + fs[..0] == done && fs[..|fs|] == fs
    ensures forall i :: 0 <= i < |fs| ==> done + fs[..i + 1] == done + fs[..i] + [fs[i]]
  {
  }

  /** fixup_reloc, for a table of n blocks; delta is the load address minus ImageBase. The caller
      vouches for what the code does not check: what is read of the table is inside the image, and so
      are the slots that are patched, outside the table. Without an unknown type all fixups are
      applied; otherwise those before the first one. */
  method FixupReloc(image: array<Byte>, table: nat, dirSize: nat, delta: int, ghost n: nat)
    returns (ok: bool)
    requires dirSize != 0 ==> TableAt(image[..], table, n)
    requires dirSize != 0 ==> Inside(Handled(Fixups(image[..], table, n)), image.Length)
    requires dirSize != 0 ==>
               Avoids(Handled(Fixups(image[..], table, n)), table, TableEnd(image[..], table, n))
    modifies image
    ensures dirSize == 0 ==> ok && image[..] == old(image[..])
    ensures dirSize != 0 ==>
              (ok <==> AllKnown(Fixups(old(image[..]), table, n)))
    ensures dirSize != 0 ==>
              image[..] == Apply(old(image[..]), Handled(Fixups(old(image[..]), table, n)), delta)
  {
    if dirSize == 0 {
      return true;
    }
    ghost var img, fs := image[..], Fixups(image[..], table, n);
    ok := FixupBlocks(image, table, delta, n, img, fs, TableEnd(img, table, n));
    AllHandled(fs);
  }

  /** The table from the block at p on: m blocks whose entries are rest. */
  ghost predicate AtBlock(img: seq<Byte>, p: nat, m: nat, rest: seq<Fixup>, lo: nat, hi: nat) {
    && lo <= p && TableAt(img, p, m) && TableEnd(img, p, m) == hi && Fixups(img, p, m) == rest
    && Inside(Handled(rest), |img|) && Avoids(Handled(rest), lo, hi)
  }

  /** The table at a block that is not the last. */
  lemma TableNext(img: seq<Byte>, p: nat, m: nat, q: nat)
    requires TableAt(img, p, m) && BlockSize(img, p) != 0 && q == p + BlockSize(img, p)
    ensures m > 0 && BlockAt(img, p) && q <= TableEnd(img, p, m)
    ensures !AllKnown(Block(img, p)) ==> Fixups(img, p, m) == Block(img, p)
    ensures AllKnown(Block(img, p)) ==>
              && TableAt(img, q, m - 1) && TableEnd(img, p, m) == TableEnd(img, q, m - 1)
              && Fixups(img, p, m) == Block(img, p) + Fixups(img, q, m - 1)
  {
  }

  lemma NextKnown(img: seq<Byte>, p: nat, m: nat, rest: seq<Fixup>, lo: nat, hi: nat, q: nat, more: seq<Fixup>)
    requires AtBlock(img, p, m, rest, lo, hi) && BlockSize(img, p) != 0 && q == p + BlockSize(img, p)
    requires m > 0 && BlockAt(img, p) && AllKnown(Block(img, p))
    requires TableAt(img, q, m - 1) && more == Fixups(img, q, m - 1)
    ensures rest == Block(img, p) + more && AtBlock(img, q, m - 1, more, lo, hi)
    ensures Inside(Block(img, p), |img|) && Avoids(Block(img, p), lo, hi)
  {
    TableNext(img, p, m, q);
    AllHandled(Block(img, p));
    PartOf(rest, Block(img, p), more, |img|, lo, hi);
  }

  /** The block at p: inside the table, with what is handled of it inside the image. */
  lemma BlockHandled(img: seq<Byte>, p: nat, m: nat, rest: seq<Fixup>, lo: nat, hi: nat, q: nat)
    requires AtBlock(img, p, m, rest, lo, hi) && BlockSize(img, p) != 0 && q == p + BlockSize(img, p)
    ensures m > 0 && lo <= p && BlockAt(img, p) && p + 8 + 2 * Count(BlockSize(img, p)) <= q <= hi <= |img|
    ensures Inside(Handled(Block(img, p)), |img|) && Avoids(Handled(Block(img, p)), lo, hi)
  {
    TableNext(img, p, m, q);
    if AllKnown(Block(img, p)) {
      KnownHandled(img, p, m, rest, lo, hi, q);
    }
  }

  lemma KnownHandled(img: seq<Byte>, p: nat, m: nat, rest: seq<Fixup>, lo: nat, hi: nat, q: nat)
    requires AtBlock(img, p, m, rest, lo, hi) && BlockSize(img, p) != 0 && q == p + BlockSize(img, p)
    requires m > 0 && BlockAt(img, p) && AllKnown(Block(img, p)) && TableAt(img, q, m - 1)
    ensures Inside(Handled(Block(img, p)), |img|) && Avoids(Handled(Block(img, p)), lo, hi)
  {
    AllHandled(Block(img, p));
    NextKnown(img, p, m, rest, lo, hi, q, Fixups(img, q, m - 1));
  }

  lemma UnknownIsLast(img: seq<Byte>, p: nat, m: nat, rest: seq<Fixup>, lo: nat, hi: nat, q: nat)
    requires AtBlock(img, p, m, rest, lo, hi) && BlockSize(img, p) != 0 && q == p + BlockSize(img, p)
    requires BlockAt(img, p) && !AllKnown(Block(img, p))
    ensures rest == Block(img, p) + []
  {
    TableNext(img, p, m, q);
    assert rest + [] == rest;
  }

  lemma LastBlock(img: seq<Byte>, p: nat, m: nat, rest: seq<Fixup>, lo: nat, hi: nat, all: seq<Fixup>, done: seq<Fixup>)
    requires AtBlock(img, p, m, rest, lo, hi) && BlockSize(img, p) == 0 && Cut(all, done, rest)
    ensures all == done && Handled(all) == all
  {
    assert rest == [] && done + [] == done;
  }

  /** The table all is handled up to rest. */
  ghost predicate Cut(all: seq<Fixup>, done: seq<Fixup>, rest: seq<Fixup>) {
    all == done + rest && Handled(done) == done
  }

  lemma CutNext(all: seq<Fixup>, done: seq<Fixup>, fs: seq<Fixup>, more: seq<Fixup>)
    requires Cut(all, done, fs + more) && Handled(fs) == fs
    ensures Cut(all, done + Handled(fs), more)
  {
    assert Handled(done + fs) == done + fs by { HandledConcat(done, fs); }
    assert all == (done + fs) + more by { assert done + (fs + more) == (done + fs) + more; }
  }

  lemma CutStop(all: seq<Fixup>, done: seq<Fixup>, fs: seq<Fixup>, more: seq<Fixup>)
    requires Cut(all, done, fs + more) && Handled(fs) != fs
    ensures Handled(all) == done + Handled(fs) && Handled(all) != all
  {
    HandledConcat(fs, more);
    HandledConcat(done, fs + more);
    HandledProperties(fs);
    assert |Handled(fs)| < |fs|;
  }

  /** One turn of the loop over the blocks, at a block that is not the last. */
  method FixupNext(image: array<Byte>, p: nat, size: nat, delta: int, ghost m: nat, ghost img: seq<Byte>,
                   ghost all: seq<Fixup>, ghost done: seq<Fixup>, ghost rest: seq<Fixup>, ghost lo: nat, ghost hi: nat)
    returns (ok: bool, q: nat, ghost m': nat, ghost now: seq<Byte>, ghost done': seq<Fixup>, ghost rest': seq<Fixup>)
    requires AtBlock(img, p, m, rest, lo, hi) && BlockSize(img, p) == size != 0
    requires Cut(all, done, rest) && Progress(img, image[..], done, delta, lo, hi)
    modifies image
    ensures image[..] == now && Progress(img, now, done', delta, lo, hi)
    ensures ok ==> AtBlock(img, q, m', rest', lo, hi) && m' < m && Cut(all, done', rest')
    ensures !ok ==> done' == Handled(all) && Handled(all) != all
  {
    q := p + size;
    BlockHandled(img, p, m, rest, lo, hi, q);
    ghost var fs := Block(img, p);
    ok := FixupBlock(image, p, Count(size), delta, img, done, fs, lo, hi);
    now, done', m' := image[..], done + Handled(fs), m - 1;
    assert Progress(img, now, done', delta, lo, hi);
    rest' := AfterBlock(img, p, m, rest, lo, hi, q, all, done);
  }

  /** Behind a block: at the next one, or at the end of what is handled. */
  lemma AfterBlock(img: seq<Byte>, p: nat, m: nat, rest: seq<Fixup>, lo: nat, hi: nat, q: nat,
                   all: seq<Fixup>, done: seq<Fixup>) returns (rest': seq<Fixup>)
    requires AtBlock(img, p, m, rest, lo, hi) && BlockSize(img, p) != 0 && q == p + BlockSize(img, p)
    requires m > 0 && BlockAt(img, p) && Cut(all, done, rest)
    ensures AllKnown(Block(img, p)) ==>
              AtBlock(img, q, m - 1, rest', lo, hi) && Cut(all, done + Handled(Block(img, p)), rest')
    ensures !AllKnown(Block(img, p)) ==> done + Handled(Block(img, p)) == Handled(all) && Handled(all) != all
  {
    var fs := Block(img, p);
    AllHandled(fs);
    if AllKnown(fs) {
      TableNext(img, p, m, q);
      rest' := Fixups(img, q, m - 1);
      NextKnown(img, p, m, rest, lo, hi, q, rest');
      CutNext(all, done, fs, rest');
    } else {
      rest' := [];
      UnknownIsLast(img, p, m, rest, lo, hi, q);
      CutStop(all, done, fs, []);
    }
  }

  lemma Start(img: seq<Byte>, all: seq<Fixup>, delta: int, lo: nat, hi: nat)
    requires lo <= hi <= |img|
    ensures Cut(all, [], all) && Progress(img, img, [], delta, lo, hi)
  {
    assert [] + all == all;
  }

  /** SizeOfBlock, read from the image as it is now. */
  method ReadSize(image: array<Byte>, p: nat, ghost img: seq<Byte>, ghost lo: nat, ghost hi: nat) returns (size: nat)
    requires SameOn(image[..], img, lo, hi) && lo <= p && p + 8 <= hi
    ensures size == BlockSize(img, p)
  {
    SameRead(image[..], img, lo, hi, p + 4, 4);
    size := BlockSize(image[..], p);
  }

  /** The loop over the blocks. */
  method FixupBlocks(image: array<Byte>, table: nat, delta: int, ghost n: nat, ghost img: seq<Byte>,
                     ghost all: seq<Fixup>, ghost hi: nat)
    returns (ok: bool)
    requires image[..] == img && AtBlock(img, table, n, all, table, hi)
    modifies image
    ensures ok <==> Handled(all) == all
    ensures Progress(img, image[..], Handled(all), delta, table, hi)
  {
    var p := table;
    ghost var m, now, done, rest := n, img, [], all;
    Start(img, all, delta, table, hi);
    while true
      invariant AtBlock(img, p, m, rest, table, hi) && Cut(all, done, rest)
      invariant image[..] == now && Progress(img, now, done, delta, table, hi)
      decreases m
    {
      var size := ReadSize(image, p, img, table, hi);
      if size == 0 {
        LastBlock(img, p, m, rest, table, hi, all, done);
        return true;
      }
      ok, p, m, now, done, rest := FixupNext(image, p, size, delta, m, img, all, done, rest, table, hi);
      if !ok {
        return;
      }
    }
  }

  /** What is handled of a known block, and of the rest behind it. */
  lemma PartOf(rest: seq<Fixup>, fs: seq<Fixup>, more: seq<Fixup>, n: nat, lo: nat, hi: nat)
    requires rest == fs + more && Handled(fs) == fs && Inside(Handled(rest), n) && Avoids(Handled(rest), lo, hi)
    ensures Inside(fs, n) && Avoids(fs, lo, hi)
    ensures Inside(Handled(more), n) && Avoids(Handled(more), lo, hi)
  {
    HandledConcat(fs, more);
    Halves(Handled(rest), fs, Handled(more), n, lo, hi);
  }

  lemma Halves(hs: seq<Fixup>, fs: seq<Fixup>, ms: seq<Fixup>, n: nat, lo: nat, hi: nat)
    requires hs == fs + ms && Inside(hs, n) && Avoids(hs, lo, hi)
    ensures Inside(fs, n) && Avoids(fs, lo, hi) && Inside(ms, n) && Avoids(ms, lo, hi)
  {
    assert forall i :: 0 <= i < |fs| ==> hs[i] == fs[i];
    assert forall i :: 0 <= i < |ms| ==> ms[i] == hs[|fs| + i];
  }
}
