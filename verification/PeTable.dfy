/** The relocation table as bytes, after the section on ".reloc" of the Microsoft PE/COFF specification:
    blocks of a page address, a block size and entries of two bytes, ended by an empty block. Written
    independently of the code that reads it. */
module PeTable {
  import opened PeLinker
  import opened PeReloc

  /** An entry: a type of 4 bits and an offset of 12 bits in its page. */
  datatype Item = Item(kind: nat, offset: nat)

  datatype Page = Page(address: nat, items: seq<Item>)

  predicate Proper(b: Page) {
    && b.address + 0x1000 <= U32 && 8 + 2 * |b.items| < U32
    && forall i :: 0 <= i < |b.items| ==> b.items[i].kind < 16 && b.items[i].offset < 0x1000
  }

  function Bytes2(n: nat): (b: seq<Byte>)
    ensures |b| == 2
  {
    [n % 0x100, n / 0x100 % 0x100]
  }

  function Bytes4(n: nat): (b: seq<Byte>)
    ensures |b| == 4
  {
    [n % 0x100, n / 0x100 % 0x100, n / 0x1_0000 % 0x100, n / 0x100_0000 % 0x100]
  }

  function EncodeItems(items: seq<Item>): (b: seq<Byte>)
    ensures |b| == 2 * |items|
  {
    if items == [] then [] else Bytes2(items[0].kind * 0x1000 + items[0].offset) + EncodeItems(items[1..])
  }

  function EncodePage(b: Page): seq<Byte> {
    Bytes4(b.address) + Bytes4(8 + 2 * |b.items|) + EncodeItems(b.items)
  }

  function EncodeTable(bs: seq<Page>): seq<Byte> {
    if bs == [] then Bytes4(0) + Bytes4(0) else EncodePage(bs[0]) + EncodeTable(bs[1..])
  }

  /** What the table asks for: each entry's type, at its page's address plus its offset. */
  function Asked(bs: seq<Page>): seq<Fixup> {
    if bs == [] then [] else AskedBy(bs[0]) + Asked(bs[1..])
  }

  function AskedBy(b: Page): (fs: seq<Fixup>)
    ensures |fs| == |b.items|
    ensures forall i :: 0 <= i < |fs| ==> fs[i] == Fixup(b.items[i].kind, b.address + b.items[i].offset)
  {
    seq(|b.items|, i requires 0 <= i < |b.items| => Fixup(b.items[i].kind, b.address + b.items[i].offset))
  }

  ghost predicate HoldsAt(img: seq<Byte>, p: nat, b: seq<Byte>) {
    p + |b| <= |img| && img[p..p + |b|] == b
  }

  // ------------------------------------------------------------------- reading it back

  /** The number of two bytes, the lower first. */
  function Join(low: Byte, high: Byte): nat {
    (low as int) + 0x100 * (high as int)
  }

  lemma LE2(b: seq<Byte>)
    requires |b| == 2
    ensures LE(b) == Join(b[0], b[1])
  {
    assert b[1..][1..] == [] && b[1..][0] == b[1];
    assert LE(b[1..]) == b[1];
  }

  lemma LE4(b: seq<Byte>)
    requires |b| == 4
    ensures LE(b) == Join(b[0], b[1]) + 0x1_0000 * Join(b[2], b[3])
  {
    LE2(b[2..]);
    assert b[1..][1..] == b[2..];
    assert LE(b[1..]) == b[1] + 0x100 * LE(b[2..]);
  }

  lemma LE8(b: seq<Byte>)
    requires |b| == 8
    ensures LE(b) == LE(b[..4]) + U32 * LE(b[4..])
  {
    LE4(b[..4]);
    assert b[1..][1..] == b[2..] && b[2..][1..] == b[3..] && b[3..][1..] == b[4..];
    assert LE(b[3..]) == b[3] + 0x100 * LE(b[4..]);
    assert LE(b[2..]) == b[2] + 0x100 * LE(b[3..]);
    assert LE(b[1..]) == b[1] + 0x100 * LE(b[2..]);
  }

  lemma Bytes2Back(n: nat)
    requires n < 0x1_0000
    ensures LE(Bytes2(n)) == n
  {
    LE2(Bytes2(n));
  }

  lemma Bytes4Back(n: nat)
    requires n < U32
    ensures LE(Bytes4(n)) == n
  {
    var m := n / 0x1_0000;
    HalfWord(n, n % 0x1_0000, m);
    assert Join(m % 0x100, m / 0x100 % 0x100) == m;
    LE4(Bytes4(n));
  }

  lemma HalfWord(n: nat, low: nat, high: nat)
    requires n == high * 0x1_0000 + low && low < 0x1_0000
    ensures n % 0x100 == low % 0x100 && n / 0x100 % 0x100 == low / 0x100
    ensures n / 0x1_0000 % 0x100 == high % 0x100 && n / 0x100_0000 % 0x100 == high / 0x100 % 0x100
  {
    assert n == (high * 0x100 + low / 0x100) * 0x100 + low % 0x100;
    assert n / 0x100 == high * 0x100 + low / 0x100;
    assert n / 0x100_0000 == high / 0x100;
  }

  lemma PartHolds(img: seq<Byte>, p: nat, a: seq<Byte>, b: seq<Byte>)
    requires HoldsAt(img, p, a + b)
    ensures HoldsAt(img, p, a) && HoldsAt(img, p + |a|, b)
  {
    var whole := img[p..p + |a + b|];
    assert img[p..p + |a|] == whole[..|a|] == a;
    assert img[p + |a|..p + |a| + |b|] == whole[|a|..] == b;
  }

  lemma {:induction false} ItemHolds(img: seq<Byte>, p: nat, items: seq<Item>, i: nat)
    requires i < |items| && HoldsAt(img, p, EncodeItems(items))
    ensures HoldsAt(img, p + 2 * i, Bytes2(items[i].kind * 0x1000 + items[i].offset))
    decreases i
  {
    PartHolds(img, p, Bytes2(items[0].kind * 0x1000 + items[0].offset), EncodeItems(items[1..]));
    if i > 0 {
      ItemHolds(img, p + 2, items[1..], i - 1);
    }
  }

  lemma PageRead(img: seq<Byte>, p: nat, b: Page)
    requires Proper(b) && HoldsAt(img, p, EncodePage(b))
    ensures p + 8 + 2 * |b.items| <= |img|
    ensures Read(img, p, 4) == b.address && BlockSize(img, p) == 8 + 2 * |b.items|
    ensures HoldsAt(img, p + 8, EncodeItems(b.items))
  {
    PartHolds(img, p, Bytes4(b.address) + Bytes4(8 + 2 * |b.items|), EncodeItems(b.items));
    PartHolds(img, p, Bytes4(b.address), Bytes4(8 + 2 * |b.items|));
    Bytes4Back(b.address);
    Bytes4Back(8 + 2 * |b.items|);
  }

  lemma SplitEntry(kind: nat, offset: nat)
    requires kind < 16 && offset < 0x1000
    ensures (kind * 0x1000 + offset) / 4096 % 16 == kind && (kind * 0x1000 + offset) % 4096 == offset
  {
  }

  lemma ItemRead(img: seq<Byte>, p: nat, b: Page, i: nat)
    requires Proper(b) && HoldsAt(img, p, EncodePage(b)) && i < |b.items|
    ensures p + 8 + 2 * i + 2 <= |img|
    ensures Entry(img, p, i) == Fixup(b.items[i].kind, b.address + b.items[i].offset)
  {
    var x := b.items[i];
    PageRead(img, p, b);
    ItemHolds(img, p + 8, b.items, i);
    WordRead(img, p + 8 + 2 * i, x.kind * 0x1000 + x.offset);
    EntryOfWord(img, p, i, b.address, x.kind, x.offset);
  }

  lemma WordRead(img: seq<Byte>, p: nat, n: nat)
    requires n < 0x1_0000 && HoldsAt(img, p, Bytes2(n))
    ensures Read(img, p, 2) == n
  {
    Bytes2Back(n);
  }

  lemma EntryOfWord(img: seq<Byte>, p: nat, i: nat, address: nat, kind: nat, offset: nat)
    requires p + 8 + 2 * i + 2 <= |img| && kind < 16 && offset < 0x1000 && address + 0x1000 <= U32
    requires Read(img, p, 4) == address && Read(img, p + 8 + 2 * i, 2) == kind * 0x1000 + offset
    ensures Entry(img, p, i) == Fixup(kind, address + offset)
  {
    SplitEntry(kind, offset);
  }

  /** A page reads back as what it asks for. */
  lemma PageIs(img: seq<Byte>, p: nat, b: Page)
    requires Proper(b) && HoldsAt(img, p, EncodePage(b))
    ensures BlockAt(img, p) && p + BlockSize(img, p) == p + |EncodePage(b)| && Block(img, p) == AskedBy(b)
  {
    PageRead(img, p, b);
    forall i | 0 <= i < |b.items|
      ensures Block(img, p)[i] == AskedBy(b)[i]
    {
      ItemRead(img, p, b, i);
    }
  }

  /** The types that are accepted: IMAGE_REL_BASED_ABSOLUTE, _HIGHLOW and _DIR64. */
  lemma AcceptedTypes(fs: seq<Fixup>)
    ensures AllKnown(fs) <==> forall i :: 0 <= i < |fs| ==> fs[i].kind == 0 || fs[i].kind == 3 || fs[i].kind == 10
  {
    assert forall i :: 0 <= i < |fs| ==> (Known(fs[i]) <==> fs[i].kind == 0 || fs[i].kind == 3 || fs[i].kind == 10);
  }

  ghost predicate AllProper(bs: seq<Page>) {
    forall i :: 0 <= i < |bs| ==> Proper(bs[i])
  }

  /** The n blocks at p, up to end, ask for these fixups. */
  ghost predicate Reads(img: seq<Byte>, p: nat, n: nat, asked: seq<Fixup>, end: nat) {
    && TableAt(img, p, n) && TableEnd(img, p, n) <= end
    && Handled(Fixups(img, p, n)) == Handled(asked) && (AllKnown(Fixups(img, p, n)) <==> AllKnown(asked))
  }

  lemma ReadsMore(img: seq<Byte>, p: nat, n: nat, q: nat, more: seq<Fixup>, end: nat)
    requires n > 0 && BlockAt(img, p) && q == p + BlockSize(img, p) <= end && Reads(img, q, n - 1, more, end)
    ensures Reads(img, p, n, Block(img, p) + more, end)
  {
    TableGrows(img, p, n, q);
    SameHandled(Block(img, p), more, Fixups(img, q, n - 1), Block(img, p) + more, Fixups(img, p, n));
  }

  lemma ReadsEnd(img: seq<Byte>, p: nat)
    requires HoldsAt(img, p, Bytes4(0) + Bytes4(0))
    ensures Reads(img, p, 0, [], p + 8)
  {
    PartHolds(img, p, Bytes4(0), Bytes4(0));
    Bytes4Back(0);
  }

  /** So does the table: fixup_reloc handles exactly the entries that it asks for, each at its page's
      address plus its offset, up to the first unknown type. */
  lemma {:induction false} TableIs(img: seq<Byte>, p: nat, bs: seq<Page>)
    requires AllProper(bs) && HoldsAt(img, p, EncodeTable(bs))
    ensures Reads(img, p, |bs|, Asked(bs), p + |EncodeTable(bs)|)
    decreases |bs|
  {
    if bs == [] {
      ReadsEnd(img, p);
    } else {
      var q := p + |EncodePage(bs[0])|;
      PartHolds(img, p, EncodePage(bs[0]), EncodeTable(bs[1..]));
      PageIs(img, p, bs[0]);
      TableIs(img, q, bs[1..]);
      ReadsMore(img, p, |bs|, q, Asked(bs[1..]), p + |EncodeTable(bs)|);
    }
  }

  lemma TableGrows(img: seq<Byte>, p: nat, m: nat, q: nat)
    requires m > 0 && BlockAt(img, p) && q == p + BlockSize(img, p) && TableAt(img, q, m - 1)
    ensures TableAt(img, p, m)
    ensures TableEnd(img, p, m) == if AllKnown(Block(img, p)) then TableEnd(img, q, m - 1) else q
    ensures Fixups(img, p, m) == if AllKnown(Block(img, p)) then Block(img, p) + Fixups(img, q, m - 1) else Block(img, p)
  {
  }

  /** Behind a block only what is handled matters, and that only if the block is known. */
  lemma SameHandled(fs: seq<Fixup>, more: seq<Fixup>, rest: seq<Fixup>, asked: seq<Fixup>, found: seq<Fixup>)
    requires Handled(rest) == Handled(more) && (AllKnown(rest) <==> AllKnown(more))
    requires asked == fs + more && found == if AllKnown(fs) then fs + rest else fs
    ensures Handled(found) == Handled(asked) && (AllKnown(found) <==> AllKnown(asked))
  {
    AllHandled(fs);
    HandledConcat(fs, more);
    HandledConcat(fs, rest);
    KnownConcat(fs, more);
    KnownConcat(fs, rest);
  }

  lemma KnownConcat(fs: seq<Fixup>, gs: seq<Fixup>)
    ensures AllKnown(fs + gs) <==> AllKnown(fs) && AllKnown(gs)
  {
    assert forall i :: 0 <= i < |fs| ==> (fs + gs)[i] == fs[i];
    assert forall i :: 0 <= i < |gs| ==> (fs + gs)[|fs| + i] == gs[i];
  }

  // ----------------------------------------------------------------- what is relocated

  function Word32(img: seq<Byte>, a: nat): nat
    requires a + 4 <= |img|
  {
    Join(img[a], img[a + 1]) + 0x1_0000 * Join(img[a + 2], img[a + 3])
  }

  function Word64(img: seq<Byte>, a: nat): nat
    requires a + 8 <= |img|
  {
    Word32(img, a) + 0x1_0000_0000 * Word32(img, a + 4)
  }

  lemma ValueIs(img: seq<Byte>, f: Fixup)
    requires f.at + Width(f) <= |img|
    ensures f.kind == 3 ==> f.at + 4 <= |img| && Value(img, f) == Word32(img, f.at)
    ensures f.kind == 10 ==> f.at + 8 <= |img| && Value(img, f) == Word64(img, f.at)
  {
    if f.kind == 3 {
      LE4(img[f.at..f.at + 4]);
    } else if f.kind == 10 {
      var b := img[f.at..f.at + 8];
      LE8(b);
      LE4(b[..4]);
      LE4(b[4..]);
    }
  }

  lemma HandlesAsked(img: seq<Byte>, table: nat, bs: seq<Page>)
    requires AllProper(bs) && HoldsAt(img, table, EncodeTable(bs)) && AllKnown(Asked(bs))
    ensures TableAt(img, table, |bs|) && Handled(Fixups(img, table, |bs|)) == Asked(bs)
  {
    TableIs(img, table, bs);
    AllHandled(Asked(bs));
  }

  /** What entry f does to the image. */
  predicate Moved(f: Fixup, img: seq<Byte>, after: seq<Byte>, delta: int) {
    && |after| == |img| && (f.kind == 0 || f.kind == 3 || f.kind == 10)
    && (f.kind == 3 ==> f.at + 4 <= |img| && Word32(after, f.at) == (Word32(img, f.at) + delta) % 0x1_0000_0000)
    && (f.kind == 10 ==>
          f.at + 8 <= |img| && Word64(after, f.at) == (Word64(img, f.at) + delta) % 0x1_0000_0000_0000_0000)
  }

  lemma SlotMoves(img: seq<Byte>, fs: seq<Fixup>, delta: int, k: nat)
    requires AllKnown(fs) && Inside(fs, |img|) && Separate(fs) && k < |fs|
    ensures Moved(fs[k], img, Apply(img, fs, delta), delta)
  {
    assert Known(fs[k]);
    if Width(fs[k]) > 0 {
      RelocatedValue(img, fs, delta, k);
      ValueIs(img, fs[k]);
      ValueIs(Apply(img, fs, delta), fs[k]);
    }
  }

  /** An image whose table holds these pages, after fixup_reloc: each entry of type 3 has its 32-bit
      word, and each of type 10 its 64-bit word, moved by delta. Only these types and 0 are accepted. */
  lemma MovesWhatIsAsked(img: seq<Byte>, table: nat, bs: seq<Page>, delta: int, after: seq<Byte>, k: nat)
    requires AllProper(bs) && HoldsAt(img, table, EncodeTable(bs)) && TableAt(img, table, |bs|)
    requires AllKnown(Asked(bs)) && Inside(Asked(bs), |img|) && Separate(Asked(bs)) && k < |Asked(bs)|
    requires Inside(Handled(Fixups(img, table, |bs|)), |img|)
    requires after == Apply(img, Handled(Fixups(img, table, |bs|)), delta)
    ensures Moved(Asked(bs)[k], img, after, delta)
  {
    HandlesAsked(img, table, bs);
    SlotMoves(img, Asked(bs), delta, k);
  }

  /** ... and no other byte changes. */
  lemma MovesNothingElse(img: seq<Byte>, table: nat, bs: seq<Page>, delta: int, after: seq<Byte>, x: nat)
    requires AllProper(bs) && HoldsAt(img, table, EncodeTable(bs)) && TableAt(img, table, |bs|)
    requires AllKnown(Asked(bs)) && Inside(Asked(bs), |img|) && x < |img|
    requires Inside(Handled(Fixups(img, table, |bs|)), |img|)
    requires after == Apply(img, Handled(Fixups(img, table, |bs|)), delta)
    requires forall i :: 0 <= i < |Asked(bs)| ==> !Patches(Asked(bs)[i], x)
    ensures after[x] == img[x]
  {
    HandlesAsked(img, table, bs);
    var fs := Asked(bs);
    assert forall i :: 0 <= i < |fs| ==> !Patches(fs[i], x) && !InSlot(fs[i], x);
    ApplyFrame(img, fs, delta, x);
  }

  /** The bytes an entry is about. */
  predicate Patches(f: Fixup, x: int) {
    (f.kind == 3 && f.at <= x < f.at + 4) || (f.kind == 10 && f.at <= x < f.at + 8)
  }
}
