/** NdisCopyFromPacketToPacketSafe (ndis.c): copying between two chains of buffers. */
module PacketCopy {
  import opened Basics

  type Byte = x: int | 0 <= x < 256

  // ---------------------------------------------------------------- flat contents

  function Flat(c: seq<seq<Byte>>): seq<Byte> {
    if c == [] then [] else c[0] + Flat(c[1..])
  }

  /** Where buffer i starts in the flat contents. */
  function Start(c: seq<seq<Byte>>, i: nat): (n: nat)
    requires i <= |c|
  {
    |Flat(c[..i])|
  }

  lemma {:induction false} FlatConcat(a: seq<seq<Byte>>, b: seq<seq<Byte>>)
    ensures Flat(a + b) == Flat(a) + Flat(b)
  {
    if a == [] {
      assert a + b == b;
    } else {
      assert (a + b)[1..] == a[1..] + b;
      FlatConcat(a[1..], b);
    }
  }

  /** The flat contents around buffer i. */
  lemma FlatSplit(c: seq<seq<Byte>>, i: nat)
    requires i < |c|
    ensures Flat(c) == Flat(c[..i]) + c[i] + Flat(c[i + 1..])
    ensures Start(c, i + 1) == Start(c, i) + |c[i]| <= |Flat(c)|
  {
    assert c == c[..i] + ([c[i]] + c[i + 1..]);
    FlatConcat(c[..i], [c[i]] + c[i + 1..]);
    assert ([c[i]] + c[i + 1..])[1..] == c[i + 1..];
    assert c[..i + 1] == c[..i] + [c[i]];
    FlatConcat(c[..i], [c[i]]);
    assert Flat([c[i]]) == c[i] + Flat([]);
  }

  /** s with data written over it at place k. */
  function Splice(s: seq<Byte>, k: nat, data: seq<Byte>): (r: seq<Byte>)
    requires k + |data| <= |s|
    ensures |r| == |s|
  {
    s[..k] + data + s[k + |data|..]
  }

  /** Writing into buffer i writes into the flat contents, at its start plus the offset. */
  lemma FlatWrite(c: seq<seq<Byte>>, i: nat, off: nat, data: seq<Byte>)
    requires i < |c| && off + |data| <= |c[i]|
    ensures Start(c, i) + off + |data| <= |Flat(c)|
    ensures Flat(c[i := Splice(c[i], off, data)]) == Splice(Flat(c), Start(c, i) + off, data)
  {
    var c' := c[i := Splice(c[i], off, data)];
    FlatSplit(c, i);
    FlatSplit(c', i);
    assert c'[..i] == c[..i] && c'[i + 1..] == c[i + 1..];
    SpliceMid(Flat(c[..i]), c[i], Flat(c[i + 1..]), off, data);
  }

  lemma SpliceMid(a: seq<Byte>, m: seq<Byte>, b: seq<Byte>, off: nat, data: seq<Byte>)
    requires off + |data| <= |m|
    ensures a + Splice(m, off, data) + b == Splice(a + m + b, |a| + off, data)
  {
  }

  lemma FlatRead(c: seq<seq<Byte>>, i: nat, off: nat, n: nat)
    requires i < |c| && off + n <= |c[i]|
    ensures Start(c, i) + off + n <= |Flat(c)|
    ensures c[i][off..off + n] == Flat(c)[Start(c, i) + off..Start(c, i) + off + n]
  {
    FlatSplit(c, i);
  }

  /** Two adjacent writes are one. */
  lemma SpliceTwice(s: seq<Byte>, k: nat, a: seq<Byte>, b: seq<Byte>)
    requires k + |a| + |b| <= |s|
    ensures Splice(Splice(s, k, a), k + |a|, b) == Splice(s, k, a + b)
  {
    var s1 := Splice(s, k, a);
    assert s1[..k + |a|] == s[..k] + a;
    assert s1[k + |a| + |b|..] == s[k + |a| + |b|..];
  }

  // ----------------------------------------------------------------- buffer chains

  /** The buffers of the chain hold these bytes. */
  ghost predicate Holds(bufs: seq<array<Byte>>, c: seq<seq<Byte>>)
    reads bufs
  {
    |c| == |bufs| && forall i :: 0 <= i < |bufs| ==> bufs[i][..] == c[i]
  }

  /** No buffer occurs twice in the destination, and none of them is a source buffer. */
  ghost predicate Separate(dst: seq<array<Byte>>, src: seq<array<Byte>>) {
    && (forall i, j :: 0 <= i < j < |dst| ==> dst[i] != dst[j])
    && (forall i, j :: 0 <= i < |dst| && 0 <= j < |src| ==> dst[i] != src[j])
  }

  method Memcpy(dst: array<Byte>, dstOffset: nat, src: array<Byte>, srcOffset: nat, n: nat)
    requires dst != src && dstOffset + n <= dst.Length && srcOffset + n <= src.Length
    modifies dst
    ensures dst[..] == Splice(old(dst[..]), dstOffset, src[srcOffset..srcOffset + n])
  {
    forall k | 0 <= k < n {
      dst[dstOffset + k] := src[srcOffset + k];
    }
  }

  /** w, the bytes of flat from place `from`, has been written over what was, at place `to`. */
  ghost predicate Written(cur: seq<Byte>, was: seq<Byte>, to: nat, flat: seq<Byte>, from: nat, w: seq<Byte>) {
    && to + |w| <= |was| && cur == Splice(was, to, w)
    && from + |w| <= |flat| && w == flat[from..from + |w|]
  }

  lemma ChunkWritten(c: seq<seq<Byte>>, i: nat, dOff: nat, cs: seq<seq<Byte>>, j: nat, sOff: nat, n: nat,
                     was: seq<Byte>, to: nat, from: nat, w: seq<Byte>)
    requires Written(Flat(c), was, to, Flat(cs), from, w)
    requires i < |c| && Start(c, i) + dOff == to + |w| && dOff + n <= |c[i]|
    requires j < |cs| && Start(cs, j) + sOff == from + |w| && sOff + n <= |cs[j]|
    ensures var data := cs[j][sOff..sOff + n];
            Written(Flat(c[i := Splice(c[i], dOff, data)]), was, to, Flat(cs), from, w + data)
  {
    var data := cs[j][sOff..sOff + n];
    FlatRead(cs, j, sOff, n);
    FlatWrite(c, i, dOff, data);
    SpliceTwice(was, to, w, data);
  }

  /** The current buffer of a chain, the offset in it and the bytes left in it. */
  datatype Cursor = Cursor(buf: nat, offset: nat, left: nat)

  /** The cursor stands at place pos of the flat contents. */
  ghost predicate At(c: seq<seq<Byte>>, u: Cursor, pos: nat) {
    u.buf < |c| && u.offset + u.left == |c[u.buf]| && Start(c, u.buf) + u.offset == pos
  }

  function Skip(u: Cursor, n: nat): Cursor
    requires n <= u.left
  {
    Cursor(u.buf, u.offset + n, u.left - n)
  }

  lemma NextBuffer(c: seq<seq<Byte>>, i: nat, pos: nat)
    requires i < |c| && Start(c, i) + |c[i]| == pos
    ensures i + 1 < |c| ==> At(c, Cursor(i + 1, 0, |c[i + 1]|), pos)
    ensures i + 1 == |c| ==> pos == |Flat(c)|
  {
    FlatSplit(c, i);
    if i + 1 == |c| {
      assert c[..i + 1] == c;
    }
  }

  /** A memcpy between the current buffers, as progress of the whole copy. */
  method Advance(dst: seq<array<Byte>>, d: Cursor, src: seq<array<Byte>>, s: Cursor, n: nat,
                 ghost dc: seq<seq<Byte>>, ghost sc: seq<seq<Byte>>,
                 ghost was: seq<Byte>, ghost to: nat, ghost from: nat, ghost w: seq<Byte>)
    returns (ghost dc': seq<seq<Byte>>, ghost w': seq<Byte>)
    requires Separate(dst, src) && Holds(dst, dc) && Holds(src, sc)
    requires Written(Flat(dc), was, to, Flat(sc), from, w)
    requires At(dc, d, to + |w|) && n <= d.left && At(sc, s, from + |w|) && n <= s.left
    modifies dst[d.buf]
    ensures Holds(dst, dc') && Holds(src, sc)
    ensures |w'| == |w| + n && Written(Flat(dc'), was, to, Flat(sc), from, w')
    ensures At(dc', Skip(d, n), to + |w'|) && At(sc, Skip(s, n), from + |w'|)
  {
    ghost var data := sc[s.buf][s.offset..s.offset + n];
    w' := w + data;
    ChunkWritten(dc, d.buf, d.offset, sc, s.buf, s.offset, n, was, to, from, w);
    dc' := CopyChunk(dst, d.buf, d.offset, src, s.buf, s.offset, n, dc, sc);
    assert dc'[..d.buf] == dc[..d.buf];
  }

  method CopyChunk(dst: seq<array<Byte>>, i: nat, dOff: nat, src: seq<array<Byte>>, j: nat, sOff: nat, n: nat,
                   ghost dc: seq<seq<Byte>>, ghost sc: seq<seq<Byte>>)
    returns (ghost dc': seq<seq<Byte>>)
    requires Separate(dst, src) && Holds(dst, dc) && Holds(src, sc)
    requires i < |dst| && dOff + n <= |dc[i]| && j < |src| && sOff + n <= |sc[j]|
    modifies dst[i]
    ensures dc' == dc[i := Splice(dc[i], dOff, sc[j][sOff..sOff + n])]
    ensures Holds(dst, dc') && Holds(src, sc)
  {
    dc' := dc[i := Splice(dc[i], dOff, sc[j][sOff..sOff + n])];
    Memcpy(dst[i], dOff, src[j], sOff, n);
  }

  /** At the end of a buffer, go to the next one of its chain, if any. */
  method Refill(bufs: seq<array<Byte>>, u: Cursor, ghost c: seq<seq<Byte>>, ghost pos: nat)
    returns (u': Cursor, ended: bool)
    requires Holds(bufs, c) && At(c, u, pos)
    ensures ended ==> pos == |Flat(c)|
    ensures !ended ==> At(c, u', pos) && u'.buf == if u.left == 0 then u.buf + 1 else u.buf
  {
    u', ended := u, false;
    if u.left == 0 {
      NextBuffer(c, u.buf, pos);
      ended := u.buf + 1 == |bufs|;
      if !ended {
        u' := Cursor(u.buf + 1, 0, bufs[u.buf + 1].Length);
      }
    }
  }

  /** The whole copy: as many bytes as requested and as both chains have left from their offsets,
      as if both were flat; everything else in the destination stays. A missing packet or chain is
      the empty sequence. dc and sc are what the chains hold. */
  method CopyFromPacketToPacketSafe(dst: seq<array<Byte>>, dstOffset: nat, numToCopy: nat,
                                    src: seq<array<Byte>>, srcOffset: nat,
                                    ghost dc: seq<seq<Byte>>, ghost sc: seq<seq<Byte>>)
    returns (numCopied: nat, ghost dc': seq<seq<Byte>>)
    requires Separate(dst, src) && Holds(dst, dc) && Holds(src, sc)
    requires dst != [] ==> dstOffset <= dst[0].Length
    requires src != [] ==> srcOffset <= src[0].Length
    modifies dst
    ensures Holds(dst, dc') && Holds(src, sc)
    ensures dst == [] || src == [] ==> numCopied == 0 && dc' == dc
    ensures dst != [] && src != [] ==>
              && dstOffset <= |Flat(dc)| && srcOffset <= |Flat(sc)|
              && numCopied == Min(numToCopy, Min(|Flat(sc)| - srcOffset, |Flat(dc)| - dstOffset))
              && Flat(dc') == Splice(Flat(dc), dstOffset, Flat(sc)[srcOffset..srcOffset + numCopied])
  {
    numCopied, dc' := 0, dc;
    if dst != [] && src != [] {
      ghost var w;
      numCopied, dc', w := CopyChains(dst, dstOffset, numToCopy, src, srcOffset, dc, sc);
    }
  }

  /** The memcpy before the loop; the cursors are left behind the bytes it copied. */
  method FirstChunk(dst: seq<array<Byte>>, dstOffset: nat, numToCopy: nat,
                    src: seq<array<Byte>>, srcOffset: nat,
                    ghost dc: seq<seq<Byte>>, ghost sc: seq<seq<Byte>>)
    returns (d: Cursor, s: Cursor, n: nat, ghost dc': seq<seq<Byte>>, ghost w: seq<Byte>)
    requires Separate(dst, src) && Holds(dst, dc) && Holds(src, sc)
    requires dst != [] && dstOffset <= dst[0].Length && src != [] && srcOffset <= src[0].Length
    modifies dst
    ensures Holds(dst, dc') && Holds(src, sc) && |w| == n <= numToCopy
    ensures Written(Flat(dc'), Flat(dc), dstOffset, Flat(sc), srcOffset, w)
    ensures At(dc', d, dstOffset + |w|) && At(sc, s, srcOffset + |w|)
    ensures n < numToCopy ==> d.left == 0 || s.left == 0
  {
    FlatSplit(dc, 0);
    FlatSplit(sc, 0);
    assert Flat(dc) == Splice(Flat(dc), dstOffset, []);
    d := Cursor(0, dstOffset, dst[0].Length - dstOffset);
    s := Cursor(0, srcOffset, src[0].Length - srcOffset);
    n := Min(Min(s.left, d.left), numToCopy);
    dc', w := Advance(dst, d, src, s, n, dc, sc, Flat(dc), dstOffset, srcOffset, []);
    d, s := Skip(d, n), Skip(s, n);
  }

  /** One turn of the loop: it ends where a chain ends; otherwise at least one cursor moves to the
      next buffer. */
  method NextChunk(dst: seq<array<Byte>>, d: Cursor, src: seq<array<Byte>>, s: Cursor, left: nat,
                   ghost dc: seq<seq<Byte>>, ghost sc: seq<seq<Byte>>,
                   ghost was: seq<Byte>, ghost to: nat, ghost from: nat, ghost w: seq<Byte>)
    returns (ended: bool, d': Cursor, s': Cursor, n: nat, ghost dc': seq<seq<Byte>>, ghost w': seq<Byte>)
    requires Separate(dst, src) && Holds(dst, dc) && Holds(src, sc) && (d.left == 0 || s.left == 0)
    requires Written(Flat(dc), was, to, Flat(sc), from, w)
    requires At(dc, d, to + |w|) && At(sc, s, from + |w|)
    modifies dst
    ensures Holds(dst, dc') && Holds(src, sc) && n <= left
    ensures |w'| == |w| + n && Written(Flat(dc'), was, to, Flat(sc), from, w')
    ensures ended ==> n == 0 && (to + |w| == |was| || from + |w| == |Flat(sc)|)
    ensures !ended ==> At(dc', d', to + |w'|) && At(sc, s', from + |w'|)
    ensures !ended ==> d.buf <= d'.buf && s.buf <= s'.buf && d.buf + s.buf < d'.buf + s'.buf
    ensures !ended && n < left ==> d'.left == 0 || s'.left == 0
  {
    n, dc', w', s' := 0, dc, w, s;
    d', ended := Refill(dst, d, dc, to + |w|);
    if !ended {
      s', ended := Refill(src, s, sc, from + |w|);
    }
    if !ended {
      n := Min(Min(s'.left, d'.left), left);
      dc', w' := Advance(dst, d', src, s', n, dc, sc, was, to, from, w);
      d', s' := Skip(d', n), Skip(s', n);
    }
  }

  method CopyChains(dst: seq<array<Byte>>, dstOffset: nat, numToCopy: nat,
                    src: seq<array<Byte>>, srcOffset: nat,
                    ghost dc: seq<seq<Byte>>, ghost sc: seq<seq<Byte>>)
    returns (numCopied: nat, ghost dc': seq<seq<Byte>>, ghost w: seq<Byte>)
    requires Separate(dst, src) && Holds(dst, dc) && Holds(src, sc)
    requires dst != [] && dstOffset <= dst[0].Length && src != [] && srcOffset <= src[0].Length
    modifies dst
    ensures Holds(dst, dc') && Holds(src, sc) && |w| == numCopied
    ensures Written(Flat(dc'), Flat(dc), dstOffset, Flat(sc), srcOffset, w)
    ensures numCopied == Min(numToCopy, Min(|Flat(sc)| - srcOffset, |Flat(dc)| - dstOffset))
  {
    ghost var was := Flat(dc);
    var d, s, n;
    d, s, n, dc', w := FirstChunk(dst, dstOffset, numToCopy, src, srcOffset, dc, sc);
    numCopied := n;
    var left, ended := numToCopy - n, false;
    while left > 0 && !ended
      invariant 0 <= left && numCopied == numToCopy - left && |w| == numCopied
      invariant Holds(dst, dc') && Holds(src, sc)
      invariant Written(Flat(dc'), was, dstOffset, Flat(sc), srcOffset, w)
      invariant ended ==> dstOffset + |w| == |was| || srcOffset + |w| == |Flat(sc)|
      invariant !ended ==> At(dc', d, dstOffset + |w|) && At(sc, s, srcOffset + |w|)
      invariant !ended && left > 0 ==> d.left == 0 || s.left == 0
      decreases !ended, |dst| - d.buf + |src| - s.buf
    {
      ended, d, s, n, dc', w := NextChunk(dst, d, src, s, left, dc', sc, was, dstOffset, srcOffset, w);
      numCopied := numCopied + n;
      left := left - n;
    }
  }
}
