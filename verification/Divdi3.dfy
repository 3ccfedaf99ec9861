/** 64-bit division out of 32-bit words: divdi3.c, with both preprocessor variants of the
    one-word divisor branch. */
module Divdi3 {
  import opened Words
  import opened LongLong

  // ------------------------------------------------------------ normalisation

  lemma ShiftSplit(x: int, p: int, s: int, q: int, r: int)
    requires 0 < p && 0 < s && p * s == 0x1_0000_0000 && x == q * s + r && 0 <= r < s
    ensures x * p == q * 0x1_0000_0000 + r * p
    ensures 0 <= r * p <= 0x1_0000_0000 - p
  {
    assert (q * s) * p == q * (p * s);
    assert x * p == (q * s) * p + r * p;
    MulMono(r, s - 1, p);
    MulMono(0, r, p);
  }

  /** Shifting a word left by k keeps the low bits and loses exactly the high k ones. */
  lemma ShlWord(x: word, k: nat, q: int, r: int)
    requires 0 < k < 32 && x == q * Pow2(32 - k) + r && 0 <= r < Pow2(32 - k)
    ensures 0 <= q < Pow2(k)
    ensures (x * Pow2(k)) % W == r * Pow2(k) && x * Pow2(k) == q * W + r * Pow2(k)
    ensures 0 <= r * Pow2(k) <= W - Pow2(k)
  {
    Pow2Split(k);
    ShiftSplit(x, Pow2(k), Pow2(32 - k), q, r);
    QuotientBelow(x, Pow2(32 - k), q, r, Pow2(k));
    DivModUnique(x * Pow2(k), W, q, r * Pow2(k));
  }

  lemma PairShift(hi: int, lo: int, p: int, top: int, h: int, t: int, l: int)
    requires hi * p == top * 0x1_0000_0000 + h && lo * p == t * 0x1_0000_0000 + l
    ensures (hi * 0x1_0000_0000 + lo) * p == top * DW + (h + t) * 0x1_0000_0000 + l
  {
    assert (hi * 0x1_0000_0000 + lo) * p == hi * p * 0x1_0000_0000 + lo * p;
  }

  /** The three-assignment left shift of a two-word value into three words. */
  method Normalise(hi: word, lo: word, k: nat) returns (top: word, mid: word, low: word)
    requires 0 < k < 32
    ensures top * DW + Pair(mid, low) == Pair(hi, lo) * Pow2(k)
    ensures top < Pow2(k) && low <= W - Pow2(k)
  {
    var b := 32 - k;
    ghost var hr, lr;
    var h, t;
    top, hr := Shr(hi, b);
    h := Shl(hi, k);
    t, lr := Shr(lo, b);
    ShlWord(hi, k, top, hr);
    ShlWord(lo, k, t, lr);
    OrDisjoint(hr, k, t);
    mid := BitOr(h, t);
    low := Shl(lo, k);
    PairShift(hi, lo, Pow2(k), top, h, t, low);
  }

  lemma PairUnshift(hi: int, lo: int, p: int, s: int, q: int, r: int, t: int, l: int)
    requires 0 < p && p * s == 0x1_0000_0000 && hi == q * p + r && lo == t * p + l
    ensures hi * 0x1_0000_0000 + lo == (q * 0x1_0000_0000 + (r * s + t)) * p + l
  {
    assert (r * s) * p == r * (p * s);
    assert (q * 0x1_0000_0000 + (r * s + t)) * p == q * p * 0x1_0000_0000 + (r * s) * p + t * p;
  }

  /** The matching right shift of a two-word value. */
  method Denormalise(hi: word, lo: word, k: nat) returns (high: word, low: word)
    requires 0 < k < 32
    ensures Pair(high, low) == Pair(hi, lo) / Pow2(k)
  {
    var b := 32 - k;
    ghost var hr, lr;
    var h, t;
    h := Shl(hi, b);
    t, lr := Shr(lo, k);
    high, hr := Shr(hi, k);
    ShlWord(hi, b, high, hr);
    Pow2Split(k);
    QuotientBelow(lo, Pow2(k), t, lr, Pow2(b));
    OrDisjoint(hr, b, t);
    low := BitOr(h, t);
    PairUnshift(hi, lo, Pow2(k), Pow2(b), high, hr, t, lr);
    DivModUnique(Pair(hi, lo), Pow2(k), Pair(high, low), lr);
  }

  /** Dividing scaled numbers gives the same quotient and a scaled remainder. */
  lemma Unscale(n: int, d: int, p: int, q: int, r: int)
    requires 0 < p && 0 < d && n * p == q * (d * p) + r && 0 <= r < d * p
    ensures r / p * p == r && n == q * d + r / p && 0 <= r / p < d
  {
    var rem := n - q * d;
    assert q * (d * p) == q * d * p;
    assert rem * p == n * p - q * d * p;
    if rem < 0 {
      MulMono(rem, -1, p);
    } else if rem >= d {
      MulMono(d, rem, p);
    }
    DivModUnique(r, p, rem, 0);
  }

  // ------------------------------------------------------- one-word divisor

  /** A hardware divide or the C macro, whose divisor must be normalised. */
  method Divide(n1: word, n0: word, d: word, normalising: bool) returns (q: word, r: word)
    requires n1 < d && (normalising ==> d >= W / 2)
    ensures Pair(n1, n0) == q * d + r && r < d
  {
    if normalising {
      q, r := UdivQrnndC(n1, n0, d);
    } else {
      q, r := UdivQrnnd(n1, n0, d);
    }
  }

  lemma ChainDivide(n1: int, n0: int, d: int, q1: int, r1: int, q0: int, r0: int)
    requires n1 == q1 * d + r1 && r1 * 0x1_0000_0000 + n0 == q0 * d + r0
    ensures n1 * 0x1_0000_0000 + n0 == (q1 * 0x1_0000_0000 + q0) * d + r0
  {
    assert (q1 * 0x1_0000_0000 + q0) * d == q1 * d * 0x1_0000_0000 + q0 * d;
  }

  /** The !UDIV_NEEDS_NORMALIZATION branch for a divisor of one word. */
  method ByWordHardware(n1: word, n0: word, d0: word) returns (q1: word, q0: word, rem: word)
    requires d0 != 0
    ensures Pair(n1, n0) == Pair(q1, q0) * d0 + rem && rem < d0
  {
    if d0 > n1 {
      q0, rem := Divide(n1, n0, d0, false);
      q1 := 0;
    } else {
      var r1;
      q1, r1 := Divide(0, n1, d0, false);
      q0, rem := Divide(r1, n0, d0, false);
      ChainDivide(n1, n0, d0, q1, r1, q0, rem);
    }
  }

  lemma ScaledHigh(n1: int, n0: int, d: int, p: int, top: int, mid: int, low: int)
    requires 0 <= n1 < d && 0 <= n0 < 0x1_0000_0000 && 0 < p && d * p <= 0x1_0000_0000
    requires 0 <= top && 0 <= mid && 0 <= low
    requires top * DW + mid * 0x1_0000_0000 + low == (n1 * 0x1_0000_0000 + n0) * p
    ensures top == 0 && mid < d * p
  {
    MulMono(n1 * 0x1_0000_0000 + n0 + 1, d * 0x1_0000_0000, p);
    assert (d * 0x1_0000_0000) * p == (d * p) * 0x1_0000_0000;
    assert (n1 * 0x1_0000_0000 + n0 + 1) * p == (n1 * 0x1_0000_0000 + n0) * p + p;
  }

  lemma ThreeWords(n: int, d: int, p: int, top: int, mid: int, low: int,
                   q1: int, r1: int, q0: int, r0: int)
    requires top * DW + mid * 0x1_0000_0000 + low == n * p
    requires top * 0x1_0000_0000 + mid == q1 * d + r1
    requires r1 * 0x1_0000_0000 + low == q0 * d + r0
    ensures n * p == (q1 * 0x1_0000_0000 + q0) * d + r0
  {
    ChainDivide(top * 0x1_0000_0000 + mid, low, d, q1, r1, q0, r0);
  }

  /** The quotient of scaled operands, one word: the remainder is scaled. */
  method ScaledWord(n1: word, n0: word, d0: word, bm: nat) returns (q0: word, r0: word)
    requires 0 < bm < 32 && n1 < d0 && W / 2 <= d0 * Pow2(bm) < W
    ensures r0 / Pow2(bm) * Pow2(bm) == r0 && Pair(n1, n0) == q0 * d0 + r0 / Pow2(bm) && 0 <= r0 / Pow2(bm) < d0
  {
    var d := Shl(d0, bm);
    var top, mid, low := Normalise(n1, n0, bm);
    ScaledHigh(n1, n0, d0, Pow2(bm), top, mid, low);
    q0, r0 := Divide(mid, low, d, true);
    Unscale(Pair(n1, n0), d0, Pow2(bm), q0, r0);
  }

  /** ... and two words. */
  method ScaledPair(n1: word, n0: word, d0: word, bm: nat) returns (q1: word, q0: word, r0: word)
    requires 0 < bm < 32 && 0 < d0 <= n1 && W / 2 <= d0 * Pow2(bm) < W
    ensures r0 / Pow2(bm) * Pow2(bm) == r0
    ensures Pair(n1, n0) == Pair(q1, q0) * d0 + r0 / Pow2(bm) && 0 <= r0 / Pow2(bm) < d0
  {
    var r1;
    var d := Shl(d0, bm);
    var n2, mid, low := Normalise(n1, n0, bm);
    Pow2Values();
    Pow2Mono(bm, 31);
    q1, r1 := Divide(n2, mid, d, true);
    q0, r0 := Divide(r1, low, d, true);
    ThreeWords(Pair(n1, n0), d, Pow2(bm), n2, mid, low, q1, r1, q0, r0);
    Unscale(Pair(n1, n0), d0, Pow2(bm), Pair(q1, q0), r0);
  }

  /** The UDIV_NEEDS_NORMALIZATION branch: scale until the divisor's top bit is set. */
  method ByWordNormalising(n1: word, n0: word, d0: word) returns (q1: word, q0: word, rem: word)
    requires d0 != 0
    ensures Pair(n1, n0) == Pair(q1, q0) * d0 + rem && rem < d0
  {
    var bm := CountLeadingZeros(d0);
    ghost var out;
    var r0;
    if d0 > n1 {
      if bm != 0 {
        q0, r0 := ScaledWord(n1, n0, d0, bm);
      } else {
        q0, r0 := Divide(n1, n0, d0, true);
      }
      q1 := 0;
    } else if bm == 0 {
      q1 := 1;
      q0, r0 := Divide(n1 - d0, n0, d0, true);
      ChainDivide(n1, n0, d0, 1, n1 - d0, q0, r0);
    } else {
      q1, q0, r0 := ScaledPair(n1, n0, d0, bm);
    }
    rem, out := Shr(r0, bm);
    DivModUnique(r0, Pow2(bm), rem, out);
  }

  // ------------------------------------------------------- two-word divisor

  /** The estimate from the divisor's high word is at most one too large: its product with the
      low word never exceeds the divisor. */
  lemma EstimateAtMostOneOver(p: int, n2: int, n1: int, d1: int, d0: int, q: int, r: int)
    requires 0 < p <= 0x8000_0000 && 0 <= n2 < p && 0 <= n1 < 0x1_0000_0000
    requires 0x8000_0000 <= d1 && 0 <= d0 <= 0x1_0000_0000 - p
    requires n2 * 0x1_0000_0000 + n1 == q * d1 + r && 0 <= r < d1
    ensures 0 <= q < 2 * p
    ensures 0 <= q * d0 <= d1 * 0x1_0000_0000 + d0
  {
    if q < 0 {
      MulMono(q, -1, d1);
    } else if q >= 2 * p {
      MulMono(2 * p, q, d1);
      MulMono(0x8000_0000, d1, 2 * p);
    }
    MulBounds(q, d0, 2 * p, 0x1_0000_0000 - p);
    HalfSquare(p);
  }

  lemma HalfSquare(p: int)
    ensures (2 * p) * (0x1_0000_0000 - p) <= 0x8000_0000 * 0x1_0000_0000
  {
    var e := 0x8000_0000 - p;
    assert e * e >= 0;
    calc {
      (2 * p) * (0x1_0000_0000 - p);
      (0x1_0000_0000 - 2 * e) * (0x8000_0000 + e);
      0x8000_0000 * 0x1_0000_0000 - 2 * (e * e);
    }
  }

  lemma Compose(d1: int, d0: int, n2: int, n1: int, n0: int, q: int, r: int)
    requires n2 * 0x1_0000_0000 + n1 == q * d1 + r
    ensures n2 * DW + n1 * 0x1_0000_0000 + n0
         == q * (d1 * 0x1_0000_0000 + d0) + (r * 0x1_0000_0000 + n0) - q * d0
  {
    assert q * (d1 * 0x1_0000_0000 + d0) == q * d1 * 0x1_0000_0000 + q * d0;
  }

  /** So the estimate is the quotient or one more, and the test on the product tells which. */
  lemma EstimateIsQuotientOrOneMore(p: int, n2: int, n1: int, n0: int, d1: int, d0: int, q: int, r: int)
    requires 0 < p <= 0x8000_0000 && 0 <= n2 < p && 0 <= n1 < 0x1_0000_0000 && 0 <= n0 < 0x1_0000_0000
    requires 0x8000_0000 <= d1 && 0 <= d0 <= 0x1_0000_0000 - p
    requires n2 * 0x1_0000_0000 + n1 == q * d1 + r && 0 <= r < d1
    ensures (n2 * DW + n1 * 0x1_0000_0000 + n0) / (d1 * 0x1_0000_0000 + d0)
         == if q * d0 > r * 0x1_0000_0000 + n0 then q - 1 else q
  {
    EstimateAtMostOneOver(p, n2, n1, d1, d0, q, r);
    Compose(d1, d0, n2, n1, n0, q, r);
    var n, d := n2 * DW + n1 * 0x1_0000_0000 + n0, d1 * 0x1_0000_0000 + d0;
    var x := r * 0x1_0000_0000 + n0 - q * d0;
    assert n == q * d + x;
    if x >= 0 {
      DivModUnique(n, d, q, x);
    } else {
      assert n == (q - 1) * d + (x + d) by { assert (q - 1) * d == q * d - d; }
      DivModUnique(n, d, q - 1, x + d);
    }
  }

  lemma DivisorFits(d1: int, d0: int, p: int, s: int)
    requires 0 <= d0 < 0x1_0000_0000 && 0 < p && p * s == 0x1_0000_0000
    requires 0x8000_0000 <= d1 * p < 0x1_0000_0000
    ensures 0x8000_0000 * 0x1_0000_0000 <= (d1 * 0x1_0000_0000 + d0) * p < DW
  {
    if d1 >= s {
      MulMono(s, d1, p);
    } else {
      MulMono(d1 + 1, s, p);
      MulMono(d0 + 1, 0x1_0000_0000, p);
      MulMono(0, d0, p);
      assert (d1 * 0x1_0000_0000 + d0) * p == d1 * p * 0x1_0000_0000 + d0 * p;
    }
  }

  /** The estimate and its single correction, on the scaled operands. The subtraction from m
      wraps below zero and the subtraction of m wraps it back. */
  method EstimateAndCorrect(n2: word, n1: word, n0: word, d1: word, d0: word, ghost p: int,
                            normalising: bool)
    returns (q: word, h: word, l: word)
    requires 0 < p <= W / 2 && n2 < p && W / 2 <= d1 && d0 <= W - p
    ensures n2 * DW + Pair(n1, n0) == q * Pair(d1, d0) + Pair(h, l) && Pair(h, l) < Pair(d1, d0)
  {
    var r1;
    q, r1 := Divide(n2, n1, d1, normalising);
    EstimateAtMostOneOver(p, n2, n1, d1, d0, q, r1);
    Compose(d1, d0, n2, n1, n0, q, r1);
    var m1, m0 := UmulPpmm(q, d0);
    ghost var est, m := q, q * d0;
    assert Pair(m1, m0) == m && (q == 0 ==> m == 0);
    if m1 > r1 || (m1 == r1 && m0 > n0) {
      q := q - 1;
      m1, m0 := SubDdmmss(m1, m0, d1, d0);
      OneLess(est, Pair(d1, d0));
    }
    h, l := SubDdmmss(r1, n0, m1, m0);
    Remainder(Pair(r1, n0), m, Pair(d1, d0), Pair(m1, m0), Pair(h, l));
  }

  lemma Remainder(r: dword, m: int, d: dword, m': dword, rem: dword)
    requires 0 <= m <= d && 0 <= r < d
    requires m' == if m > r then (m - d) % DW else m
    requires rem == (r - m') % DW
    ensures rem == if m > r then r - m + d else r - m
    ensures rem < d
  {
  }

  /** The divisor has two words and its high word does not exceed the dividend's. */
  method ByPair(n1: word, n0: word, d1: word, d0: word, normalising: bool)
    returns (q0: word, h: word, l: word)
    requires 0 < d1 <= n1
    ensures Pair(n1, n0) == q0 * Pair(d1, d0) + Pair(h, l) && Pair(h, l) < Pair(d1, d0)
  {
    var bm := CountLeadingZeros(d1);
    if bm == 0 {
      if n1 > d1 || n0 >= d0 {
        q0 := 1;
        h, l := SubDdmmss(n1, n0, d1, d0);
      } else {
        q0, h, l := 0, n1, n0;
      }
    } else {
      ghost var p := Pow2(bm);
      Pow2Split(bm);
      Pow2Values();
      Pow2Mono(bm, 31);
      DivisorFits(d1, d0, p, Pow2(32 - bm));
      var dt, dm, dl := Normalise(d1, d0, bm);
      var n2, nm, nl := Normalise(n1, n0, bm);
      assert dt == 0 && dm >= W / 2;
      var h', l';
      q0, h', l' := EstimateAndCorrect(n2, nm, nl, dm, dl, p, normalising);
      Unscale(Pair(n1, n0), Pair(d1, d0), p, q0, Pair(h', l'));
      h, l := Denormalise(h', l', bm);
    }
  }

  // --------------------------------------------------------------- interface

  /** __udivmoddi4. The remainder is stored only when the caller passed a pointer for it. */
  method Udivmoddi4(n: dword, d: dword, wantRem: bool, normalising: bool)
    returns (q: dword, rem: dword)
    requires d != 0
    ensures q == n / d
    ensures wantRem ==> rem == n % d
  {
    var n1, n0 := n / W, n % W;
    var d1, d0 := d / W, d % W;
    var q1, q0, h, l := 0, 0, 0, 0;
    if d1 == 0 {
      if normalising {
        q1, q0, l := ByWordNormalising(n1, n0, d0);
      } else {
        q1, q0, l := ByWordHardware(n1, n0, d0);
      }
    } else if d1 > n1 {
      h, l := n1, n0;
    } else {
      q0, h, l := ByPair(n1, n0, d1, d0, normalising);
    }
    q := Pair(q1, q0);
    DivModUnique(n, d, q, Pair(h, l));
    rem := if wantRem then Pair(h, l) else 0;
  }

  /** Both preprocessor variants compute the mathematical quotient and remainder, hence agree. */
  method Udivdi3(u: dword, v: dword, normalising: bool) returns (w: dword)
    requires v != 0
    ensures w == u / v
  {
    var unused;
    w, unused := Udivmoddi4(u, v, false, normalising);
  }

  method Umoddi3(u: dword, v: dword, normalising: bool) returns (w: dword)
    requires v != 0
    ensures w == u % v
  {
    var unused;
    unused, w := Udivmoddi4(u, v, true, normalising);
  }

  // ------------------------------------------------------------------ signed

  type sdword = x: int | -0x8000_0000_0000_0000 <= x < 0x8000_0000_0000_0000

  /** Two's-complement conversions between UDWtype and DWtype. */
  function ToSigned(x: int): sdword {
    var m := x % DW;
    if m < DW / 2 then m else m - DW
  }

  function ToUnsigned(x: sdword): dword {
    x % DW
  }

  /** C's unary minus, which leaves the most negative value unchanged. */
  function Negate(x: sdword): sdword {
    ToSigned(-(x as int))
  }

  /** Division truncating toward zero, and the remainder with the dividend's sign. */
  function TruncDiv(u: int, v: int): int
    requires v != 0
  {
    var a := Abs(u) / Abs(v);
    if (u < 0) == (v < 0) then a else -a
  }

  function TruncMod(u: int, v: int): int
    requires v != 0
  {
    var a := Abs(u) % Abs(v);
    if u < 0 then -a else a
  }

  function Abs(x: int): nat {
    if x < 0 then -x else x
  }

  /** These are the quotient and remainder of section 6.5.5 of ISO/IEC 9899:1999, and the only
      ones: the quotient's fraction is dropped and u == q * v + r. */
  lemma TruncCharacterised(u: int, v: int, q: int, r: int)
    requires v != 0
    ensures (q == TruncDiv(u, v) && r == TruncMod(u, v))
       <==> (u == q * v + r && Abs(r) < Abs(v) && (r != 0 ==> (r < 0) == (u < 0)))
  {
    var a, b := Abs(u) / Abs(v), Abs(u) % Abs(v);
    var q', r' := TruncDiv(u, v), TruncMod(u, v);
    SignedProduct(a, v, u < 0);
    assert u == q' * v + r';
    if u == q * v + r && Abs(r) < Abs(v) && (r != 0 ==> (r < 0) == (u < 0)) {
      SignedUnique(q, r, q', r', v);
    }
  }

  lemma SignedProduct(a: int, v: int, neg: bool)
    ensures (if neg == (v < 0) then a else -a) * v == if neg then -(a * Abs(v)) else a * Abs(v)
  {
  }

  lemma SignedUnique(q: int, r: int, q': int, r': int, v: int)
    requires v != 0 && q * v + r == q' * v + r' && Abs(r) < Abs(v) && Abs(r') < Abs(v)
    requires r == 0 || r' == 0 || (r < 0) == (r' < 0)
    ensures q == q' && r == r'
  {
    var e := q - q';
    assert e * v == r' - r;
    assert Abs(r' - r) < Abs(v);
    SmallMultiple(e, v);
  }

  lemma SmallMultiple(e: int, v: int)
    requires Abs(e * v) < Abs(v)
    ensures e == 0
  {
    if e > 0 {
      MulMono(1, e, Abs(v));
    } else if e < 0 {
      MulMono(1, -e, Abs(v));
    }
  }

  /** The conversion to UDWtype of a value negated when below zero. */
  method Magnitude(x: sdword) returns (m: dword)
    ensures m == Abs(x)
  {
    var y := x;
    if y < 0 {
      y := Negate(y);
    }
    m := ToUnsigned(y);
  }

  method ApplySign(q: dword, c: bool) returns (w: sdword)
    ensures w == ToSigned(if c then 0 - (q as int) else q)
  {
    w := ToSigned(q);
    if c {
      w := Negate(w);
      NegWrap(q);
    }
  }

  method Divdi3(u: sdword, v: sdword, normalising: bool) returns (w: sdword)
    requires v != 0
    ensures w == ToSigned(TruncDiv(u, v))
  {
    var c := false;
    if u < 0 {
      c := !c;
    }
    var a := Magnitude(u);
    if v < 0 {
      c := !c;
    }
    var b := Magnitude(v);
    var q := Udivdi3(a, b, normalising);
    w := ApplySign(q, c);
  }

  method Moddi3(u: sdword, v: sdword, normalising: bool) returns (w: sdword)
    requires v != 0
    ensures w == TruncMod(u, v)
  {
    var a := Magnitude(u);
    var b := Magnitude(v);
    var r := Umoddi3(a, b, normalising);
    w := ApplySign(r, u < 0);
  }

  lemma NegWrap(q: dword)
    ensures Negate(ToSigned(q)) == ToSigned(0 - (q as int))
  {
    if q >= DW / 2 {
      assert ToSigned(q) == q - DW;
      assert (DW - q) % DW == (0 - q) % DW;
    } else {
      assert ToSigned(q) == q;
    }
  }

  /** What __divdi3 and __moddi3 return recombine to the dividend modulo 2^64, also for the most
      negative dividend; the quotient itself is exact except for that dividend divided by -1. */
  lemma DivModRecombine(u: sdword, v: sdword)
    requires v != 0
    ensures (ToSigned(TruncDiv(u, v)) * v + TruncMod(u, v)) % DW == ToUnsigned(u)
    ensures ToSigned(TruncDiv(u, v)) == TruncDiv(u, v)
       <==> !(u == -0x8000_0000_0000_0000 && v == -1)
  {
    var q, r := TruncDiv(u, v), TruncMod(u, v);
    TruncCharacterised(u, v, q, r);
    QuotientRange(u, v);
    if u == -0x8000_0000_0000_0000 && v == -1 {
      assert q == 0x8000_0000_0000_0000 && r == 0;
    } else {
      assert ToSigned(q) == q;
    }
  }

  lemma QuotientRange(u: sdword, v: int)
    requires v != 0
    ensures !(u == -0x8000_0000_0000_0000 && v == -1)
        ==> -0x8000_0000_0000_0000 <= TruncDiv(u, v) < 0x8000_0000_0000_0000
  {
    var a, b := Abs(u) / Abs(v), Abs(u) % Abs(v);
    NatQuotient(Abs(u), Abs(v), a, b);
    if Abs(v) > 1 {
      MulMono(2, Abs(v), a);
    }
  }
}
