/** The C macros of longlong.h: double-word arithmetic out of 32-bit words. */
module LongLong {
  import opened Words

  function Low(t: word): (r: word) {
    t % H
  }

  function High(t: word): (r: word) {
    t / H
  }

  /** The two-word value hi:lo. */
  function Pair(hi: word, lo: word): (r: dword) {
    hi * W + lo
  }

  // ---------------------------------------------------------------- sub_ddmmss

  method SubDdmmss(ah: word, al: word, bh: word, bl: word) returns (sh: word, sl: word)
    ensures Pair(sh, sl) == (Pair(ah, al) - Pair(bh, bl)) % DW
  {
    var x := Trunc(al - bl);
    ghost var borrow := if al < bl then 1 else 0;
    BorrowOut(al, bl, x);
    sh := Trunc(ah - bh - (if x > al then 1 else 0));
    sl := x;
    ghost var wrap := if ah - bh - borrow < 0 then 1 else 0;
    assert sh == ah - bh - borrow + wrap * W;
    DivModUnique(Pair(ah, al) - Pair(bh, bl), DW, -wrap, Pair(sh, sl));
  }

  /** A wrapped difference exceeds the minuend exactly when it borrowed. */
  lemma BorrowOut(a: word, b: word, x: word)
    requires x == Trunc(a - b)
    ensures x == a - b + (if a < b then W else 0) && (x > a <==> a < b)
  {
  }

  // ----------------------------------------------------------------- umul_ppmm

  lemma MulBounds(a: nat, b: nat, m: nat, n: nat)
    requires a <= m && b <= n
    ensures 0 <= a * b <= m * n
  {
    MulMono(a, m, b);
    MulMono(b, n, m);
  }

  lemma ProductOfHalves(uh: nat, ul: nat, vh: nat, vl: nat)
    ensures (uh * 0x1_0000 + ul) * (vh * 0x1_0000 + vl)
         == (uh * vh) * 0x1_0000_0000 + (ul * vh + uh * vl) * 0x1_0000 + ul * vl
  {
    calc {
      (uh * 0x1_0000 + ul) * (vh * 0x1_0000 + vl);
      (uh * 0x1_0000) * (vh * 0x1_0000) + (uh * 0x1_0000) * vl + ul * (vh * 0x1_0000) + ul * vl;
      (uh * vh) * 0x1_0000_0000 + (uh * vl) * 0x1_0000 + (ul * vh) * 0x1_0000 + ul * vl;
    }
  }

  /** The carry out of a sum is seen by comparing the sum with one addend. */
  lemma CarryOut(y: word, x: word)
    ensures Trunc(y + x) == if Trunc(y + x) < x then y + x - W else y + x
  {
  }

  lemma Assemble(x3: int, sum: int, mid: int, carry: int, mh: int, ml: int, l: int)
    requires 0 <= carry <= 1 && mid == sum - carry * 0x1_0000_0000
    requires mid == mh * 0x1_0000 + ml && 0 <= mh < 0x1_0000 && 0 <= ml < 0x1_0000
    requires 0 <= x3 && 0 <= l < 0x1_0000
    requires x3 * 0x1_0000_0000 + sum * 0x1_0000 + l < DW
    ensures x3 + carry * 0x1_0000 + mh < 0x1_0000_0000 && ml * 0x1_0000 + l < 0x1_0000_0000
    ensures (x3 + carry * 0x1_0000 + mh) * 0x1_0000_0000 + (ml * 0x1_0000 + l)
         == x3 * 0x1_0000_0000 + sum * 0x1_0000 + l
  {
  }

  method HalfProduct(u: word, v: word) returns (p: word)
    requires u < H && v < H
    ensures p == u * v && p <= 0xFFFE_0001
  {
    MulBounds(u, v, 0xFFFF, 0xFFFF);
    p := Trunc(u * v);
  }

  lemma WordProduct(u: word, v: word)
    ensures 0 <= u * v < DW
  {
    MulBounds(u, v, 0xFFFF_FFFF, 0xFFFF_FFFF);
  }

  /** Adds the four partial products, moving the middle carry into place. */
  method SumProducts(x0: word, x1: word, x2: word, x3: word) returns (w1: word, w0: word)
    requires x1 <= 0xFFFE_0001
    requires x3 * 0x1_0000_0000 + (x1 + x2) * 0x1_0000 + x0 < DW
    ensures Pair(w1, w0) == x3 * 0x1_0000_0000 + (x1 + x2) * 0x1_0000 + x0
  {
    var y := Trunc(x1 + High(x0));
    assert y == x1 + High(x0);
    CarryOut(y, x2);
    var mid := Trunc(y + x2);
    var top := x3;
    ghost var carry := if mid < x2 then 1 else 0;
    assert mid == y + x2 - carry * 0x1_0000_0000;
    assert x0 == High(x0) * 0x1_0000 + Low(x0);
    Assemble(x3, y + x2, mid, carry, High(mid), Low(mid), Low(x0));
    if mid < x2 {
      top := Trunc(top + H);
    }
    w1 := Trunc(top + High(mid));
    w0 := Trunc(Low(mid) * H + Low(x0));
  }

  method UmulPpmm(u: word, v: word) returns (w1: word, w0: word)
    ensures Pair(w1, w0) == u * v
  {
    var ul, uh := Low(u), High(u);
    var vl, vh := Low(v), High(v);
    var x0 := HalfProduct(ul, vl);
    var x1 := HalfProduct(ul, vh);
    var x2 := HalfProduct(uh, vl);
    var x3 := HalfProduct(uh, vh);
    assert u * v == x3 * W + (x1 + x2) * H + x0 by {
      assert u == uh * 0x1_0000 + ul && v == vh * 0x1_0000 + vl;
      ProductOfHalves(uh, ul, vh, vl);
    }
    WordProduct(u, v);
    w1, w0 := SumProducts(x0, x1, x2, x3);
  }

  // --------------------------------------------------------------- udiv_qrnnd

  /** One-word / and %. */
  method DivMod(n: word, d: word) returns (q: word, r: word)
    requires d > 0
    ensures n == q * d + r && r < d
  {
    QuotientBound(n, d);
    q, r := n / d, n % d;
  }

  lemma QuotientBelow(n: int, d: int, q: int, r: int, bound: int)
    requires 0 < d && 0 <= n < bound * d && n == q * d + r && 0 <= r < d
    ensures 0 <= q < bound
  {
    if q < 0 {
      MulMono(q, -1, d);
    } else if q >= bound {
      MulMono(bound, q, d);
    }
  }

  lemma HighBelow(n1: word, n0: word, d: word)
    requires n1 < d
    ensures Pair(n1, n0) < W * d
  {
    MulMono(n1 + 1, d, W);
  }

  /** hi * __ll_B | lo for two half words. */
  method OrHalves(hi: word, lo: word) returns (w: word)
    requires hi < H && lo < H
    ensures w == hi * 0x1_0000 + lo
  {
    Pow2Values();
    OrDisjoint(hi, 16, lo);
    w := BitOr(Trunc(hi * H), lo);
  }

  /** The contract of a hardware two-word by one-word divide, for any nonzero divisor. */
  method UdivQrnnd(n1: word, n0: word, d: word) returns (q: word, r: word)
    requires n1 < d
    ensures Pair(n1, n0) == q * d + r && r < d
  {
    var n := Pair(n1, n0);
    HighBelow(n1, n0, d);
    QuotientBelow(n, d, n / d, n % d, W);
    q, r := n / d, n % d;
  }

  /** The digit estimate r / d1 is at most H + 1, so its product with d0 fits a word. */
  lemma EstimateBound(r: int, d1: int, d0: int, q: int, s: int)
    requires 0x8000 <= d1 < 0x1_0000 && 0 <= d0 < 0x1_0000
    requires 0 <= r < d1 * 0x1_0000 + d0 && r == q * d1 + s && 0 <= s < d1
    ensures 0 <= q <= 0x1_0001
    ensures 0 <= q * d0 < 0x1_0000_0000
  {
    if q < 0 {
      MulMono(q, -1, d1);
    } else if q >= 0x1_0002 {
      MulMono(0x1_0002, q, d1);
    } else {
      MulBounds(q, d0, 0x1_0001, 0xFFFF);
    }
  }

  lemma EstimateValue(r: int, h: int, d1: int, d0: int, q: int, s: int)
    requires r == q * d1 + s
    ensures r * 0x1_0000 + h == q * (d1 * 0x1_0000 + d0) + (s * 0x1_0000 + h) - q * d0
  {
    assert q * (d1 * 0x1_0000 + d0) == q * d1 * 0x1_0000 + q * d0;
  }

  lemma OneLess(q: int, d: int)
    ensures (q - 1) * d == q * d - d
  {
  }

  /** What the two corrections add up to, on plain integers: with `full` the value to divide,
      `est * d` the estimate's product and `part - m` what is left over. */
  lemma Corrected(full: int, d: int, est: int, part: int, m: int, fix: int, rem: int)
    requires full == est * d + part - m
    requires rem == part - m + fix * d
    ensures full == (est - fix) * d + rem
  {
    assert (est - fix) * d == est * d - fix * d;
  }

  /** A quotient digit of a remainder below the divisor fits half a word. */
  lemma DigitBound(r: int, h: int, d: int, q: int, rem: int)
    requires 0 <= r < d && 0 <= h < 0x1_0000 && r * 0x1_0000 + h == q * d + rem && 0 <= rem < d
    ensures 0 <= q < 0x1_0000
  {
    QuotientBelow(r * 0x1_0000 + h, d, q, rem, 0x1_0000);
  }

  /** The estimate, then at most two corrections decided by the carry test `r1 >= d`: the final
      wrapping subtraction is exact although both additions of d may have wrapped. */
  method Correct(d: word, q: word, r1: word, m: word) returns (q': int, rem: word, ghost fix: int)
    requires W / 2 <= d && r1 < d
    ensures q' == q - fix && 0 <= fix <= 2 && rem < d
    ensures rem == r1 - m + fix * d
  {
    q' := q;
    var r := r1;
    fix := 0;
    if r < m {
      q', r, fix := q' - 1, Trunc(r + d), 1;
      if r >= d {
        if r < m {
          q', r, fix := q' - 1, Trunc(r + d), 2;
        }
      }
    }
    rem := Trunc(r - m);
  }

  /** One half of __udiv_qrnnd_c: the next half-word digit of r:h by a normalised divisor. */
  method QuotientDigit(r: word, h: word, d: word) returns (q: word, rem: word)
    requires d >= W / 2 && r < d && h < H
    ensures r * H + h == q * d + rem && rem < d && q < H
  {
    var d1, d0 := High(d), Low(d);
    var est, s := DivMod(r, d1);
    EstimateBound(r, d1, d0, est, s);
    EstimateValue(r, h, d1, d0, est, s);
    var m := Trunc(est * d0);
    var r1 := OrHalves(s, h);
    var q', rem', fix := Correct(d, est, r1, m);
    Corrected(r * H + h, d, est, r1, m, fix, rem');
    DigitBound(r, h, d, q', rem');
    q, rem := q', rem';
  }

  lemma TwoDigits(n1: int, h: int, l: int, d: int, q1: int, r1: int, q0: int, r0: int)
    requires n1 * 0x1_0000 + h == q1 * d + r1 && r1 * 0x1_0000 + l == q0 * d + r0
    ensures n1 * 0x1_0000_0000 + h * 0x1_0000 + l == (q1 * 0x1_0000 + q0) * d + r0
  {
    assert (q1 * 0x1_0000 + q0) * d == (q1 * d) * 0x1_0000 + q0 * d;
  }

  /** __udiv_qrnnd_c: needs the divisor normalised, and is then exact. */
  method UdivQrnndC(n1: word, n0: word, d: word) returns (q: word, r: word)
    requires d >= W / 2 && n1 < d
    ensures Pair(n1, n0) == q * d + r && r < d
  {
    var q1, r1 := QuotientDigit(n1, High(n0), d);
    var q0, r0 := QuotientDigit(r1, Low(n0), d);
    TwoDigits(n1, High(n0), Low(n0), d, q1, r1, q0, r0);
    q := OrHalves(q1, q0);
    r := r0;
  }

  // ------------------------------------------------------ count_leading_zeros

  /** Entry of the external table __clz_tab: the bit length of its index. */
  function ClzTab(i: nat): nat {
    if i == 0 then 0 else 1 + ClzTab(i / 2)
  }

  lemma {:induction false} BitLength(i: nat)
    requires i > 0
    ensures ClzTab(i) > 0 && Pow2(ClzTab(i) - 1) <= i < Pow2(ClzTab(i))
  {
    if i > 1 {
      BitLength(i / 2);
    }
  }

  lemma TopByte(x: int, p: int, byte: int, low: int)
    requires 0 < p <= x < 256 * p && x == byte * p + low && 0 <= low < p
    ensures 0 < byte < 256
  {
    QuotientBelow(x, p, byte, low, 256);
    if byte == 0 {
      MulMono(byte, 0, p);
    }
  }

  /** Picks the byte that holds the leading one, then looks its length up. */
  method CountLeadingZeros(x: word) returns (count: nat)
    requires x != 0
    ensures count < 32
    ensures W / 2 <= x * Pow2(count) < W
  {
    var a := if x < 0x1_0000 then (if x < 0x100 then 0 else 8)
             else (if x < 0x100_0000 then 16 else 24);
    Pow2Values();
    var byte, low := Shr(x, a);
    TopByte(x, Pow2(a), byte, low);
    BitLength(byte);
    var len := ClzTab(byte);
    if len > 8 {
      Pow2Mono(8, len - 1);
    }
    count := 32 - (len + a);
    ByteBounds(x, byte, low, a, len);
    ClzScales(x, len + a, count);
  }

  lemma ScaledBounds(x: int, lo: int, hi: int, p: int)
    requires lo <= x < hi && 0 < p
    ensures lo * p <= x * p && x * p + p <= hi * p
  {
    MulMono(lo, x, p);
    MulMono(x + 1, hi, p);
  }

  lemma ByteBounds(x: int, byte: int, r: int, a: nat, len: nat)
    requires 0 < len && x == byte * Pow2(a) + r && 0 <= r < Pow2(a)
    requires Pow2(len - 1) <= byte < Pow2(len)
    ensures Pow2(len - 1 + a) <= x < Pow2(len + a)
  {
    ScaledBounds(byte, Pow2(len - 1), Pow2(len), Pow2(a));
    Pow2Add(len - 1, a);
    Pow2Add(len, a);
  }

  lemma ClzScales(x: int, len: nat, count: nat)
    requires 0 < len && len + count == 32 && Pow2(len - 1) <= x < Pow2(len)
    ensures W / 2 <= x * Pow2(count) < W
  {
    ScaledBounds(x, Pow2(len - 1), Pow2(len), Pow2(count));
    Pow2Add(len - 1, count);
    Pow2Add(len, count);
    Pow2Values();
  }
}
