/** Fixed-width unsigned words as bounded integers, with the C operators written out. */
module Words {
  const H: int := 0x1_0000                          // __ll_B, half a word
  const W: int := 0x1_0000_0000                     // one past the largest UWtype
  const DW: int := 0x1_0000_0000_0000_0000          // one past the largest UDWtype

  type word = x: int | 0 <= x < 0x1_0000_0000
  type dword = x: int | 0 <= x < 0x1_0000_0000_0000_0000

  /** Assignment to a UWtype keeps the low 32 bits. */
  function Trunc(x: int): word {
    x % W
  }

  function Pow2(k: nat): (p: nat)
    ensures p > 0
  {
    if k == 0 then 1 else 2 * Pow2(k - 1)
  }

  /** C's `|` on unsigned operands, bit by bit. */
  function BitOr(a: nat, b: nat): nat {
    if a == 0 then b
    else if b == 0 then a
    else 2 * BitOr(a / 2, b / 2) + (if a % 2 == 1 || b % 2 == 1 then 1 else 0)
  }

  /** C's `<<` on a UWtype; the shift count is below the word size. */
  method Shl(x: word, k: nat) returns (y: word)
    requires k < 32
    ensures y == (x * Pow2(k)) % W
  {
    y := Trunc(x * Pow2(k));
  }

  /** C's `>>`; the ghost result is what is shifted out. */
  method Shr(x: word, k: nat) returns (y: word, ghost out: int)
    requires k < 32
    ensures x == y * Pow2(k) + out && 0 <= out < Pow2(k)
  {
    QuotientBound(x, Pow2(k));
    y, out := x / Pow2(k), x % Pow2(k);
  }

  lemma QuotientBound(x: nat, d: nat)
    requires d > 0
    ensures 0 <= x / d <= x
  {
    NatQuotient(x, d, x / d, x % d);
  }

  lemma NatQuotient(x: int, d: int, q: int, r: int)
    requires 0 <= x && 0 < d && x == q * d + r && 0 <= r < d
    ensures 0 <= q <= x
  {
    if q < 0 {
      MulMono(q, -1, d);
    } else {
      MulMono(1, d, q);
    }
  }

  lemma MulMono(a: int, b: int, c: int)
    requires a <= b && 0 <= c
    ensures a * c <= b * c
  {
    assert (b - a) * c >= 0;
  }

  lemma {:induction false} Pow2Add(j: nat, k: nat)
    ensures Pow2(j + k) == Pow2(j) * Pow2(k)
  {
    if j > 0 {
      Pow2Add(j - 1, k);
      assert Pow2(j + k) == 2 * Pow2(j - 1 + k);
    }
  }

  lemma {:induction false} Pow2Mono(j: nat, k: nat)
    requires j <= k
    ensures Pow2(j) <= Pow2(k)
  {
    if j < k {
      Pow2Mono(j, k - 1);
    }
  }

  lemma Pow2Values()
    ensures Pow2(8) == 0x100 && Pow2(16) == H && Pow2(24) == 0x100_0000
    ensures Pow2(31) == 0x8000_0000 && Pow2(32) == W
  {
    Pow2Add(8, 8);
    Pow2Add(16, 8);
    Pow2Add(16, 16);
    assert Pow2(8) == 16 * Pow2(4);
    assert Pow2(32) == 2 * Pow2(31);
  }

  /** The two halves of a split word multiply back to a whole one. */
  lemma Pow2Split(k: nat)
    requires k <= 32
    ensures Pow2(k) * Pow2(32 - k) == W
  {
    Pow2Values();
    Pow2Add(k, 32 - k);
  }

  lemma DivModUnique(n: int, d: int, q: int, r: int)
    requires d > 0 && n == q * d + r && 0 <= r < d
    ensures n / d == q && n % d == r
  {
    var q', r' := n / d, n % d;
    SameQuotient(d, q, r, q', r');
  }

  lemma SameQuotient(d: int, q: int, r: int, q': int, r': int)
    requires d > 0 && q * d + r == q' * d + r' && 0 <= r < d && 0 <= r' < d
    ensures q == q' && r == r'
  {
    if q < q' {
      MulMono(q + 1, q', d);
    } else if q' < q {
      MulMono(q' + 1, q, d);
    }
  }

  /** Disjoint bits: OR with a value below the shift adds. */
  lemma {:induction false} OrDisjoint(a: nat, k: nat, b: nat)
    requires b < Pow2(k)
    ensures BitOr(a * Pow2(k), b) == a * Pow2(k) + b
  {
    if k > 0 && a * Pow2(k) != 0 && b != 0 {
      var x := a * Pow2(k);
      assert x == 2 * (a * Pow2(k - 1));
      assert x / 2 == a * Pow2(k - 1) && x % 2 == 0;
      OrDisjoint(a, k - 1, b / 2);
    }
  }
}
