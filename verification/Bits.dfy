/** Fixed-width words, powers of two, and the masks and shifts of the C sources. */
module Bits {

  type byte = x: int | 0 <= x < 256
  type word = x: int | 0 <= x < 0x1_0000

  /** Two bytes, low first. */
  function Wide(lo: int, hi: int): int { lo + 0x100 * hi }

  /** The two's-complement reading of a word. */
  function S16(x: word): int { if x < 0x8000 then x else x - 0x1_0000 }

  /** Two's-complement negation. */
  function Negated(x: word): word { if x == 0 then 0 else 0x1_0000 - x }

  function Pow2(n: nat): (r: nat)
    ensures r > 0
  {
    if n == 0 then 1 else 2 * Pow2(n - 1)
  }

  /** Bitwise AND on naturals, bit by bit. */
  function And(x: nat, y: nat): nat {
    if x == 0 || y == 0 then 0 else 2 * And(x / 2, y / 2) + (if x % 2 == 1 && y % 2 == 1 then 1 else 0)
  }

  /** `is_pow2` as the source writes it. */
  predicate IsPow2(v: nat) {
    v != 0 && And(v, v - 1) == 0
  }

  /** `log2u`: the shift count found by halving. */
  function Log2(v: nat): nat {
    if v <= 1 then 0 else 1 + Log2(v / 2)
  }

  function Quotient(x: nat, d: nat): nat
    requires d > 0
  {
    x / d
  }

  /** `x >> n`. */
  function Shr(x: nat, n: nat): nat {
    if n == 0 then x else Shr(x / 2, n - 1)
  }

  /** The powers of two, by halving. */
  predicate Power(p: nat) {
    p == 1 || (p > 0 && p % 2 == 0 && Power(p / 2))
  }

  lemma {:induction false} PowerLog(p: nat)
    ensures Power(p) <==> p == Pow2(Log2(p))
  {
    if p > 1 {
      PowerLog(p / 2);
    }
  }

  lemma {:induction false} AndSelf(v: nat)
    ensures And(v, v) == v
  {
    if v != 0 {
      AndSelf(v / 2);
    }
  }

  lemma EvenMask(v: nat)
    requires v > 1 && v % 2 == 0
    ensures v / 2 > 0 && And(v, v - 1) == 2 * And(v / 2, v / 2 - 1)
  {
    assert (v - 1) / 2 == v / 2 - 1 && (v - 1) % 2 == 1;
  }

  /** The mask test holds exactly of the powers of two. */
  lemma {:induction false} Pow2Test(v: nat)
    ensures IsPow2(v) <==> Power(v)
  {
    if v > 1 {
      var h := v / 2;
      if v % 2 == 1 {
        assert (v - 1) / 2 == h;
        AndSelf(h);
      } else {
        Pow2Test(h);
        EvenMask(v);
      }
    }
  }

  /** `x & (2^n - 1)` is the remainder modulo 2^n. */
  lemma {:induction false} MaskIsMod(x: nat, n: nat)
    ensures And(x, Pow2(n) - 1) == x % Pow2(n)
  {
    if n == 0 {
      assert Pow2(0) == 1;
    } else if x == 0 {
      ModUnique(0, Pow2(n), 0, 0);
    } else {
      var h := Pow2(n - 1);
      MaskIsMod(x / 2, n - 1);
      AndStep(x, h);
      DoubleMod(x, h);
    }
  }

  lemma AndStep(x: nat, h: nat)
    requires x > 0 && h > 0
    ensures And(x, 2 * h - 1) == 2 * And(x / 2, h - 1) + x % 2
  {
    var y := 2 * h - 1;
    assert y / 2 == h - 1 && y % 2 == 1;
  }

  lemma DoubleMod(x: nat, h: nat)
    requires h > 0
    ensures x % (2 * h) == 2 * ((x / 2) % h) + x % 2
  {
    var q, r := (x / 2) / h, (x / 2) % h;
    assert x / 2 == h * q + r;
    assert x == (2 * h) * q + (2 * r + x % 2);
    ModUnique(x, 2 * h, q, 2 * r + x % 2);
  }

  lemma ModUnique(x: int, d: int, q: int, r: int)
    requires d > 0 && 0 <= r < d && x == d * q + r
    ensures x / d == q && x % d == r
  {
    var q', r' := x / d, x % d;
    assert x == d * q' + r';
    assert d * (q - q') == r' - r;
    if q > q' { MulGrows(d, q - q'); }
    if q < q' { MulGrows(d, q' - q); }
  }

  lemma MulGrows(d: int, k: int)
    requires d > 0 && k >= 1
    ensures d * k >= d
  {
  }

  lemma {:induction false} Pow2Add(m: nat, n: nat)
    ensures Pow2(m + n) == Pow2(m) * Pow2(n)
  {
    if m > 0 {
      Pow2Add(m - 1, n);
      var a, b := Pow2(m - 1), Pow2(n);
      assert 2 * (a * b) == (2 * a) * b;
    }
  }

  lemma {:induction false} Pow2Mono(m: nat, n: nat)
    requires m < n
    ensures 2 * Pow2(m) <= Pow2(n)
  {
    if m + 1 < n {
      Pow2Mono(m, n - 1);
    }
  }

  lemma DivDiv(x: nat, a: nat, b: nat)
    requires a > 0 && b > 0
    ensures a * b > 0 && x / (a * b) == (x / a) / b
  {
    MulGrows(a, b);
    var q, r := x / a, x % a;
    var q', r' := q / b, q % b;
    assert x == a * q + r && q == b * q' + r';
    assert a * (b * q' + r') == (a * b) * q' + a * r';
    assert a * r' <= a * (b - 1) by { MulMono(a, r', b - 1); }
    assert a * (b - 1) == a * b - a;
    ModUnique(x, a * b, q', a * r' + r);
  }

  lemma MulMono(a: int, x: int, y: int)
    requires a >= 0 && x <= y
    ensures a * x <= a * y
  {
  }

  /** Shifting right divides by a power of two. */
  lemma {:induction false} ShrIsDiv(x: nat, n: nat)
    ensures Shr(x, n) == x / Pow2(n)
  {
    if n > 0 {
      ShrIsDiv(x / 2, n - 1);
      DivDiv(x, 2, Pow2(n - 1));
    }
  }

  lemma DivSplit(x: nat, d: nat)
    requires d > 0
    ensures x == d * (x / d) + x % d && x % d < d
  {
  }

  /** Multiples of `l` are ordered as their quotients. */
  lemma MulOrder(l: nat, x: nat, y: nat)
    requires l > 0
    ensures x < y ==> l * x + l <= l * y
    ensures x == y <==> l * x == l * y
  {
    if x < y { MulMono(l, x + 1, y); }
    if y < x { MulMono(l, y + 1, x); }
  }
}
