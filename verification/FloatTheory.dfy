/** What the float routines compute, against the real numbers the floats stand for. */
module FloatTheory {
  import opened Bits
  import opened Alu
  import opened FloatCells
  import opened FloatSpec

  /** Ten to a whole power. */
  function Scale(e: int): (r: real)
    ensures r > 0.0
    decreases if e < 0 then -e else e
  {
    if e == 0 then 1.0 else if e > 0 then 10.0 * Scale(e - 1) else Scale(e + 1) / 10.0
  }

  function Magnitude(n: Num): (r: real)
    ensures r >= 0.0
  {
    Times(n.m as real, Scale(SignedByte(n.exp)))
  }

  /** The number a float stands for. */
  function Value(n: Num): real {
    if n.sgn == 0 then Magnitude(n) else -Magnitude(n)
  }

  /** Products of reals, named so that the solver does not multiply on its own. */
  function Times(x: real, y: real): (r: real)
    ensures x >= 0.0 && y >= 0.0 ==> r >= 0.0
    ensures x > 0.0 && y > 0.0 ==> r > 0.0
  {
    x * y
  }

  lemma TimesLess(x: real, y: real, s: real)
    requires s > 0.0 && x < y
    ensures Times(x, s) < Times(y, s)
  {
    hide Times;
    TimesAdd(x, y - x, s);
    assert x + (y - x) == y;
    assert Times(y - x, s) > 0.0;
  }

  lemma TimesMono(x: real, y: real, s: real)
    requires s > 0.0
    ensures x <= y <==> Times(x, s) <= Times(y, s)
    ensures x < y <==> Times(x, s) < Times(y, s)
  {
    hide Times;
    if x < y { TimesLess(x, y, s); }
    if y < x { TimesLess(y, x, s); }
  }

  lemma TimesAdd(x: real, y: real, s: real)
    ensures Times(x + y, s) == Times(x, s) + Times(y, s)
    ensures Times(x - y, s) == Times(x, s) - Times(y, s)
  {
  }

  lemma TimesOne(s: real)
    ensures Times(1.0, s) == s && Times(0.0, s) == 0.0
  {
  }

  lemma TimesAssoc(x: real, y: real, z: real)
    ensures Times(Times(x, y), z) == Times(x, Times(y, z))
  {
  }

  lemma TimesSwap(x: real, y: real)
    ensures Times(x, y) == Times(y, x)
  {
  }

  lemma ScaleStep(e: int)
    ensures Scale(e + 1) == 10.0 * Scale(e)
  {
  }

  lemma TimesTen(x: real, y: real)
    ensures Times(x, 10.0 * y) == 10.0 * Times(x, y)
  {
  }

  lemma {:induction false} ScaleAdd(a: int, b: int)
    ensures Scale(a + b) == Times(Scale(a), Scale(b))
    decreases if b < 0 then -b else b
  {
    hide Times, Scale;
    if b > 0 {
      ScaleAdd(a, b - 1);
      ScaleStep(a + b - 1);
      ScaleStep(b - 1);
      TimesTen(Scale(a), Scale(b - 1));
    } else if b < 0 {
      ScaleAdd(a, b + 1);
      ScaleStep(a + b);
      ScaleStep(b);
      TimesTen(Scale(a), Scale(b));
    } else {
      ScaleZero(Scale(a));
    }
  }

  lemma ScaleZero(x: real)
    ensures Scale(0) == 1.0 && Times(x, Scale(0)) == x
  {
  }

  lemma {:induction false} ScalePow(k: nat)
    ensures Scale(k) == Pow(10, k) as real
  {
    if k > 0 {
      ScalePow(k - 1);
    }
  }

  /** Ten times more with every step up. */
  lemma {:induction false} ScaleMono(a: int, b: int)
    requires a < b
    ensures 10.0 * Scale(a) <= Scale(b)
    decreases b - a
  {
    ScaleStep(b - 1);
    if a + 1 < b {
      ScaleMono(a, b - 1);
    }
  }

  // ---- normalizing ----

  /** How many places FNORM moves the point: up when positive. */
  function Places(m: nat): int
    requires m > 0
    decreases m >= TEN7, if m >= TEN7 then m else TEN6 - m
  {
    if m >= TEN7 then 1 + Places(m / 10) else if m < TEN6 then Places(10 * m) - 1 else 0
  }

  /** The mantissa moved `p` places. */
  function Moved(m: nat, p: int): nat {
    if p >= 0 then m / Pow(10, p) else m * Pow(10, -p)
  }

  lemma MovedDown(m: nat, p: int)
    requires p >= 0
    ensures Moved(m / 10, p) == Moved(m, p + 1)
  {
    DivDiv(m, 10, Pow(10, p));
  }

  /** Stepping the exponent byte and moving it `p` further. */
  lemma StepWrap(e: byte, p: int)
    ensures (Inc(e) + p) % 256 == (e + (p + 1)) % 256
    ensures (Dec(e) + p) % 256 == (e + (p - 1)) % 256
  {
    hide Inc, Dec;
    SameByte(Inc(e) + p, Bit(Inc(e) == 0));
    SameByte(e + (p - 1), Bit(e == 0));
  }

  lemma SameByte(v: int, k: int)
    ensures (v + 256 * k) % 256 == v % 256
  {
  }

  lemma {:induction false} ShrunkIs(n: Num)
    requires n.m > 0
    ensures n.m >= TEN7 ==> Places(n.m) > 0 && Shrunk(n).m >= TEN6
    ensures n.m >= TEN7 ==> Shrunk(n) == Num(n.sgn, (n.exp + Places(n.m)) % 256, Moved(n.m, Places(n.m)))
    decreases n.m
  {
    hide Moved, Inc;
    if n.m >= TEN7 {
      var n' := n.(exp := Inc(n.exp), m := n.m / 10);
      ShrunkIs(n');
      ZeroMove(n'.m);
      assert n'.m < TEN7 ==> Places(n'.m) == 0;
      MovedDown(n.m, Places(n'.m));
      StepWrap(n.exp, Places(n'.m));
    }
  }

  lemma TenPow()
    ensures Pow(10, 0) == 1 && Pow(10, 1) == 10
  {
  }

  lemma MovedUp(m: nat, p: int)
    requires p <= 0
    ensures Moved(10 * m, p) == Moved(m, p - 1)
  {
    assert Pow(10, 1 - p) == 10 * Pow(10, -p);
    TenTimes(m, Pow(10, -p));
    TenPow();
  }

  lemma {:induction false} GrownIs(n: Num)
    requires 0 < n.m < TEN7
    ensures Places(n.m) <= 0 && TEN6 <= Grown(n).m < TEN7
    ensures Grown(n) == Num(n.sgn, (n.exp + Places(n.m)) % 256, Moved(n.m, Places(n.m)))
    decreases TEN6 - n.m
  {
    hide Moved, Dec;
    if n.m < TEN6 {
      var n' := n.(exp := Dec(n.exp), m := 10 * n.m);
      GrownIs(n');
      MovedUp(n.m, Places(n'.m));
      StepWrap(n.exp, Places(n'.m));
    } else {
      ZeroMove(n.m);
    }
  }

  lemma TenTimes(m: nat, p: nat)
    ensures (10 * m) * p == m * (10 * p)
  {
  }

  /** FNORM moves the point by `Places`, to seven digits. */
  lemma NormIs(n: Num)
    requires n.m > 0
    ensures Norm(n) == Num(n.sgn, (n.exp + Places(n.m)) % 256, Moved(n.m, Places(n.m)))
    ensures TEN6 <= Norm(n).m < TEN7
  {
    if n.m >= TEN7 {
      ShrunkIs(n);
    } else {
      GrownIs(n);
    }
  }

  /** `r` holds the leading seven digits of `x`. */
  predicate Truncates(r: Num, x: real) {
    TEN6 <= r.m < TEN7 && Magnitude(r) <= x < Magnitude(r) + Scale(SignedByte(r.exp))
  }

  predicate InRange(e: int) { -128 <= e <= 127 }

  lemma S8Wrap(e: int)
    ensures SignedByte(e % 256) == e <==> InRange(e)
  {
  }

  lemma Cross(m: nat, p: nat, y: real, q: nat)
    requires p > 0 && q == m / p && m as real <= y < m as real + 1.0
    ensures Times(q as real, p as real) <= y < Times(q as real + 1.0, p as real)
  {
    DivSplit(m, p);
    assert (q + 1) * p == p * q + p;
    assert Times(q as real, p as real) == (p * q) as real;
    assert Times(q as real + 1.0, p as real) == ((q + 1) * p) as real;
  }

  /** Moving the point keeps the leading digits. */
  lemma MovedTruncates(m: nat, p: int, e: int, y: real)
    requires m as real <= y < m as real + 1.0 && (p >= 0 || y == m as real)
    ensures var q, x := Moved(m, p) as real, Times(y, Scale(e));
            Times(q, Scale(e + p)) <= x < Times(q + 1.0, Scale(e + p))
    ensures p < 0 ==> Times(Moved(m, p) as real, Scale(e + p)) == Times(m as real, Scale(e))
  {
    hide Times, Pow, Scale;
    var q := Moved(m, p);
    if p >= 0 {
      ScalePow(p);
      var t := Pow(10, p) as real;
      Cross(m, Pow(10, p), y, q);
      TimesMono(Times(q as real, t), y, Scale(e));
      TimesMono(y, Times(q as real + 1.0, t), Scale(e));
      TimesAssoc(q as real, t, Scale(e));
      TimesAssoc(q as real + 1.0, t, Scale(e));
      ScaleAdd(p, e);
    } else {
      ScalePow(-p);
      var t := Pow(10, -p) as real;
      ScaleAdd(-p, e + p);
      TimesAssoc(m as real, t, Scale(e + p));
      ProductReal(m, Pow(10, -p));
      TimesMono(q as real, q as real + 1.0, Scale(e + p));
    }
  }

  lemma ProductReal(a: nat, b: nat)
    ensures (a * b) as real == Times(a as real, b as real)
  {
  }

  /** Only one exponent can be right. */
  lemma OneExponent(q: nat, e: int, e': int, x: real)
    requires TEN6 <= q
    requires Times(q as real, Scale(e)) <= x < Times(q as real + 1.0, Scale(e))
    requires Times(q as real, Scale(e')) <= x < Times(q as real + 1.0, Scale(e'))
    ensures e == e'
  {
    if e < e' {
      NotAbove(q, e, e');
    } else if e' < e {
      NotAbove(q, e', e);
    }
  }

  lemma NotAbove(q: nat, e: int, e': int)
    requires TEN6 <= q && e < e'
    ensures Times(q as real + 1.0, Scale(e)) < Times(q as real, Scale(e'))
  {
    ScaleMono(e, e');
    Spread(q as real, Scale(e), Scale(e'));
  }

  lemma Spread(q: real, s: real, t: real)
    requires q >= 1.0 && s > 0.0 && t >= 10.0 * s
    ensures Times(q + 1.0, s) < Times(q, t)
  {
    hide Times;
    TimesMono(q + 1.0, 2.0 * q, s);
    TimesSwap(q, t);
    TimesSwap(q, 10.0 * s);
    TimesMono(10.0 * s, t, q);
    TimesTen(q, s);
    TimesAdd(q, q, s);
  }

  /** Normalizing an integer part `n.m` of `y`, at exponent `e` held modulo 256, gives the seven leading digits of
      y * 10^e, exactly when the moved exponent fits its byte. */
  lemma NormTruncates(n: Num, e: int, y: real)
    requires n.m > 0 && n.exp == e % 256
    requires n.m as real <= y < n.m as real + 1.0 && (n.m >= TEN6 || y == n.m as real)
    ensures Norm(n).sgn == n.sgn
    ensures Truncates(Norm(n), Times(y, Scale(e))) <==> InRange(e + Places(n.m))
    ensures InRange(e + Places(n.m)) && y == n.m as real && n.m < TEN7
            ==> Magnitude(Norm(n)) == Times(y, Scale(e))
  {
    hide Times, Scale, Pow, Moved, Norm;
    NormIs(n);
    PlacesSign(n.m);
    var p, r := Places(n.m), Norm(n);
    var q := Moved(n.m, p);
    MovedTruncates(n.m, p, e, y);
    var e' := SignedByte((e + p) % 256);
    assert r.exp == (e + p) % 256;
    S8Wrap(e + p);
    TimesAdd(q as real, 1.0, Scale(e'));
    TimesOne(Scale(e'));
    if Truncates(r, Times(y, Scale(e))) {
      OneExponent(q, e + p, e', Times(y, Scale(e)));
    }
    if n.m < TEN7 && n.m >= TEN6 {
      ZeroMove(n.m);
    }
  }

  lemma ZeroMove(m: nat)
    ensures Moved(m, 0) == m
  {
    TenPow();
  }

  lemma PlacesSign(m: nat)
    requires m > 0
    ensures m >= TEN6 ==> Places(m) >= 0
    ensures m < TEN6 ==> Places(m) < 0
    ensures TEN6 <= m < TEN7 ==> Places(m) == 0
  {
    if m >= TEN7 {
      ShrunkIs(Num(0, 0, m));
    } else {
      GrownIs(Num(0, 0, m));
      if m < TEN6 { GrownIs(Num(0, 0, 10 * m)); }
    }
  }

  lemma {:induction false} PlacesAt(m: nat, k: nat)
    requires TEN6 * Pow(10, k) <= m < TEN7 * Pow(10, k)
    ensures m > 0 && Places(m) == k
  {
    if k > 0 {
      assert Pow(10, k) == 10 * Pow(10, k - 1);
      PlacesAt(m / 10, k - 1);
    }
  }

  lemma XorSigns()
    ensures Xor(0, 0) == 0 && Xor(255, 255) == 0 && Xor(0, 255) == 255 && Xor(255, 0) == 255
  {
  }
}
