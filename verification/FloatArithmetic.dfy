/** The rounding theorems of the float library: multiply, divide, add, compare, and the integer bridges. */
module FloatArithmetic {
  import opened Bits
  import opened Alu
  import opened FloatCells
  import opened FloatSpec
  import opened FloatTheory

  lemma MulBounds(x: nat, y: nat)
    requires TEN6 <= x < TEN7 && TEN6 <= y < TEN7
    ensures TEN6 * TEN6 <= x * y < TEN7 * TEN7
  {
    MulMono(x, TEN6, y);
    MulMono(x, y, TEN7 - 1);
  }

  lemma PowAt()
    ensures Pow(10, 6) == TEN6 && Pow(10, 7) == TEN7 && Pow(10, 8) == 10 * TEN7
  {
  }

  lemma Regroup(p: real, s: real, q: real, t: real)
    ensures Times(Times(p, s), Times(q, t)) == Times(Times(p, q), Times(s, t))
  {
    hide Times;
    TimesAssoc(p, s, Times(q, t));
    TimesAssoc(s, q, t);
    TimesSwap(s, q);
    TimesAssoc(q, s, t);
    TimesAssoc(p, q, Times(s, t));
  }

  lemma ProductScale(a: Num, f: Num)
    ensures Magnitude(a) * Magnitude(f) == Times((a.m * f.m) as real, Scale(SignedByte(a.exp) + SignedByte(f.exp)))
  {
    hide Scale;
    ProductReal(a.m, f.m);
    ScaleAdd(SignedByte(a.exp), SignedByte(f.exp));
    Regroup(a.m as real, Scale(SignedByte(a.exp)), f.m as real, Scale(SignedByte(f.exp)));
  }

  lemma ProductFits(x: nat, y: nat)
    requires x < TEN7 && x * y < TEN7 * TEN7
    ensures y * (x % TWO24) % TWO48 == x * y
  {
    assert x % TWO24 == x;
    assert y * x == x * y;
  }

  /** What FMUL normalizes. */
  lemma MulParts(a: Num, f: Num)
    requires Normal(a) && Normal(f)
    ensures var p := a.m * f.m;
            && Mul(a, f) == Norm(Num(if a.sgn == f.sgn then 0 else 255, (SignedByte(a.exp) + SignedByte(f.exp)) % 256, p))
            && TEN6 <= p && Places(p) == (if p >= TEN6 * TEN7 then 7 else 6)
  {
    hide Norm, Places, Xor, SignedByte, Pow;
    XorSigns();
    MulBounds(a.m, f.m);
    PowAt();
    PlacesAt(a.m * f.m, if a.m * f.m >= TEN6 * TEN7 then 7 else 6);
    ExponentGap(f.exp, a.exp);
    ProductFits(a.m, f.m);
  }

  /** FMUL on normal operands: the sign is the product's, and the result is the product's leading seven digits
      exactly when its exponent fits in the byte. */
  lemma MulTruncates(a: Num, f: Num)
    requires Normal(a) && Normal(f)
    ensures var r, places := Mul(a, f), if a.m * f.m >= TEN6 * TEN7 then 7 else 6;
            && r.sgn == (if a.sgn == f.sgn then 0 else 255)
            && (Truncates(r, Magnitude(a) * Magnitude(f)) <==> InRange(SignedByte(a.exp) + SignedByte(f.exp) + places))
  {
    hide Norm, Places, Truncates, Scale, Mul, Magnitude, SignedByte, Times;
    MulParts(a, f);
    ProductScale(a, f);
    var m, e := a.m * f.m, SignedByte(a.exp) + SignedByte(f.exp);
    NormTruncates(Num(if a.sgn == f.sgn then 0 else 255, e % 256, m), e, m as real);
  }

  lemma QuotientReal(p: nat, d: nat)
    requires d > 0
    ensures (p / d) as real <= p as real / d as real < (p / d) as real + 1.0
    ensures Times(p as real / d as real, d as real) == p as real
  {
    DivSplit(p, d);
    var q, y := p / d, p as real / d as real;
    assert y * d as real == p as real;
    ProductReal(q, d);
    ProductReal(q + 1, d);
    assert (q + 1) * d == d * q + d && q * d == d * q;
    TimesMono(q as real, y, d as real);
    TimesMono(y, q as real + 1.0, d as real);
  }

  lemma DivBounds(a: nat, f: nat)
    requires TEN6 <= a < TEN7 && TEN6 <= f < TEN7
    ensures TEN6 <= TEN7 * a / f < 10 * TEN7
    ensures a < f ==> TEN7 * a / f < TEN7
    ensures a >= f ==> TEN7 * a / f >= TEN7
  {
    DivSplit(TEN7 * a, f);
    var q := TEN7 * a / f;
    if q < TEN6 { MulMono(f, q, TEN6 - 1); }
    if q >= 10 * TEN7 { MulMono(f, 10 * TEN7, q); }
    if a < f && q >= TEN7 { MulMono(f, TEN7, q); }
    if a >= f && q < TEN7 { MulMono(f, q, TEN7 - 1); }
  }

  lemma CancelScales(x: real, s: real, t: real, ratio: real)
    requires t > 0.0 && x == Times(ratio, t)
    ensures x / t == ratio
  {
  }

  /** |a| / |f| is the scaled quotient of the mantissas. */
  lemma QuotientScale(a: Num, f: Num)
    requires Normal(a) && Normal(f)
    ensures var y := (TEN7 * a.m) as real / f.m as real;
            Magnitude(a) / Magnitude(f) == Times(y, Scale(SignedByte(a.exp) - SignedByte(f.exp) - 7))
  {
    hide Times, Scale;
    var ea, ef := SignedByte(a.exp), SignedByte(f.exp);
    var y := (TEN7 * a.m) as real / f.m as real;
    var t := Scale(ea - ef - 7);
    QuotientReal(TEN7 * a.m, f.m);
    Regroup(y, t, f.m as real, Scale(ef));
    ScaleAdd(ea - ef - 7, ef);
    ScalePow(7);
    PowAt();
    ScaleAdd(7, ea - 7);
    ProductReal(TEN7, a.m);
    TimesAssoc(TEN7 as real, a.m as real, Scale(ea - 7));
    TimesSwap(TEN7 as real, a.m as real);
    TimesAssoc(a.m as real, TEN7 as real, Scale(ea - 7));
    assert Times(Times(y, t), Magnitude(f)) == Magnitude(a);
    CancelScales(Magnitude(a), 0.0, Magnitude(f), Times(y, t));
  }

  /** What FDIV normalizes. */
  lemma DivParts(a: Num, f: Num)
    requires Normal(a) && Normal(f)
    ensures var q := TEN7 * a.m / f.m;
            && Div(a, f) == Norm(Num(if a.sgn == f.sgn then 0 else 255, (SignedByte(a.exp) - SignedByte(f.exp) - 7) % 256, q))
            && TEN6 <= q && Places(q) == (if a.m >= f.m then 1 else 0)
  {
    hide Norm, Places, Xor, SignedByte, Pow;
    XorSigns();
    DivBounds(a.m, f.m);
    TenPow();
    PlacesAt(TEN7 * a.m / f.m, if a.m >= f.m then 1 else 0);
    ExponentGap(a.exp, f.exp);
    assert TEN7 * a.m % TWO48 == TEN7 * a.m;
  }

  /** Exponent bytes subtract and add as the numbers they stand for, modulo 256. */
  lemma ExponentGap(x: byte, y: byte)
    ensures (x - y - 7) % 256 == (SignedByte(x) - SignedByte(y) - 7) % 256
    ensures (x + y) % 256 == (SignedByte(x) + SignedByte(y)) % 256
    ensures SignedByte(x) >= SignedByte(y) ==> (x - y) % 256 == SignedByte(x) - SignedByte(y)
  {
    var i, j := (if x >= 128 then 1 else 0), (if y >= 128 then 1 else 0);
    SameByte(SignedByte(x) - SignedByte(y) - 7, i - j);
    SameByte(SignedByte(x) + SignedByte(y), i + j);
    SameByte(SignedByte(x) - SignedByte(y), i - j);
    assert SignedByte(x) == x - 256 * i && SignedByte(y) == y - 256 * j;
  }

  /** FDIV on normal operands: the quotient's leading seven digits, exactly when the exponent fits. */
  lemma DivTruncates(a: Num, f: Num)
    requires Normal(a) && Normal(f)
    ensures var r, places := Div(a, f), if a.m >= f.m then 1 else 0;
            && r.sgn == (if a.sgn == f.sgn then 0 else 255)
            && Magnitude(f) > 0.0
            && (Truncates(r, Magnitude(a) / Magnitude(f)) <==> InRange(SignedByte(a.exp) - SignedByte(f.exp) - 7 + places))
  {
    hide Norm, Places, Truncates, Scale, Div, SignedByte;
    PositiveProduct(f.m as real, Scale(SignedByte(f.exp)));
    hide Magnitude, Times;
    DivParts(a, f);
    QuotientScale(a, f);
    QuotientReal(TEN7 * a.m, f.m);
    var q, e := TEN7 * a.m / f.m, SignedByte(a.exp) - SignedByte(f.exp) - 7;
    NormTruncates(Num(if a.sgn == f.sgn then 0 else 255, e % 256, q), e, (TEN7 * a.m) as real / f.m as real);
  }

  // ---- addition ----

  /** Operands in the order FADD puts them: `hi` has the larger exponent. */
  predicate Ordered(lo: Num, hi: Num) {
    Normal(lo) && Normal(hi) && SignedByte(lo.exp) <= SignedByte(hi.exp)
  }

  function Gap(lo: Num, hi: Num): int { SignedByte(hi.exp) - SignedByte(lo.exp) }

  /** The mantissas added at the larger exponent. */
  function AlignedSum(lo: Num, hi: Num): (r: nat)
    requires Gap(lo, hi) >= 0
    ensures r >= hi.m
  {
    hi.m + Quotient(lo.m, Pow(10, Gap(lo, hi)))
  }

  /** The smaller operand in units of the larger one's exponent. */
  function Share(lo: Num, hi: Num): real { Times(lo.m as real, Scale(SignedByte(lo.exp) - SignedByte(hi.exp))) }

  lemma ShareScale(lo: Num, hi: Num)
    ensures Magnitude(lo) == Times(Share(lo, hi), Scale(SignedByte(hi.exp)))
  {
    hide Times, Scale;
    ScaleAdd(SignedByte(lo.exp) - SignedByte(hi.exp), SignedByte(hi.exp));
    TimesAssoc(lo.m as real, Scale(SignedByte(lo.exp) - SignedByte(hi.exp)), Scale(SignedByte(hi.exp)));
  }

  lemma SharePart(lo: Num, hi: Num)
    requires Ordered(lo, hi) && Gap(lo, hi) < 8
    ensures var d := (hi.exp - lo.exp) % 256;
            var q := lo.m / Pow(10, d);
            && d == Gap(lo, hi) && Aligned(lo, hi) == Num(lo.sgn, hi.exp, q)
            && q as real <= Share(lo, hi) < q as real + 1.0
            && (d == 0 ==> q == lo.m && Share(lo, hi) == lo.m as real)
            && (d > 0 ==> q < TEN6)
  {
    hide Times, Scale;
    var d := Gap(lo, hi);
    var p := Pow(10, d);
    ScalePow(d);
    ScaleAdd(d, -d);
    ScaleZero(1.0);
    TimesAssoc(lo.m as real, Scale(-d), Scale(d));
    TimesSwap(Scale(-d), Scale(d));
    TimesOne(lo.m as real);
    TimesSwap(1.0, lo.m as real);
    assert Times(Share(lo, hi), p as real) == lo.m as real;
    QuotientReal(lo.m, p);
    CancelScales(lo.m as real, 0.0, p as real, Share(lo, hi));
    if d > 0 {
      assert p == 10 * Pow(10, d - 1);
      MulMono(Pow(10, d - 1), 1, Pow(10, d - 1));
      DivSplit(lo.m, p);
      if lo.m / p >= TEN6 { MulMono(p, TEN6, lo.m / p); }
    } else {
      TenPow();
    }
  }

  /** Eight places apart the smaller operand is below one tenth of a unit. */
  lemma ShareSmall(lo: Num, hi: Num)
    requires Normal(lo) && Gap(lo, hi) >= 8
    ensures 0.0 < Share(lo, hi) < 1.0
  {
    hide Times, Scale;
    var d := Gap(lo, hi);
    ScaleAdd(d, -d);
    ScaleZero(1.0);
    ScalePow(7);
    PowAt();
    if d > 7 { ScaleMono(7, d); }
    TimesMono(lo.m as real, Scale(d), Scale(-d));
    PositiveProduct(lo.m as real, Scale(-d));
  }

  lemma PositiveProduct(x: real, y: real)
    requires x > 0.0 && y > 0.0
    ensures Times(x, y) > 0.0
  {
  }

  /** Eight places apart the smaller operand does not reach the digits. */
  lemma FarSum(lo: Num, hi: Num)
    requires Ordered(lo, hi) && Gap(lo, hi) >= 8
    ensures AddOrdered(lo, hi) == hi && Truncates(hi, Magnitude(lo) + Magnitude(hi))
  {
    hide Scale, Times, Share, SignedByte;
    var s, y := Scale(SignedByte(hi.exp)), hi.m as real + Share(lo, hi);
    ExponentGap(hi.exp, lo.exp);
    ShareScale(lo, hi);
    TimesAdd(hi.m as real, Share(lo, hi), s);
    ShareSmall(lo, hi);
    TimesMono(hi.m as real, y, s);
    TimesMono(y, hi.m as real + 1.0, s);
    TimesAdd(hi.m as real, 1.0, s);
    TimesOne(s);
  }

  /** Closer, the aligned mantissas are added and normalized. */
  lemma NearSum(lo: Num, hi: Num)
    requires Ordered(lo, hi) && Gap(lo, hi) < 8 && lo.sgn == hi.sgn
    ensures var m := AlignedSum(lo, hi);
            && AddOrdered(lo, hi) == Norm(hi.(m := m))
            && TEN6 <= m && Places(m) == (if m >= TEN7 then 1 else 0)
  {
    hide Norm, Places, Scale, Times, Share, Pow, SignedByte;
    ExponentGap(hi.exp, lo.exp);
    SharePart(lo, hi);
    TenPow();
    var m := AlignedSum(lo, hi);
    PlacesAt(m, if m >= TEN7 then 1 else 0);
  }

  /** Adding magnitudes: the leading seven digits of the sum. */
  lemma AddOrderedTruncates(lo: Num, hi: Num)
    requires Ordered(lo, hi) && lo.sgn == hi.sgn
    ensures var r := AddOrdered(lo, hi);
            var carries := Gap(lo, hi) < 8 && AlignedSum(lo, hi) >= TEN7;
            && r.sgn == hi.sgn
            && (Truncates(r, Magnitude(lo) + Magnitude(hi)) <==> !carries || SignedByte(hi.exp) < 127)
  {
    hide Norm, Places, Scale, Times, Share, Pow, SignedByte, Truncates, AddOrdered;
    if Gap(lo, hi) >= 8 {
      FarSum(lo, hi);
    } else {
      var e, s := SignedByte(hi.exp), Scale(SignedByte(hi.exp));
      ShareScale(lo, hi);
      TimesAdd(hi.m as real, Share(lo, hi), s);
      S8Byte(hi.exp);
      SharePart(lo, hi);
      NearSum(lo, hi);
      NormTruncates(hi.(m := AlignedSum(lo, hi)), e, hi.m as real + Share(lo, hi));
    }
  }

  /** FADD on normal operands of one sign: the sum's sign and leading seven digits, exactly when either no eighth
      digit appears or the larger exponent can still be raised. */
  lemma AddTruncates(a: Num, f: Num)
    requires Normal(a) && Normal(f) && a.sgn == f.sgn
    ensures var r := Add(a, f);
            var hi, lo := if SignedByte(f.exp) > SignedByte(a.exp) then f else a, if SignedByte(f.exp) > SignedByte(a.exp) then a else f;
            var carries := Gap(lo, hi) < 8 && AlignedSum(lo, hi) >= TEN7;
            && r.sgn == a.sgn
            && (Truncates(r, Magnitude(a) + Magnitude(f)) <==> !carries || SignedByte(hi.exp) < 127)
  {
    hide AddOrdered, Truncates, Magnitude, Pow;
    if SignedByte(f.exp) > SignedByte(a.exp) {
      AddOrderedTruncates(a, f);
    } else {
      AddOrderedTruncates(f, a);
    }
  }

  /** The aligned mantissa difference FADD normalizes when the signs differ. */
  function Residue(lo: Num, hi: Num): nat {
    var q := if Gap(lo, hi) < 0 || Gap(lo, hi) >= 8 then 0 else lo.m / Pow(10, Gap(lo, hi));
    if q >= hi.m then q - hi.m else hi.m - q
  }

  /** A wrapped exponent puts the result far above anything the operands can make. */
  lemma Wrapped(r: Num, e: int, e': int, x: real)
    requires TEN6 <= r.m && SignedByte(r.exp) == e' && e' >= e + 2
    requires x <= Times(TEN7 as real, Scale(e))
    ensures Magnitude(r) >= x + Scale(e)
  {
    hide Times, Scale;
    ScaleMono(e, e + 1);
    ScaleMono(e + 1, e + 2);
    if e + 2 < e' { ScaleMono(e + 2, e'); }
    var s, t := Scale(e), Scale(e');
    TimesMono(TEN6 as real, r.m as real, t);
    TimesSwap(TEN6 as real, t);
    TimesMono(100.0 * s, t, TEN6 as real);
    Hundredfold(s);
  }

  lemma Hundredfold(s: real)
    requires s > 0.0
    ensures Times(100.0 * s, TEN6 as real) >= Times(TEN7 as real, s) + s
  {
  }

  lemma Above(y: real, m: nat, s: real)
    requires 0.0 < y <= m as real < y + 1.0 && s > 0.0
    ensures 0.0 < Times(y, s) <= Times(m as real, s) < Times(y, s) + s
  {
    hide Times;
    TimesMono(y, m as real, s);
    TimesMono(m as real, y + 1.0, s);
    TimesAdd(y, 1.0, s);
    TimesOne(s);
    PositiveProduct(y, s);
  }

  /** Normalizing a residue at exponent `e`: close above `x` exactly when the exponent fits. */
  lemma ResidueNorm(n: Num, e: int, y: real)
    requires 0 < n.m < TEN7 && n.exp == e % 256 && InRange(e)
    requires 0.0 < y <= n.m as real < y + 1.0
    ensures var r, x, s := Norm(n), Times(y, Scale(e)), Scale(e);
            && x > 0.0 && r.m > 0 && r.sgn == n.sgn
            && (x <= Magnitude(r) < x + s <==> InRange(e + Places(n.m)))
            && (y == n.m as real ==> (Magnitude(r) == x <==> InRange(e + Places(n.m))))
  {
    hide Norm, Places, Scale, Times, Magnitude, Moved, Pow;
    var r, s := Norm(n), Scale(e);
    NormTruncates(n, e, n.m as real);
    NormIs(n);
    PlacesSign(n.m);
    PlacesLow(n.m);
    Above(y, n.m, s);
    if !InRange(e + Places(n.m)) {
      TimesMono(y, TEN7 as real, s);
      Wrapped(r, e, e + Places(n.m) + 256, Times(y, s));
    }
  }

  lemma {:induction false} PlacesLow(m: nat)
    requires 0 < m < TEN7
    ensures -6 <= Places(m) <= 0
  {
    if m >= TEN6 {
    } else if m >= 100_000 {
    } else if m >= 10_000 {
      assert Places(10 * m) == -1;
    } else {
      PlacesLowest(m);
    }
  }

  lemma {:induction false} PlacesLowest(m: nat)
    requires 0 < m < 10_000
    ensures -6 <= Places(m) <= 0
  {
    var a := Places(10 * m);
    var b := Places(100 * m);
    var c := Places(1000 * m);
    var d := Places(10_000 * m);
    assert a == Places(m) + 1 && b == a + 1;
    assert 1000 * m < TEN7;
    assert 1000 * m < TEN6 ==> d == c + 1;
    assert 100 * m < TEN6;
    assert c == b + 1;
    if 1000 * m < TEN6 {
      assert 10_000 * m < TEN6 ==> Places(100_000 * m) == d + 1;
      assert 100_000 * m < TEN6 ==> Places(TEN6 * m) == Places(100_000 * m) + 1;
    }
  }

  lemma S8Byte(x: byte)
    ensures SignedByte(x) % 256 == x && InRange(SignedByte(x))
  {
  }

  /** Subtracting magnitudes, exponents in order: the sign of the larger magnitude; a result not below the true
      difference and less than one unit of the larger exponent above it, exactly when its exponent fits. */
  lemma SubOrdered(lo: Num, hi: Num)
    requires Ordered(lo, hi) && lo.sgn != hi.sgn && lo.exp != hi.exp
    ensures var r, x := AddOrdered(lo, hi), Magnitude(hi) - Magnitude(lo);
            && x > 0.0 && r.m > 0 && r.sgn == hi.sgn && 0 < Residue(lo, hi) < TEN7
            && (x <= Magnitude(r) < x + Scale(SignedByte(hi.exp)) <==> InRange(SignedByte(hi.exp) + Places(Residue(lo, hi))))
  {
    hide Norm, Places, Scale, Times, Share, Pow, SignedByte;
    var e, s := SignedByte(hi.exp), Scale(SignedByte(hi.exp));
    ShareScale(lo, hi);
    TimesAdd(hi.m as real, Share(lo, hi), s);
    var y := hi.m as real - Share(lo, hi);
    assert Magnitude(hi) - Magnitude(lo) == Times(y, s);
    ExponentGap(hi.exp, lo.exp);
    S8Byte(hi.exp);
    S8Byte(lo.exp);
    if Gap(lo, hi) >= 8 {
      ShareSmall(lo, hi);
      Above(y, hi.m, s);
      PlacesSign(hi.m);
    } else {
      SharePart(lo, hi);
      ResidueNorm(hi.(m := Residue(lo, hi)), e, y);
    }
  }

  lemma NormZero(n: Num)
    requires n.m == 0
    ensures Norm(n) == ZERO
  {
  }

  /** Equal exponents: the difference is exact. */
  lemma SubEqual(lo: Num, hi: Num)
    requires Ordered(lo, hi) && lo.sgn != hi.sgn && lo.exp == hi.exp
    ensures var r, d := AddOrdered(lo, hi), Residue(lo, hi);
            var x := if lo.m >= hi.m then Magnitude(lo) - Magnitude(hi) else Magnitude(hi) - Magnitude(lo);
            && (lo.m == hi.m ==> r == ZERO && x == 0.0)
            && (lo.m > hi.m ==> r.m > 0 && r.sgn == lo.sgn)
            && (lo.m < hi.m ==> r.m > 0 && r.sgn == hi.sgn)
            && (lo.m != hi.m ==> d > 0 && x > 0.0 && (Magnitude(r) == x <==> InRange(SignedByte(hi.exp) + Places(d)))
                                 && (x <= Magnitude(r) < x + Scale(SignedByte(hi.exp)) <==> InRange(SignedByte(hi.exp) + Places(d))))
  {
    hide Norm, Places, Scale, Times, Pow;
    TenPow();
    var e, s := SignedByte(hi.exp), Scale(SignedByte(hi.exp));
    assert e % 256 == hi.exp;
    assert lo.m / Pow(10, 0) == lo.m;
    assert Aligned(lo, hi) == lo;
    if lo.m > hi.m {
      var n := lo.(m := lo.m - hi.m);
      ResidueNorm(n, e, n.m as real);
      TimesAdd(lo.m as real, hi.m as real, s);
    } else if lo.m < hi.m {
      var n := hi.(m := hi.m - lo.m);
      ResidueNorm(n, e, n.m as real);
      TimesAdd(hi.m as real, lo.m as real, s);
    } else {
      NormZero(lo.(m := 0));
    }
  }

  function Abs(x: real): real { if x < 0.0 then -x else x }

  /** FADD on normal operands of opposite signs: zero exactly when they cancel; otherwise the true sign, and a magnitude
      at least the true one and less than one unit of the larger exponent above it (exact when the exponents are
      equal), exactly when the normalized exponent fits. */
  lemma AddOpposite(a: Num, f: Num)
    requires Normal(a) && Normal(f) && a.sgn != f.sgn
    ensures var r, x := Add(a, f), Value(a) + Value(f);
            var hi, lo := if SignedByte(f.exp) > SignedByte(a.exp) then f else a, if SignedByte(f.exp) > SignedByte(a.exp) then a else f;
            && (r.m == 0 <==> x == 0.0)
            && (x > 0.0 ==> r.sgn == 0) && (x < 0.0 ==> r.sgn == 255)
            && (x != 0.0 ==> Residue(lo, hi) > 0
                             && (InRange(SignedByte(hi.exp) + Places(Residue(lo, hi)))
                                 <==> Abs(x) <= Magnitude(r) < Abs(x) + Scale(SignedByte(hi.exp)))
                             && (a.exp == f.exp ==> (InRange(SignedByte(hi.exp) + Places(Residue(lo, hi)))
                                                     <==> Magnitude(r) == Abs(x))))
  {
    hide AddOrdered, Places, Residue, Scale, Magnitude;
    var hi, lo := if SignedByte(f.exp) > SignedByte(a.exp) then f else a, if SignedByte(f.exp) > SignedByte(a.exp) then a else f;
    if lo.exp == hi.exp {
      SubEqual(lo, hi);
    } else {
      SubOrdered(lo, hi);
    }
  }

  // ---- comparison ----

  predicate Operand(n: Num) { Normal(n) || n == ZERO }

  lemma NegValue(f: Num)
    requires Operand(f)
    ensures Value(Neg(f)) == -Value(f) && Operand(Neg(f)) && (f.m > 0 ==> Neg(f).sgn != f.sgn)
  {
    XorSigns();
    ValueZero();
  }

  lemma ValueZero()
    ensures Value(ZERO) == 0.0
  {
    TimesOne(Scale(0));
  }

  lemma NonZeroValue(n: Num)
    requires Normal(n)
    ensures Value(n) != 0.0 && (Value(n) > 0.0 <==> n.sgn == 0)
  {
    PositiveProduct(n.m as real, Scale(SignedByte(n.exp)));
  }

  lemma SameSignOrdered(lo: Num, hi: Num)
    requires Ordered(lo, hi) && lo.sgn == hi.sgn
    ensures AddOrdered(lo, hi).m > 0 && AddOrdered(lo, hi).sgn == hi.sgn
  {
    hide Norm, Pow, SignedByte, AddOrdered, Places, Truncates, Magnitude;
    if Gap(lo, hi) >= 8 {
      FarSum(lo, hi);
    } else {
      NearSum(lo, hi);
      NormIs(hi.(m := AlignedSum(lo, hi)));
    }
  }

  lemma SameSignSum(a: Num, f: Num)
    requires Normal(a) && Normal(f) && a.sgn == f.sgn
    ensures Add(a, f).m > 0 && Add(a, f).sgn == a.sgn
  {
    hide AddOrdered;
    if SignedByte(f.exp) > SignedByte(a.exp) {
      SameSignOrdered(a, f);
    } else {
      SameSignOrdered(f, a);
    }
  }

  /** Although subtraction truncates and its exponent may wrap, the sign and zero test on FSUB's result order any two
      operands exactly. */
  lemma CompareExact(l: Num, f: Num)
    requires Operand(l) && Operand(f)
    ensures var r := Sub(l, f);
            && (r.m == 0 <==> Value(l) == Value(f))
            && (r.m > 0 && r.sgn != 0 <==> Value(l) < Value(f))
            && (r.m > 0 && r.sgn == 0 <==> Value(l) > Value(f))
  {
    hide Value, Xor;
    NegValue(f);
    ValueZero();
    var g := Neg(f);
    if f.m > 0 { NonZeroValue(f); NonZeroValue(g); }
    if l.m > 0 { NonZeroValue(l); }
    if l.m > 0 && f.m > 0 {
      if l.sgn == g.sgn {
        SameSignSum(l, g);
      } else {
        AddOpposite(l, g);
      }
    }
  }

  /** The six operators of `ev_cmp`, by their codes. */
  predicate Related(op: byte, x: real, y: real) {
    if op == 0 then x < y
    else if op == 1 then x > y
    else if op == 2 then x == y
    else if op == 3 then x <= y
    else if op == 4 then x >= y
    else x != y
  }

  // ---- integers ----

  lemma PowSplit(k: nat)
    requires k > 0
    ensures Pow(10, k) == 10 * Pow(10, k - 1)
  {
  }

  lemma FloorQuotient(m: nat, p: nat, x: real)
    requires p > 0 && Times(x, p as real) == m as real
    ensures x.Floor == m / p
  {
    QuotientReal(m, p);
    CancelScales(m as real, 0.0, p as real, x);
  }

  lemma WordOf48(x: nat)
    ensures x % TWO48 % 0x1_0000 == x % 0x1_0000
  {
    DivSplit(x, TWO48);
    var q, r := x / TWO48, x % TWO48;
    DivSplit(r, 0x1_0000);
    ModUnique(x, 0x1_0000, 0x1_0000_0000 * q + r / 0x1_0000, r % 0x1_0000);
  }

  lemma MagnitudeWhole(n: Num)
    requires n.m > 0
    ensures IntMagnitude(n) % 0x1_0000 == Magnitude(n).Floor % 0x1_0000
  {
    hide Times, Scale, Pow;
    var e := SignedByte(n.exp);
    if n.exp < 128 {
      ScalePow(e);
      ProductReal(n.m, Pow(10, e));
      TimesSwap(n.m as real, Pow(10, e) as real);
      WordOf48(Pow(10, e) * n.m);
      assert n.m * Pow(10, e) == Pow(10, e) * n.m;
    } else {
      ScalePow(-e);
      ScaleAdd(e, -e);
      ScaleZero(1.0);
      TimesOne(n.m as real);
      TimesSwap(1.0, n.m as real);
      TimesAssoc(n.m as real, Scale(e), Scale(-e));
      FloorQuotient(n.m, Pow(10, -e), Magnitude(n));
    }
  }

  /** FAC_TO_INT truncates toward zero, modulo 2^16: for every mantissa and every exponent byte. */
  lemma ToIntTruncates(n: Num)
    ensures var whole := Magnitude(n).Floor;
            ToInt(n) == (if n.sgn == 0 then whole else -whole) % 0x1_0000
  {
    hide Magnitude, IntMagnitude;
    if n.m > 0 {
      MagnitudeWhole(n);
      var low := IntMagnitude(n) % 0x1_0000;
      var w := Magnitude(n).Floor;
      DivSplit16(w);
    } else {
      MagnitudeNone(n);
    }
  }

  lemma MagnitudeNone(n: Num)
    requires n.m == 0
    ensures Magnitude(n) == 0.0
  {
    TimesOne(Scale(SignedByte(n.exp)));
  }

  lemma DivSplit16(w: int)
    ensures (-w) % 0x1_0000 == Negated(w % 0x1_0000)
  {
    var q, r := w / 0x1_0000, w % 0x1_0000;
    if r == 0 {
      ModUnique(-w, 0x1_0000, -q, 0);
    } else {
      ModUnique(-w, 0x1_0000, -q - 1, 0x1_0000 - r);
    }
  }

  /** SINT_TO_FAC is exact. */
  lemma FromIntExact(x: word)
    ensures Value(FromInt(x)) == S16(x) as real && Operand(FromInt(x))
  {
    hide Norm, Places, Times, Scale;
    var m := if x < 0x8000 then x else Negated(x);
    ScaleZero(m as real);
    ValueZero();
    if m == 0 {
      NormZero(Num(0, 0, m));
    } else {
      PlacesLow(m);
      NormIs(Num(0, 0, m));
      NormTruncates(Num(0, 0, m), 0, m as real);
    }
  }

  /** SINT_TO_FAC followed by FAC_TO_INT gives every 16-bit word back. */
  lemma IntRoundTrip(x: word)
    ensures ToInt(FromInt(x)) == x
  {
    hide FromInt, ToInt, Magnitude;
    FromIntExact(x);
    ToIntTruncates(FromInt(x));
    var n := FromInt(x);
    if n.sgn == 0 {
      assert Magnitude(n) == S16(x) as real;
    } else {
      assert Magnitude(n) == (-S16(x)) as real;
    }
  }
}
