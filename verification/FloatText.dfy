/** Printing and parsing floats: PARSE_FLOAT reads back what PRINT_FAC writes. */
module FloatText {
  import opened Bits
  import opened Alu
  import opened FloatCells
  import opened FloatSpec
  import opened FloatTheory
  import opened FloatArithmetic

  /** The number a run of decimal digits stands for. */
  function Val(ds: seq<byte>): nat {
    if ds == [] then 0 else 10 * Val(ds[..|ds| - 1]) + ds[|ds| - 1]
  }

  predicate AllDigits(ds: seq<byte>) { forall i :: 0 <= i < |ds| ==> ds[i] < 10 }

  /** `s` stands in the text at `i`. */
  predicate At(text: seq<byte>, i: nat, s: seq<byte>) {
    i + |s| <= |text| && text[i..i + |s|] == s
  }

  lemma {:induction false} ValAppend(a: seq<byte>, b: seq<byte>)
    ensures Val(a + b) == Val(a) * Pow(10, |b|) + Val(b)
  {
    if b == [] {
      assert a + b == a;
      TenPow();
    } else {
      var c := b[..|b| - 1];
      assert (a + b)[..|a + b| - 1] == a + c;
      ValAppend(a, c);
      PowSplit(|b|);
      TenTimes(Val(a), Pow(10, |c|));
      TenGroup(Val(a), Pow(10, |c|));
    }
  }

  lemma TenGroup(x: nat, p: nat)
    ensures 10 * (x * p) == x * (10 * p)
  {
  }

  lemma {:induction false} ValZeros(ds: seq<byte>)
    requires forall i :: 0 <= i < |ds| ==> ds[i] == 0
    ensures Val(ds) == 0
  {
    if ds != [] { ValZeros(ds[..|ds| - 1]); }
  }

  lemma {:induction false} DigitsVal(m: nat, n: nat)
    requires m < Pow(10, n)
    ensures Val(Digits(m, n)) == m
  {
    if n > 0 {
      PowSplit(n);
      DigitsVal(m / 10, n - 1);
      assert Digits(m, n)[..n - 1] == Digits(m / 10, n - 1);
    }
  }

  lemma {:induction false} ValBound(ds: seq<byte>)
    requires AllDigits(ds)
    ensures Val(ds) < Pow(10, |ds|)
  {
    if ds != [] {
      ValBound(ds[..|ds| - 1]);
      PowSplit(|ds|);
    } else {
      TenPow();
    }
  }

  lemma {:induction false} TrimZeros(ds: seq<byte>)
    ensures forall i :: |Trim(ds)| <= i < |ds| ==> ds[i] == 0
    ensures Trim(ds) == ds[..|Trim(ds)|]
  {
    if ds != [] && ds[|ds| - 1] == 0 {
      var c := ds[..|ds| - 1];
      TrimZeros(c);
      assert Trim(ds) == Trim(c);
      assert forall i :: 0 <= i < |c| ==> ds[i] == c[i];
    }
  }

  /** Seven digits cut where only zeros follow. */
  lemma CutVal(m: nat, u: nat)
    requires TEN6 <= m < TEN7 && u <= 7
    requires forall i :: u <= i < 7 ==> Digits(m, 7)[i] == 0
    ensures Val(Digits(m, 7)[..u]) * Pow(10, 7 - u) == m
  {
    var ds := Digits(m, 7);
    PowAt();
    DigitsVal(m, 7);
    assert ds == ds[..u] + ds[u..];
    ValAppend(ds[..u], ds[u..]);
    ValZeros(ds[u..]);
  }

  // ---- normalizing what was scanned ----

  lemma {:induction false} PlacesUp(m: nat, k: nat)
    requires TEN6 <= m * Pow(10, k) < TEN7
    ensures m > 0 && Places(m) + k == 0
    decreases k
  {
    hide Pow;
    if k == 0 {
      TenPow();
    } else {
      PowSplit(k);
      TenTimes(m, Pow(10, k - 1));
      PlacesUp(10 * m, k - 1);
      PowLarge(m, k);
    }
  }

  lemma PowLarge(m: nat, k: nat)
    requires k > 0 && m * Pow(10, k) < TEN7
    ensures m < TEN6
  {
    PowSplit(k);
    if m >= TEN6 {
      MulMono(m, 10, Pow(10, k));
    }
  }

  lemma NormUp(e: byte, m: nat, k: nat)
    requires TEN6 <= m * Pow(10, k) < TEN7
    ensures Norm(Num(0, e, m)) == Num(0, (e - k) % 256, m * Pow(10, k))
  {
    PlacesUp(m, k);
    NormIs(Num(0, e, m));
    if k == 0 { TenPow(); }
  }

  lemma NormDown(e: byte, m: nat, k: nat)
    requires TEN6 <= m < TEN7
    ensures Norm(Num(0, e, m * Pow(10, k))) == Num(0, (e + k) % 256, m)
  {
    var p := Pow(10, k);
    MulMono(p, TEN6, m);
    MulMono(p, m + 1, TEN7);
    assert p * m == m * p && p * TEN6 == TEN6 * p;
    PlacesAt(m * p, k);
    NormIs(Num(0, e, m * p));
    ModUnique(m * p, p, m, 0);
  }

  // ---- scanning ----

  lemma CharsAt(ds: seq<byte>, i: nat)
    requires AllDigits(ds) && i < |ds|
    ensures IsDigit(Chars(ds)[i]) && Chars(ds)[i] == '0' as int + ds[i]
  {
    hide Chars;
    var d := ds[i];
    assert Chars(ds)[i] == ('0' as int + d) % 256;
    assert d < 10;
  }

  /** The digits stand in the text as characters. */
  predicate Spells(text: seq<byte>, i: nat, ds: seq<byte>) {
    i + |ds| <= |text| && forall x :: 0 <= x < |ds| ==> ds[x] < 10 && text[i + x] == '0' as int + ds[x]
  }

  lemma CharsSpell(text: seq<byte>, i: nat, ds: seq<byte>)
    requires AllDigits(ds) && At(text, i, Chars(ds))
    ensures Spells(text, i, ds)
  {
    forall x | 0 <= x < |ds| ensures text[i + x] == '0' as int + ds[x] {
      CharsAt(ds, x);
      assert text[i + x] == text[i..i + |ds|][x];
    }
  }

  lemma ValFront(ds: seq<byte>)
    requires ds != []
    ensures Val(ds) == ds[0] * Pow(10, |ds| - 1) + Val(ds[1..])
  {
    ValAppend(ds[..1], ds[1..]);
    assert ds == ds[..1] + ds[1..] && ds[..1][..0] == [];
  }

  /** Digits folded in from the left. */
  lemma FoldStep(m: nat, ds: seq<byte>)
    requires ds != [] && m * Pow(10, |ds|) + Val(ds) < TWO48
    ensures var m' := 10 * m + ds[0];
            m' < TWO48 && m' * Pow(10, |ds| - 1) + Val(ds[1..]) == m * Pow(10, |ds|) + Val(ds)
  {
    hide Pow, Val;
    ValFront(ds);
    PowSplit(|ds|);
    Horner(m, ds[0], Pow(10, |ds| - 1));
    MulMono(10 * m + ds[0], 1, Pow(10, |ds| - 1));
  }

  lemma SpellsTail(text: seq<byte>, i: nat, ds: seq<byte>)
    requires Spells(text, i, ds) && ds != []
    ensures Spells(text, i + 1, ds[1..]) && IsDigit(Peek(text, i)) && Peek(text, i) - '0' as int == ds[0]
    ensures i < |text|
  {
    assert text[i + 0] == '0' as int + ds[0];
    forall x | 0 <= x < |ds| - 1 ensures text[i + 1 + x] == '0' as int + ds[1..][x] {
      assert text[i + (1 + x)] == '0' as int + ds[1 + x];
    }
  }

  /** One digit scanned, the mantissa still below 2^48; and the end of the digits. */
  lemma ScanStep(text: seq<byte>, i: nat, m: nat)
    requires IsDigit(Peek(text, i)) ==> i < |text| && 10 * m + (Peek(text, i) - '0' as int) < TWO48
    ensures ScanM(text, i, m) ==
            if IsDigit(Peek(text, i)) then ScanM(text, i + 1, 10 * m + (Peek(text, i) - '0' as int)) else (i, m)
  {
  }

  lemma {:induction false} ScanDigits(text: seq<byte>, i: nat, ds: seq<byte>, m: nat)
    requires Spells(text, i, ds) && !IsDigit(Peek(text, i + |ds|))
    requires m * Pow(10, |ds|) + Val(ds) < TWO48
    ensures ScanM(text, i, m) == (i + |ds|, m * Pow(10, |ds|) + Val(ds))
    decreases |ds|
  {
    hide Pow, Val, Spells, IsDigit, Peek, ScanM;
    if ds == [] {
      ValNone();
      ScanStep(text, i, m);
    } else {
      FoldStep(m, ds);
      SpellsTail(text, i, ds);
      ScanStep(text, i, m);
      ScanDigits(text, i + 1, ds[1..], 10 * m + ds[0]);
    }
  }

  lemma Horner(m: nat, d: nat, p: nat)
    ensures (10 * m + d) * p == m * (10 * p) + d * p
  {
  }

  lemma AtSplit(text: seq<byte>, i: nat, a: seq<byte>, b: seq<byte>)
    requires At(text, i, a + b)
    ensures At(text, i, a) && At(text, i + |a|, b)
    ensures b != [] ==> Peek(text, i + |a|) == b[0]
  {
    var s := text[i..i + |a| + |b|];
    assert text[i..i + |a|] == s[..|a|];
    assert text[i + |a|..i + |a| + |b|] == s[|a|..];
    if b != [] { assert s[|a|] == b[0]; }
  }

  const POINT: seq<byte> := ['.' as int]

  /** `a`, or `a.b`, spelled out in the text. */
  predicate Layout(text: seq<byte>, i: nat, a: seq<byte>, b: seq<byte>) {
    && Spells(text, i, a)
    && (b != [] ==> Peek(text, i + |a|) == '.' as int && Spells(text, i + |a| + 1, b))
  }

  function Width(a: seq<byte>, b: seq<byte>): nat { |a| + if b == [] then 0 else 1 + |b| }

  function Written(a: seq<byte>, b: seq<byte>): (r: seq<byte>)
    ensures |r| == Width(a, b)
  {
    Chars(a) + if b == [] then [] else POINT + Chars(b)
  }

  lemma WrittenLayout(text: seq<byte>, i: nat, a: seq<byte>, b: seq<byte>)
    requires AllDigits(a) && AllDigits(b) && At(text, i, Written(a, b))
    ensures Layout(text, i, a, b)
  {
    hide Chars, At, Spells;
    if b == [] {
      assert Written(a, b) == Chars(a);
    } else {
      AtSplit(text, i, Chars(a), POINT + Chars(b));
      AtSplit(text, i + |a|, POINT, Chars(b));
      CharsSpell(text, i + |a| + 1, b);
    }
    CharsSpell(text, i, a);
  }

  lemma ScanLayout(text: seq<byte>, i: nat, a: seq<byte>, b: seq<byte>)
    requires Layout(text, i, a, b) && Val(a + b) < TWO48
    requires var c := Peek(text, i + Width(a, b)); !IsDigit(c) && c != '.' as int
    ensures ParseMantissa(text, i) == (i + Width(a, b), Num(0, (0 - |b|) % 256, Val(a + b)))
  {
    hide Pow, Val, Spells, ScanM, Peek;
    ValAppend(a, b);
    MulMono(Val(a), 1, Pow(10, |b|));
    ValNone();
    if b == [] {
      assert a + b == a;
      ScanDigits(text, i, a, 0);
    } else {
      assert !IsDigit('.' as int);
      ScanDigits(text, i, a, 0);
      ScanDigits(text, i + |a| + 1, b, Val(a));
    }
  }

  lemma ValNone()
    ensures Val([]) == 0 && Pow(10, 0) == 1
  {
  }

  /** The two exponent characters read back when they are digits; otherwise nothing is read. */
  lemma ScanTwo(text: seq<byte>, i: nat, x: byte)
    requires x <= 156 && At(text, i, [('0' as int + x / 10) % 256, '0' as int + x % 10])
    requires !IsDigit(Peek(text, i + 2))
    ensures ScanE(text, i, 0) == if x <= 99 then (i + 2, x) else (i, 0)
  {
    var s := text[i..i + 2];
    assert text[i] == s[0] && text[i + 1] == s[1];
    if x <= 99 {
      var d: byte := x / 10;
      assert ScanE(text, i + 2, 10 * d + x % 10) == (i + 2, x);
      assert ScanE(text, i + 1, d) == (i + 2, x);
    }
  }

  // ---- the three layouts ----

  /** What may follow a number. */
  predicate Ends(text: seq<byte>, i: nat) {
    var c := Peek(text, i);
    !IsDigit(c) && c != '.' as int && c != 'E' as int
  }

  /** A number printed with its fraction trimmed: what was dropped is zero. */
  lemma ScanFraction(text: seq<byte>, i: nat, ds: seq<byte>, k: nat)
    requires AllDigits(ds) && k <= |ds| <= 7 && At(text, i, Chars(ds[..k]) + Fraction(ds[k..]))
    requires var c := Peek(text, i + k + |Fraction(ds[k..])|); !IsDigit(c) && c != '.' as int
    ensures var t := |Trim(ds[k..])|;
            && ParseMantissa(text, i) == (i + k + |Fraction(ds[k..])|, Num(0, (0 - t) % 256, Val(ds[..k + t])))
            && k + t <= |ds| && forall x :: k + t <= x < |ds| ==> ds[x] == 0
  {
    hide Pow, Val, Chars, Trim, At, Layout, Peek, ParseMantissa;
    var fr := Trim(ds[k..]);
    TrimZeros(ds[k..]);
    assert forall x :: k + |fr| <= x < |ds| ==> ds[x] == ds[k..][x - k];
    assert ds[..k] + fr == ds[..k + |fr|];
    ValBound(ds[..k + |fr|]);
    PowUnder(k + |fr|);
    assert Written(ds[..k], fr) == Chars(ds[..k]) + Fraction(ds[k..]);
    WrittenLayout(text, i, ds[..k], fr);
    ScanLayout(text, i, ds[..k], fr);
  }

  lemma ParsePlain(text: seq<byte>, i: nat, j: nat, n: Num)
    requires ParseMantissa(text, i) == (j, n) && Peek(text, j) != 'E' as int
    ensures Parse(text, i) == (j, Norm(n))
  {
    hide ParseMantissa, Norm;
  }

  lemma PowUnder(k: nat)
    requires k <= 7
    ensures Pow(10, k) <= TEN7
  {
    PowAt();
  }

  /** The byte and the number it stands for. */
  lemma LeadSigned(exp: byte)
    ensures var p, q := Lead(exp), SignedByte(exp) + 6;
            && (p <= 8 <==> 0 <= q <= 8) && (0 <= q <= 8 ==> p == q)
            && (p >= 253 <==> -3 <= q < 0) && (-3 <= q < 0 ==> 255 - p == -1 - q)
            && ((p < 128 && p <= 99) || (p >= 128 && 256 - p <= 99) <==> -99 <= q <= 99)
  {
  }

  lemma FixedForm(n: Num, p: nat)
    requires Normal(n) && p == SignedByte(n.exp) + 6 <= 8
    ensures PrintMagnitude(n) == PrintFixed(Digits(n.m, 7), p)
  {
    hide PrintFixed, PrintSmall, PrintScientific, Digits, Lead;
    LeadSigned(n.exp);
  }

  lemma PointRoundTrip(text: seq<byte>, i: nat, n: Num)
    requires Normal(n) && 0 <= SignedByte(n.exp) + 6 < 6
    requires At(text, i, PrintMagnitude(n)) && Ends(text, i + |PrintMagnitude(n)|)
    ensures Parse(text, i) == (i + |PrintMagnitude(n)|, n.(sgn := 0))
  {
    hide Norm, Digits, ParseMantissa, Pow, Chars, Fraction, PrintMagnitude, Parse, Val, At, Peek, Trim;
    var ds, p := Digits(n.m, 7), SignedByte(n.exp) + 6;
    FixedForm(n, p);
    ScanFraction(text, i, ds, p + 1);
    var t := |Trim(ds[p + 1..])|;
    var u := p + 1 + t;
    CutVal(n.m, u);
    NormUp((0 - t) % 256, Val(ds[..u]), 7 - u);
    ParsePlain(text, i, i + |PrintMagnitude(n)|, Num(0, (0 - t) % 256, Val(ds[..u])));
  }

  lemma WholeRoundTrip(text: seq<byte>, i: nat, n: Num)
    requires Normal(n) && 6 <= SignedByte(n.exp) + 6 <= 8
    requires At(text, i, PrintMagnitude(n)) && Ends(text, i + |PrintMagnitude(n)|)
    ensures Parse(text, i) == (i + |PrintMagnitude(n)|, n.(sgn := 0))
  {
    hide Norm, Digits, ParseMantissa, Pow, Chars, PrintMagnitude, Parse, Val, At, Peek;
    var k := SignedByte(n.exp);
    FixedForm(n, k + 6);
    WholeVal(n.m, k);
    var all := Digits(n.m, 7) + Zeros(k);
    assert Written(all, []) == Chars(all);
    WrittenLayout(text, i, all, []);
    assert all + [] == all;
    ScanLayout(text, i, all, []);
    NormDown(0, n.m, k);
    ParsePlain(text, i, i + |PrintMagnitude(n)|, Num(0, 0, Val(all)));
  }

  lemma WholeVal(m: nat, k: nat)
    requires TEN6 <= m < TEN7 && k <= 2
    ensures var all := Digits(m, 7) + Zeros(k); Val(all) == m * Pow(10, k) < TWO48
  {
    hide Digits, Zeros, Val, Pow;
    PowAt();
    DigitsVal(m, 7);
    ValAppend(Digits(m, 7), Zeros(k));
    ValZeros(Zeros(k));
    PowSmall(k);
    MulMono(m, Pow(10, k), 100);
  }

  lemma PowSmall(k: nat)
    requires k <= 2
    ensures Pow(10, k) <= 100
  {
  }

  /** The small-fraction layout: a zero, a point, more zeros, then the trimmed digits. */
  lemma SmallForm(n: Num, z: nat)
    requires Normal(n) && z == -1 - (SignedByte(n.exp) + 6) <= 2
    ensures PrintMagnitude(n) == Written([0], Zeros(z) + Trim(Digits(n.m, 7)))
  {
    hide Digits, Trim, Lead, PrintFixed, PrintScientific, Chars, SignedByte;
    LeadSigned(n.exp);
    DigitsNonzero(n.m);
    CharsZero();
  }

  lemma CharsZero()
    ensures Chars([0]) == ['0' as int]
  {
    var zero: seq<byte> := [0];
    assert Chars(zero) == ['0' as int];
  }

  lemma DigitsNonzero(m: nat)
    requires TEN6 <= m < TEN7
    ensures Trim(Digits(m, 7)) != []
  {
    var ds := Digits(m, 7);
    TrimZeros(ds);
    assert ds[..0] == [];
    ValNone();
    if Trim(ds) == [] {
      CutVal(m, 0);
    }
  }

  lemma SmallVal(m: nat, z: nat)
    requires TEN6 <= m < TEN7 && z <= 2
    ensures var ds := Digits(m, 7);
            var t := Trim(ds);
            && |t| <= 7 && Val([0] + (Zeros(z) + t)) == Val(ds[..|t|]) < TWO48
            && Val(ds[..|t|]) * Pow(10, 7 - |t|) == m && AllDigits(Zeros(z) + t)
  {
    hide Digits, Pow, Val;
    var ds := Digits(m, 7);
    var t := Trim(ds);
    TrimZeros(ds);
    hide Trim;
    var zs: seq<byte> := [0] + Zeros(z);
    ValAppend(zs, t);
    assert [0] + (Zeros(z) + t) == zs + t;
    ValZeros(zs);
    assert 0 * Pow(10, |t|) == 0;
    ValBound(t);
    PowUnder(|t|);
    CutVal(m, |t|);
  }

  lemma SmallRoundTrip(text: seq<byte>, i: nat, n: Num)
    requires Normal(n) && -3 <= SignedByte(n.exp) + 6 < 0
    requires At(text, i, PrintMagnitude(n)) && Ends(text, i + |PrintMagnitude(n)|)
    ensures Parse(text, i) == (i + |PrintMagnitude(n)|, n.(sgn := 0))
  {
    hide Norm, Digits, ParseMantissa, Pow, Chars, PrintMagnitude, Parse, Val, At, Peek, Trim, Layout, Written;
    var z := -1 - (SignedByte(n.exp) + 6);
    SmallForm(n, z);
    SmallVal(n.m, z);
    var t := Trim(Digits(n.m, 7));
    var b := Zeros(z) + t;
    WrittenLayout(text, i, [0], b);
    ScanLayout(text, i, [0], b);
    var m := Val(Digits(n.m, 7)[..|t|]);
    NormUp((0 - |b|) % 256, m, 7 - |t|);
    SmallExponent(n.exp, z, |t|);
    ParsePlain(text, i, i + |PrintMagnitude(n)|, Num(0, (0 - |b|) % 256, m));
  }

  lemma SmallExponent(exp: byte, z: nat, t: nat)
    requires z == -1 - (SignedByte(exp) + 6) <= 2 && t <= 7
    ensures var e0: byte := (0 - (z + t)) % 256; (e0 - (7 - t)) % 256 == exp
  {
  }

  lemma ScientificForm(n: Num)
    requires Normal(n) && 8 < Lead(n.exp) < 253
    ensures PrintMagnitude(n) == PrintScientific(Digits(n.m, 7), Lead(n.exp))
  {
    hide Digits, PrintScientific, PrintFixed, PrintSmall, Lead;
  }

  /** The exponent in the scientific layout. */
  lemma ScientificMarks(text: seq<byte>, i: nat, n: Num, p: byte)
    requires Normal(n) && p == Lead(n.exp) && 8 < p < 253
    requires At(text, i, PrintMagnitude(n)) && Ends(text, i + |PrintMagnitude(n)|)
    ensures var ds := Digits(n.m, 7);
            var j := i + 1 + |Fraction(ds[1..])|;
            var a := if p < 128 then p else 256 - p;
            && j + 4 == i + |PrintMagnitude(n)| && At(text, i, Chars(ds[..1]) + Fraction(ds[1..]))
            && Peek(text, j) == 'E' as int && Peek(text, j + 1) == (if p < 128 then '+' as int else '-' as int)
            && ScanE(text, j + 2, 0) == (if a <= 99 then (j + 4, a) else (j + 2, 0))
  {
    hide Digits, Pow, Chars, Fraction, Lead, PrintMagnitude, ScanE;
    ScientificForm(n);
    var ds := Digits(n.m, 7);
    var a := if p < 128 then p else 256 - p;
    var head := Chars(ds[..1]) + Fraction(ds[1..]);
    var mark: seq<byte> := ['E' as int, if p < 128 then '+' as int else '-' as int];
    var two: seq<byte> := [('0' as int + a / 10) % 256, '0' as int + a % 10];
    assert PrintMagnitude(n) == head + (mark + two);
    AtSplit(text, i, head, mark + two);
    AtSplit(text, i + |head|, mark, two);
    var j := i + |head|;
    assert text[j + 1] == text[j..j + 2][1];
    ScanTwo(text, j + 2, a);
  }

  /** The number before the exponent, and the exponent, in the scientific layout. */
  lemma ScientificParts(text: seq<byte>, i: nat, n: Num, p: byte)
    requires Normal(n) && p == Lead(n.exp) && 8 < p < 253
    requires At(text, i, PrintMagnitude(n)) && Ends(text, i + |PrintMagnitude(n)|)
    ensures var ds := Digits(n.m, 7);
            var j := i + 1 + |Fraction(ds[1..])|;
            var a := if p < 128 then p else 256 - p;
            var t := |Trim(ds[1..])|;
            && j + 4 == i + |PrintMagnitude(n)|
            && Peek(text, j) == 'E' as int && Peek(text, j + 1) == (if p < 128 then '+' as int else '-' as int)
            && ScanE(text, j + 2, 0) == (if a <= 99 then (j + 4, a) else (j + 2, 0))
            && ParseMantissa(text, i) == (j, Num(0, (0 - t) % 256, Val(ds[..1 + t])))
            && 1 + t <= 7 && Val(ds[..1 + t]) * Pow(10, 6 - t) == n.m
  {
    hide Digits, ParseMantissa, Pow, Chars, Fraction, Lead, PrintMagnitude, ScanE, Val, Trim, At;
    ScientificMarks(text, i, n, p);
    ScanFraction(text, i, Digits(n.m, 7), 1);
    CutVal(n.m, 1 + |Trim(Digits(n.m, 7)[1..])|);
  }

  lemma ParseScientific(text: seq<byte>, i: nat, j: nat, n: Num, neg: bool)
    requires ParseMantissa(text, i) == (j, n) && Peek(text, j) == 'E' as int
    requires Peek(text, j + 1) == if neg then '-' as int else '+' as int
    ensures var (k, x) := ScanE(text, j + 2, 0);
            Parse(text, i) == (k, Norm(n.(exp := if neg then (n.exp - x) % 256 else (n.exp + x) % 256)))
  {
    hide ParseMantissa, Norm, ScanE;
  }

  /** The exponent that comes back: read in full when it has two digits, dropped otherwise. */
  lemma ExponentBack(exp: byte, t: nat)
    requires t <= 6 && 8 < Lead(exp) < 253
    ensures var p := Lead(exp);
            var x: byte := if p < 128 then p else 256 - p;
            var got: byte := if x <= 99 then x else 0;
            var e0: byte := (0 - t) % 256;
            var e := if p >= 128 then (e0 - got) % 256 else (e0 + got) % 256;
            && ((e - (6 - t)) % 256 == exp <==> x <= 99)
            && (x <= 99 <==> -99 <= SignedByte(exp) + 6 <= 99)
  {
    var p: int := Lead(exp);
    var x: int := if p < 128 then p else 256 - p;
    var got: int := if x <= 99 then x else 0;
    TwiceWrapped(0 - t, if p >= 128 then 0 - got else got, 6 - t);
    LeadBack(exp, got);
  }

  lemma LeadBack(exp: byte, got: int)
    requires 8 < Lead(exp) < 253
    requires var p := Lead(exp); var x: int := if p < 128 then p else 256 - p; got == if x <= 99 then x else 0
    ensures var p := Lead(exp);
            var x: int := if p < 128 then p else 256 - p;
            && (((if p >= 128 then 0 - got else got) - 6) % 256 == exp <==> x <= 99)
            && (x <= 99 <==> -99 <= SignedByte(exp) + 6 <= 99)
  {
    LeadSigned(exp);
  }

  lemma TwiceWrapped(a: int, b: int, u: int)
    ensures ((a % 256 + b) % 256 - u) % 256 == (a + b - u) % 256
  {
  }

  lemma ScientificRoundTrip(text: seq<byte>, i: nat, n: Num)
    requires Normal(n) && (SignedByte(n.exp) + 6 < -3 || 8 < SignedByte(n.exp) + 6)
    requires At(text, i, PrintMagnitude(n)) && Ends(text, i + |PrintMagnitude(n)|)
    ensures Parse(text, i) == (i + |PrintMagnitude(n)|, n.(sgn := 0)) <==> -99 <= SignedByte(n.exp) + 6 <= 99
  {
    hide Norm, Digits, ParseMantissa, Pow, ScanE, PrintMagnitude, Val, Fraction, Trim, Parse, At, Ends, Peek, Lead;
    LeadSigned(n.exp);
    var p := Lead(n.exp);
    ScientificParts(text, i, n, p);
    var ds := Digits(n.m, 7);
    var j, t := i + 1 + |Fraction(ds[1..])|, |Trim(ds[1..])|;
    var m := Val(ds[..1 + t]);
    ParseScientific(text, i, j, Num(0, (0 - t) % 256, m), p >= 128);
    ExponentBack(n.exp, t);
    var x := ScanE(text, j + 2, 0).1;
    var e0: byte := (0 - t) % 256;
    NormUp(if p >= 128 then (e0 - x) % 256 else (e0 + x) % 256, m, 6 - t);
  }

  /** PARSE_FLOAT undoes PRINT_FAC on magnitudes, in all three layouts, exactly when the leading digit's exponent has
      at most two digits. */
  lemma MagnitudeRoundTrip(text: seq<byte>, i: nat, n: Num)
    requires Normal(n) && At(text, i, PrintMagnitude(n)) && Ends(text, i + |PrintMagnitude(n)|)
    ensures Parse(text, i) == (i + |PrintMagnitude(n)|, n.(sgn := 0)) <==> -99 <= SignedByte(n.exp) + 6 <= 99
  {
    hide Parse, PrintMagnitude;
    var p := SignedByte(n.exp) + 6;
    if 0 <= p < 6 {
      PointRoundTrip(text, i, n);
    } else if 6 <= p <= 8 {
      WholeRoundTrip(text, i, n);
    } else if -3 <= p < 0 {
      SmallRoundTrip(text, i, n);
    } else {
      ScientificRoundTrip(text, i, n);
    }
  }

  /** What follows the digits of a literal: nothing, or `E`, an optional sign and any number of digits. */
  datatype Suffix = Bare | Power(sign: seq<byte>, digits: seq<byte>)

  const MINUS: seq<byte> := ['-' as int]
  const PLUS: seq<byte> := ['+' as int]

  /** The suffix stands in the text at `j`, and the number ends behind it. */
  predicate SuffixAt(text: seq<byte>, j: nat, s: Suffix) {
    match s
    case Bare => Ends(text, j)
    case Power(sign, digits) =>
      && Peek(text, j) == 'E' as int
      && (if sign == [] then Peek(text, j + 1) != '-' as int && Peek(text, j + 1) != '+' as int
          else (sign == MINUS || sign == PLUS) && Peek(text, j + 1) == sign[0])
      && Spells(text, j + 1 + |sign|, digits) && !IsDigit(Peek(text, j + 1 + |sign| + |digits|))
  }

  function SuffixLen(s: Suffix): nat {
    if s.Bare? then 0 else 1 + |s.sign| + |s.digits|
  }

  /** The power of ten it means, of any size. */
  function SuffixValue(s: Suffix): int {
    if s.Bare? then 0 else if s.sign == MINUS then 0 - Val(s.digits) else Val(s.digits)
  }

  lemma ExponentStep(x: nat, d: nat)
    ensures (10 * (x % 256) + d) % 256 == (10 * x + d) % 256
  {
    DivSplit(x, 256);
    DivSplit(10 * x + d, 256);
    var q, r := 10 * x + d - 256 * ((10 * x + d) / 256), x % 256;
    ModUnique(10 * r + d, 256, (10 * x + d) / 256 - 10 * (x / 256), q);
  }

  lemma ScanEStep(text: seq<byte>, i: nat, x: byte)
    requires IsDigit(Peek(text, i)) ==> i < |text|
    ensures ScanE(text, i, x) ==
            if IsDigit(Peek(text, i)) then ScanE(text, i + 1, (10 * x + (Peek(text, i) - '0' as int)) % 256) else (i, x)
  {
  }

  /** Exponent digits wrap modulo 256, however many there are. */
  lemma {:induction false} ScanExponent(text: seq<byte>, i: nat, ds: seq<byte>, x: nat)
    requires Spells(text, i, ds) && !IsDigit(Peek(text, i + |ds|))
    ensures ScanE(text, i, x % 256) == (i + |ds|, (x * Pow(10, |ds|) + Val(ds)) % 256)
    decreases |ds|
  {
    hide Pow, Val, Spells, IsDigit, Peek, ScanE;
    if ds == [] {
      ValNone();
      ScanEStep(text, i, x % 256);
    } else {
      SpellsTail(text, i, ds);
      ScanEStep(text, i, x % 256);
      ExponentStep(x, ds[0]);
      ScanExponent(text, i + 1, ds[1..], 10 * x + ds[0]);
      ValFront(ds);
      PowSplit(|ds|);
      Horner(x, ds[0], Pow(10, |ds| - 1));
    }
  }

  /** The exponent byte after the suffix is the whole-number exponent modulo 256. */
  lemma SuffixExponent(text: seq<byte>, j: nat, s: Suffix, e: int)
    requires SuffixAt(text, j, s)
    ensures ParseExponent(text, j, e % 256) == (j + SuffixLen(s), (e + SuffixValue(s)) % 256)
  {
    hide Val, ScanE, Spells, Pow;
    if s.Power? {
      ScanExponent(text, j + 1 + |s.sign|, s.digits, 0);
      AddWraps(e, Val(s.digits));
    }
  }

  lemma AddWraps(e: int, x: nat)
    ensures (e % 256 + x % 256) % 256 == (e + x) % 256
    ensures (e % 256 - x % 256) % 256 == (e - x) % 256
  {
    var q, r, p, y: int := e / 256, e % 256, x / 256, x % 256;
    assert e == 256 * q + r && x == 256 * p + y;
    var c, d := (r + y) / 256, (r - y) / 256;
    assert r + y == 256 * c + (r + y) % 256 && r - y == 256 * d + (r - y) % 256;
    ModUnique(e + x, 256, q + p + c, (r + y) % 256);
    ModUnique(e - x, 256, q - p + d, (r - y) % 256);
  }

  /** A literal, with or without an exponent, whose digits fit in 48 bits becomes its leading seven digits, exactly when the
      exponent fits, whatever the size of the exponent written. */
  lemma LiteralTruncates(text: seq<byte>, i: nat, a: seq<byte>, b: seq<byte>, s: Suffix)
    requires Layout(text, i, a, b) && SuffixAt(text, i + Width(a, b), s) && 0 < Val(a + b) < TWO48
    ensures var (j, n) := Parse(text, i);
            var e := SuffixValue(s) - |b|;
            && j == i + Width(a, b) + SuffixLen(s) && n.sgn == 0
            && (Truncates(n, Times(Val(a + b) as real, Scale(e))) <==> InRange(Places(Val(a + b)) + e))
  {
    hide Norm, ParseMantissa, ParseExponent, Val, Spells, Scale, Times, Truncates, Places, SuffixValue;
    var k, m := i + Width(a, b), Val(a + b);
    ScanLayout(text, i, a, b);
    SuffixExponent(text, k, s, 0 - |b|);
    var e := SuffixValue(s) - |b|;
    assert Parse(text, i) == (k + SuffixLen(s), Norm(Num(0, e % 256, m)));
    hide Parse;
    NormTruncates(Num(0, e % 256, m), e, m as real);
  }

  lemma ZeroRoundTrip(text: seq<byte>, i: nat)
    requires At(text, i, PrintMagnitude(ZERO)) && Ends(text, i + 1)
    ensures Parse(text, i) == (i + 1, ZERO)
  {
    var zero: seq<byte> := [0];
    assert Chars(zero) == ['0' as int];
    ValZeros(zero);
    assert zero + [] == zero;
    WrittenLayout(text, i, zero, []);
    ScanLayout(text, i, zero, []);
  }

  /** A printed magnitude starts with a digit. */
  lemma StartsWithDigit(n: Num)
    requires Operand(n)
    ensures PrintMagnitude(n) != [] && IsDigit(PrintMagnitude(n)[0])
  {
    hide Digits, Fraction, Trim, Lead;
    if n.m > 0 {
      CharsAt(Digits(n.m, 7), 0);
    }
  }

  /** A number printed by PRINT and read back by INPUT or DATA, sign and all: the same sign, exponent and mantissa,
      exactly when it is zero or the exponent of its leading digit lies in -99..99. */
  lemma RoundTrip(text: seq<byte>, i: nat, n: Num)
    requires Operand(n) && At(text, i, Print(n)) && Ends(text, i + |Print(n)|)
    ensures ParseSigned(text, i) == (i + |Print(n)|, n) <==> n == ZERO || -99 <= SignedByte(n.exp) + 6 <= 99
  {
    hide Parse, PrintMagnitude, Xor;
    XorSigns();
    StartsWithDigit(n);
    var minus: seq<byte> := ['-' as int];
    if n.sgn != 0 {
      AtSplit(text, i, minus, PrintMagnitude(n));
      assert text[i..i + 1][0] == text[i];
      MagnitudeRoundTrip(text, i + 1, n);
      ParsedPositive(text, i + 1);
      NegSign(Parse(text, i + 1).1, n);
    } else {
      assert Print(n) == PrintMagnitude(n);
      assert text[i] == text[i..i + |Print(n)|][0];
      if n == ZERO {
        ZeroPrint();
        ZeroRoundTrip(text, i);
      } else {
        MagnitudeRoundTrip(text, i, n);
      }
    }
  }

  lemma ZeroPrint()
    ensures |PrintMagnitude(ZERO)| == 1
  {
  }

  lemma ParsedPositive(text: seq<byte>, i: nat)
    ensures Parse(text, i).1.sgn == 0
  {
    hide ScanM, ScanE;
    var (i2, n) := ParseMantissa(text, i);
    var (i3, e) := ParseExponent(text, i2, n.exp);
    if n.m > 0 { NormIs(n.(exp := e)); }
  }

  lemma NegSign(r: Num, n: Num)
    requires Normal(n) && n.sgn == 255
    requires r.sgn == 0
    ensures Neg(r) == n <==> r == n.(sgn := 0)
  {
    XorSigns();
  }
}
