/** The decimal floats as values: sign byte, exponent byte and mantissa, and what each routine makes of them. */
module FloatSpec {
  import opened Bits
  import opened Alu
  import opened FloatCells

  datatype Num = Num(sgn: byte, exp: byte, m: nat)

  const ZERO := Num(0, 0, 0)

  predicate Signed8(sgn: byte) { sgn == 0 || sgn == 255 }

  /** Seven mantissa digits. */
  predicate Normal(n: Num) { Signed8(n.sgn) && TEN6 <= n.m < TEN7 }

  function Shrunk(n: Num): (r: Num)
    ensures r.m < TEN7 && (n.m > 0 ==> r.m > 0)
    decreases n.m
  {
    if n.m >= TEN7 then Shrunk(n.(exp := Inc(n.exp), m := n.m / 10)) else n
  }

  function Grown(n: Num): Num
    requires n.m > 0
    decreases TEN6 - n.m
  {
    if n.m < TEN6 then Grown(n.(exp := Dec(n.exp), m := 10 * n.m)) else n
  }

  /** `FNORM`. */
  function Norm(n: Num): Num {
    if n.m == 0 then ZERO else Grown(Shrunk(n))
  }

  function Neg(n: Num): Num {
    if n.m == 0 then n else n.(sgn := Xor(n.sgn, 255))
  }

  /** Equal exponents, magnitudes added or subtracted. */
  function Combine(lo: Num, hi: Num): Num
    requires lo.exp == hi.exp
  {
    if lo.sgn == hi.sgn then Norm(hi.(m := (lo.m + hi.m) % TWO48))
    else if lo.m >= hi.m then Norm(lo.(m := lo.m - hi.m))
    else Norm(hi.(m := hi.m - lo.m))
  }

  /** The smaller exponent's mantissa brought to the larger exponent. */
  function Aligned(lo: Num, hi: Num): Num {
    lo.(exp := hi.exp, m := lo.m / Pow(10, (hi.exp - lo.exp) % 256))
  }

  function AddOrdered(lo: Num, hi: Num): Num {
    if (hi.exp - lo.exp) % 256 >= 8 then hi else Combine(Aligned(lo, hi), hi)
  }

  /** `FADD`: `a` is ARG, `f` is FAC. */
  function Add(a: Num, f: Num): Num {
    if a.m == 0 then f
    else if f.m == 0 then a
    else if SignedByte(f.exp) > SignedByte(a.exp) then AddOrdered(a, f)
    else AddOrdered(f, a)
  }

  function Sub(a: Num, f: Num): Num { Add(a, Neg(f)) }

  function Mul(a: Num, f: Num): Num {
    if f.m == 0 || a.m == 0 then ZERO
    else Norm(Num(Xor(f.sgn, a.sgn), (f.exp + a.exp) % 256, f.m * (a.m % TWO24) % TWO48))
  }

  /** `FDIV`: the dividend is `a`. */
  function Div(a: Num, f: Num): Num
    requires f.m < TWO24
  {
    if f.m == 0 || a.m == 0 then ZERO
    else Norm(Num(Xor(f.sgn, a.sgn), (a.exp - f.exp - 7) % 256, TEN7 * a.m % TWO48 / f.m))
  }

  /** `FAC_TO_INT`, before the sign. */
  function IntMagnitude(n: Num): nat {
    if n.exp < 128 then Pow(10, n.exp) * n.m % TWO48 else n.m / Pow(10, 256 - n.exp)
  }

  function ToInt(n: Num): word {
    var low := IntMagnitude(n) % 0x1_0000;
    if n.m == 0 then 0 else if n.sgn == 0 then low else Negated(low)
  }

  /** `SINT_TO_FAC`. */
  function FromInt(x: word): Num {
    if x < 0x8000 then Norm(Num(0, 0, x)) else Norm(Num(0, 0, Negated(x))).(sgn := 255)
  }

  // ---- text ----

  /** `PEEK`: the text ends in NUL. */
  function Peek(text: seq<byte>, i: nat): byte {
    if i < |text| then text[i] else 0
  }

  predicate IsDigit(c: byte) { '0' as int <= c <= '9' as int }

  /** Decimal digits pushed onto a mantissa. */
  function ScanM(text: seq<byte>, i: nat, m: nat): (r: (nat, nat))
    ensures r.0 >= i && (i <= |text| ==> r.0 <= |text|)
    decreases |text| - i
  {
    var c := Peek(text, i);
    if IsDigit(c) then ScanM(text, i + 1, (10 * m + (c - '0' as int)) % TWO48) else (i, m)
  }

  /** Decimal digits pushed onto the exponent byte. */
  function ScanE(text: seq<byte>, i: nat, x: byte): (r: (nat, byte))
    ensures r.0 >= i && (i <= |text| ==> r.0 <= |text|)
    decreases |text| - i
  {
    var c := Peek(text, i);
    if IsDigit(c) then ScanE(text, i + 1, (10 * x + (c - '0' as int)) % 256) else (i, x)
  }

  /** Integer digits, then a point and fraction digits that lower the exponent. */
  function ParseMantissa(text: seq<byte>, i: nat): (nat, Num) {
    var (i1, m1) := ScanM(text, i, 0);
    if Peek(text, i1) == '.' as int then
      var (i2, m2) := ScanM(text, i1 + 1, m1);
      (i2, Num(0, (0 - (i2 - i1 - 1)) % 256, m2))
    else (i1, Num(0, 0, m1))
  }

  /** An optional exponent. */
  function ParseExponent(text: seq<byte>, i: nat, e: byte): (nat, byte) {
    if Peek(text, i) != 'E' as int then (i, e)
    else if Peek(text, i + 1) == '-' as int then
      var (j, x) := ScanE(text, i + 2, 0);
      (j, (e - x) % 256)
    else
      var (j, x) := ScanE(text, if Peek(text, i + 1) == '+' as int then i + 2 else i + 1, 0);
      (j, (e + x) % 256)
  }

  /** `PARSE_FLOAT`: where it stops and what it leaves in FAC. */
  function Parse(text: seq<byte>, i: nat): (nat, Num) {
    var (i2, n) := ParseMantissa(text, i);
    var (i3, e) := ParseExponent(text, i2, n.exp);
    (i3, Norm(n.(exp := e)))
  }

  /** A literal with an optional minus sign, as INPUT and DATA read it. */
  function ParseSigned(text: seq<byte>, i: nat): (nat, Num) {
    if Peek(text, i) == '-' as int then
      var (j, n) := Parse(text, i + 1);
      (j, Neg(n))
    else Parse(text, i)
  }

  /** The seven digits FM_DIV10 takes out, most significant first. */
  function Digits(m: nat, n: nat): (r: seq<byte>)
    ensures |r| == n && forall i :: 0 <= i < n ==> r[i] < 10
  {
    if n == 0 then [] else Digits(m / 10, n - 1) + [m % 10]
  }

  /** Trailing zeros trimmed. */
  function Trim(ds: seq<byte>): (r: seq<byte>)
    ensures r <= ds
  {
    if ds == [] then [] else if ds[|ds| - 1] == 0 then Trim(ds[..|ds| - 1]) else ds
  }

  function Chars(ds: seq<byte>): (r: seq<byte>)
    ensures |r| == |ds| && forall i :: 0 <= i < |ds| ==> r[i] == ('0' as int + ds[i]) % 256
  {
    if ds == [] then [] else Chars(ds[..|ds| - 1]) + [('0' as int + ds[|ds| - 1]) % 256]
  }

  function Zeros(n: nat): (r: seq<byte>)
    ensures |r| == n && forall i :: 0 <= i < n ==> r[i] == 0
  {
    if n == 0 then [] else Zeros(n - 1) + [0]
  }

  /** A point and the trimmed fraction, or nothing. */
  function Fraction(ds: seq<byte>): seq<byte> {
    if Trim(ds) == [] then [] else ['.' as int] + Chars(Trim(ds))
  }

  function PrintFixed(ds: seq<byte>, p: nat): seq<byte>
    requires |ds| == 7
  {
    if p < 6 then Chars(ds[..p + 1]) + Fraction(ds[p + 1..]) else Chars(ds + Zeros(p - 6))
  }

  function PrintSmall(ds: seq<byte>, zeros: nat): seq<byte> {
    ['0' as int, '.' as int] + Chars(Zeros(zeros) + Trim(ds))
  }

  function PrintScientific(ds: seq<byte>, p: byte): seq<byte>
    requires |ds| == 7
  {
    var a := if p < 128 then p else 256 - p;
    Chars(ds[..1]) + Fraction(ds[1..]) + ['E' as int, if p < 128 then '+' as int else '-' as int]
    + [('0' as int + a / 10) % 256, '0' as int + a % 10]
  }

  /** The exponent of the leading digit, as PRINT_FAC adds it up in a byte. */
  function Lead(exp: byte): byte { (exp + 6) % 256 }

  /** `PRINT_FAC` without the sign: fixed, small-fraction or scientific by the leading digit's exponent. */
  function PrintMagnitude(n: Num): seq<byte> {
    var ds, p := Digits(n.m, 7), Lead(n.exp);
    if n.m == 0 then ['0' as int]
    else if p <= 8 then PrintFixed(ds, p)
    else if p >= 253 then PrintSmall(ds, 255 - p)
    else PrintScientific(ds, p)
  }

  function Print(n: Num): seq<byte> {
    (if n.sgn == 0 then [] else ['-' as int]) + PrintMagnitude(n)
  }
}
