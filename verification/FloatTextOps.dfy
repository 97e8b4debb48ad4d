/** PARSE_FLOAT and PRINT_FAC as they run. */
module FloatTextOps {
  import opened Bits
  import opened Alu
  import opened FloatCells
  import opened FloatSpec
  import opened FloatOps

  /** The integer digits. */
  method PushDigits(zp: array<byte>, text: seq<byte>, i: nat) returns (j: nat)
    requires zp.Length == 256
    modifies zp
    ensures (j, Six(zp, FM)) == ScanM(text, i, old(Six(zp, FM)))
    ensures forall k :: 0 <= k < 256 && !(FM <= k < FM + 6) && !(MTMP <= k < MTMP + 6) ==> zp[k] == old(zp[k])
  {
    hide Pack;
    j := i;
    var c := Peek(text, j);
    while IsDigit(c)
      invariant c == Peek(text, j) && ScanM(text, j, Six(zp, FM)) == old(ScanM(text, i, Six(zp, FM)))
      invariant forall k :: 0 <= k < 256 && !(FM <= k < FM + 6) && !(MTMP <= k < MTMP + 6) ==> zp[k] == old(zp[k])
      decreases |text| - j
    {
      PushDigit(zp, c - '0' as int);
      j := j + 1;
      c := Peek(text, j);
    }
  }

  /** The fraction digits, each lowering the exponent. */
  method PushFraction(zp: array<byte>, text: seq<byte>, i: nat) returns (j: nat)
    requires zp.Length == 256 && zp[FEXP] == 0
    modifies zp
    ensures (j, Six(zp, FM)) == ScanM(text, i, old(Six(zp, FM))) && zp[FEXP] == (0 - (j - i)) % 256
    ensures forall k :: 0 <= k < 256 && !(FEXP <= k < FM + 6) && !(MTMP <= k < MTMP + 6) ==> zp[k] == old(zp[k])
  {
    hide Pack;
    j := i;
    var c := Peek(text, j);
    while IsDigit(c)
      invariant j >= i && c == Peek(text, j) && zp[FEXP] == (0 - (j - i)) % 256
      invariant ScanM(text, j, Six(zp, FM)) == old(ScanM(text, i, Six(zp, FM)))
      invariant forall k :: 0 <= k < 256 && !(FEXP <= k < FM + 6) && !(MTMP <= k < MTMP + 6) ==> zp[k] == old(zp[k])
      decreases |text| - j
    {
      PushDigit(zp, c - '0' as int);
      ghost var m := Six(zp, FM);
      zp[FEXP] := Dec(zp[FEXP]);
      assert Six(zp, FM) == m;
      j := j + 1;
      c := Peek(text, j);
    }
  }

  /** The mantissa of a literal. */
  method ParseDigits(zp: array<byte>, text: seq<byte>, i: nat) returns (j: nat)
    requires zp.Length == 256
    modifies zp
    ensures (j, Fac(zp)) == ParseMantissa(text, i)
    ensures forall k :: 0 <= k < 256 && !(FSGN <= k < FM + 6) && !(MTMP <= k < MTMP + 6) ==> zp[k] == old(zp[k])
  {
    hide Pack, ScanM;
    ZeroFac(zp);
    j := PushDigits(zp, text, i);
    if Peek(text, j) == '.' as int {
      j := PushFraction(zp, text, j + 1);
    }
  }

  /** `asl / sta / asl / asl / adc / adc`: ten times and a digit, in a byte. */
  lemma TenFold(x: byte, d: byte)
    ensures var twice := Asl(x).val;
            var ten := Add8(Asl(Asl(twice).val).val, twice, false).val;
            Add8(d, ten, false).val == (10 * x + d) % 256
  {
    hide Asl, Add8;
    var a := Asl(x);
    var b := Asl(a.val);
    var c := Asl(b.val);
    var t := Add8(c.val, a.val, false);
    var u := Add8(d, t.val, false);
    ModUnique(10 * x + d, 256, 5 * Bit(a.carry) + 2 * Bit(b.carry) + Bit(c.carry) + Bit(t.carry) + Bit(u.carry), u.val);
  }

  /** The exponent digits. */
  method ExponentDigits(zp: array<byte>, text: seq<byte>, i: nat) returns (j: nat)
    requires zp.Length == 256
    modifies zp
    ensures (j, zp[DCNT]) == ScanE(text, i, 0)
    ensures forall k :: 0 <= k < 256 && k != DCNT && k != FTMP ==> zp[k] == old(zp[k])
  {
    hide Asl, Add8;
    j := i;
    zp[DCNT] := 0;
    var c := Peek(text, j);
    while IsDigit(c)
      invariant c == Peek(text, j) && ScanE(text, j, zp[DCNT]) == ScanE(text, i, 0)
      invariant forall k :: 0 <= k < 256 && k != DCNT && k != FTMP ==> zp[k] == old(zp[k])
      decreases |text| - j
    {
      TenFold(zp[DCNT], c - '0' as int);
      zp[FTMP] := Asl(zp[DCNT]).val;
      zp[DCNT] := Add8(Asl(Asl(zp[FTMP]).val).val, zp[FTMP], false).val;
      zp[DCNT] := Add8(c - '0' as int, zp[DCNT], false).val;
      j := j + 1;
      c := Peek(text, j);
    }
  }

  /** The exponent part of a literal. */
  method ApplyExponent(zp: array<byte>, text: seq<byte>, i: nat) returns (j: nat)
    requires zp.Length == 256
    modifies zp
    ensures (j, zp[FEXP]) == ParseExponent(text, i, old(zp[FEXP]))
    ensures forall k :: 0 <= k < 256 && k != FEXP && k != DCNT && k != FTMP ==> zp[k] == old(zp[k])
  {
    hide ScanE;
    j := i;
    if Peek(text, j) == 'E' as int {
      j := j + 1;
      var negative := false;
      if Peek(text, j) == '-' as int {
        negative := true;
        j := j + 1;
      } else if Peek(text, j) == '+' as int {
        j := j + 1;
      }
      j := ExponentDigits(zp, text, j);
      if negative {
        zp[FEXP] := Sub8(zp[FEXP], zp[DCNT], true).val;
      } else {
        zp[FEXP] := Add8(zp[FEXP], zp[DCNT], false).val;
      }
    }
  }

  /** `PARSE_FLOAT`. */
  method ParseFloat(zp: array<byte>, text: seq<byte>, i: nat) returns (j: nat)
    requires zp.Length == 256
    modifies zp
    ensures (j, Fac(zp)) == Parse(text, i)
    ensures forall k :: 0 <= k < 256 && !(FSGN <= k <= FTMP) ==> zp[k] == old(zp[k])
  {
    hide Pack, Norm, ParseMantissa, ParseExponent;
    j := ParseDigits(zp, text, i);
    ghost var n := Fac(zp);
    j := ApplyExponent(zp, text, j);
    assert Fac(zp) == n.(exp := zp[FEXP]);
    Normalize(zp);
  }

  /** A literal with its optional sign, as in INPUT and DATA. */
  method ParseNumber(zp: array<byte>, text: seq<byte>, i: nat) returns (j: nat)
    requires zp.Length == 256
    modifies zp
    ensures (j, Fac(zp)) == ParseSigned(text, i)
    ensures forall k :: 0 <= k < 256 && !(FSGN <= k <= FTMP) ==> zp[k] == old(zp[k])
  {
    hide Parse, Neg;
    if Peek(text, i) == '-' as int {
      j := ParseFloat(zp, text, i + 1);
      Negate(zp);
    } else {
      j := ParseFloat(zp, text, i);
    }
  }

  // ---- printing ----

  /** The seven digit cells. */
  function DigitCells(zp: array<byte>): (r: seq<byte>)
    requires zp.Length == 256
    reads zp
    ensures |r| == 7
  {
    zp[MTMP..MTMP + 7]
  }

  /** FM_DIV10 seven times, the last digit first. */
  method ExtractDigits(zp: array<byte>)
    requires zp.Length == 256
    modifies zp
    ensures DigitCells(zp) == Digits(old(Six(zp, FM)), 7) && zp[FEXP] == old(zp[FEXP]) && zp[FSGN] == old(zp[FSGN])
  {
    hide Pack;
    var y: nat := 7;
    ghost var all := Digits(Six(zp, FM), 7);
    while y > 0
      invariant y <= 7 && Digits(Six(zp, FM), y) + zp[MTMP + y..MTMP + 7] == all
      invariant zp[FEXP] == old(zp[FEXP]) && zp[FSGN] == old(zp[FSGN])
    {
      ghost var m, tail := Six(zp, FM), zp[MTMP + y..MTMP + 7];
      var d := Div10(zp);
      ghost var q := Six(zp, FM);
      y := y - 1;
      zp[MTMP + y] := d;
      assert Six(zp, FM) == q;
      assert zp[MTMP + y..MTMP + 7] == [d] + tail;
      assert Digits(m, y + 1) == Digits(q, y) + [d];
      assert Digits(q, y) + ([d] + tail) == Digits(q, y) + [d] + tail;
    }
  }

  /** The search for the last digit worth printing, from `lo` up: one past it, or `lo`. */
  method LastNonzero(ds: seq<byte>, lo: nat) returns (end: nat)
    requires lo <= |ds| == 7
    ensures lo <= end <= 7 && ds[lo..end] == Trim(ds[lo..])
  {
    end := 7;
    assert ds[lo..7] == ds[lo..];
    while end > lo && ds[end - 1] == 0
      invariant lo <= end <= 7 && Trim(ds[lo..end]) == Trim(ds[lo..])
    {
      assert ds[lo..end][..end - lo - 1] == ds[lo..end - 1];
      end := end - 1;
    }
  }

  /** Digits to characters, in order. */
  method Emit(ds: seq<byte>, from: nat, to: nat) returns (out: seq<byte>)
    requires from <= to <= |ds|
    ensures out == Chars(ds[from..to])
  {
    out := [];
    var x := from;
    while x < to
      invariant from <= x <= to && out == Chars(ds[from..x])
    {
      out := out + [Add8('0' as int, ds[x], false).val];
      assert ds[from..x + 1][..x - from] == ds[from..x];
      x := x + 1;
    }
  }

  /** The trimmed fraction behind its point. */
  method EmitFraction(ds: seq<byte>, lo: nat) returns (out: seq<byte>)
    requires lo <= |ds| == 7
    ensures out == Fraction(ds[lo..])
  {
    var end := LastNonzero(ds, lo);
    if end == lo { return []; }
    var tail := Emit(ds, lo, end);
    out := ['.' as int] + tail;
  }

  /** The fixed layout: integer digits with zeros where the mantissa has run out, then the fraction. */
  method EmitFixed(ds: seq<byte>, p: byte) returns (out: seq<byte>)
    requires |ds| == 7 && p <= 8
    ensures out == PrintFixed(ds, p)
  {
    hide Fraction;
    out := [];
    var n: nat := p + 1;
    var x: nat := 0;
    ghost var all := ds + Zeros(2);
    while x < n
      invariant x <= n && out == Chars(all[..x])
    {
      assert all[..x + 1][..x] == all[..x];
      if x < 7 {
        out := out + [Add8('0' as int, ds[x], false).val];
      } else {
        out := out + ['0' as int];
      }
      x := x + 1;
    }
    if n < 7 {
      assert all[..n] == ds[..n];
      var tail := EmitFraction(ds, n);
      out := out + tail;
    } else {
      assert all[..n] == ds + Zeros(p - 6);
    }
  }

  lemma NoZeros()
    ensures Chars(Zeros(0)) == []
  {
  }

  lemma OneZero(k: nat)
    ensures Chars(Zeros(k + 1)) == Chars(Zeros(k)) + ['0' as int]
  {
    hide Chars;
    CharsSnoc(Zeros(k), 0);
  }

  lemma CharsSnoc(ds: seq<byte>, d: byte)
    ensures Chars(ds + [d]) == Chars(ds) + [('0' as int + d) % 256]
  {
    assert (ds + [d])[..|ds|] == ds;
  }

  /** The small-fraction layout. */
  method EmitSmall(ds: seq<byte>, zeros: nat) returns (out: seq<byte>)
    requires |ds| == 7
    ensures out == PrintSmall(ds, zeros)
  {
    hide Chars, Zeros, Trim;
    out := ['0' as int, '.' as int];
    var k := 0;
    NoZeros();
    while k < zeros
      invariant k <= zeros && out == ['0' as int, '.' as int] + Chars(Zeros(k))
    {
      OneZero(k);
      out := out + ['0' as int];
      k := k + 1;
    }
    var end := LastNonzero(ds, 0);
    var tail := Emit(ds, 0, end);
    assert ds[0..] == ds;
    CharsJoin(Zeros(zeros), Trim(ds));
    out := out + tail;
  }

  lemma CharsJoin(a: seq<byte>, b: seq<byte>)
    ensures Chars(a + b) == Chars(a) + Chars(b)
  {
    assert forall i :: 0 <= i < |a + b| ==> Chars(a + b)[i] == (Chars(a) + Chars(b))[i];
  }

  /** Two exponent characters by counting tens. */
  method EmitTwo(x: byte) returns (out: seq<byte>)
    requires x <= 156
    ensures out == [('0' as int + x / 10) % 256, '0' as int + x % 10]
  {
    var a: byte, tens: byte := x, 0;
    while a >= 10
      invariant a + 10 * (0 + tens) == x && tens <= 15
    {
      a, tens := Sub8(a, 10, true).val, Inc(tens);
    }
    out := [Add8('0' as int, tens, false).val, Add8('0' as int, a, false).val];
  }

  /** The scientific layout. */
  method EmitScientific(ds: seq<byte>, p: byte) returns (out: seq<byte>)
    requires |ds| == 7 && 8 < p < 253
    ensures out == PrintScientific(ds, p)
  {
    hide Fraction, Chars;
    var head := Emit(ds, 0, 1);
    var tail := EmitFraction(ds, 1);
    var x := if p < 128 then p else Sub8(0, p, true).val;
    var two := EmitTwo(x);
    out := head + tail + ['E' as int, if p < 128 then '+' as int else '-' as int] + two;
  }

  /** `PRINT_FAC`: what is printed; the mantissa is used up. */
  method PrintFac(zp: array<byte>) returns (out: seq<byte>)
    requires zp.Length == 256
    modifies zp
    ensures out == Print(old(Fac(zp)))
  {
    hide Digits, PrintFixed, PrintSmall, PrintScientific, Pack;
    out := [];
    if zp[FSGN] != 0 { out := ['-' as int]; }
    var z := IsZero6(zp, FM);
    if z {
      return out + ['0' as int];
    }
    ExtractDigits(zp);
    zp[FTMP] := Add8(zp[FEXP], 6, false).val;
    var p := zp[FTMP];
    assert p == Lead(old(zp[FEXP]));
    var ds := zp[MTMP..MTMP + 7];
    assert ds == Digits(old(Six(zp, FM)), 7);
    var body;
    if p < 128 && p < 9 {
      body := EmitFixed(ds, p);
    } else if p >= 128 && Add8(p, 3, false).val < 128 {
      body := EmitSmall(ds, 255 - p);
    } else {
      body := EmitScientific(ds, p);
    }
    out := out + body;
  }
}
