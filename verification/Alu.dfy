/** The arithmetic of the CPU core: add, subtract, shift and compare on bytes with an explicit carry. */
module Alu {
  import opened Bits

  function Bit(b: bool): nat { if b then 1 else 0 }

  predicate Bit7(x: nat) { (x / 128) % 2 == 1 }

  /** A result byte with its carry-out. */
  datatype Out = Out(val: byte, carry: bool)

  function Add8(a: byte, v: byte, c: bool): (r: Out)
    ensures r.val + 256 * Bit(r.carry) == a + v + Bit(c)
  {
    var s := a + v + Bit(c);
    Out(s % 256, s >= 256)
  }

  /** Subtraction adds the complement; the carry is "no borrow". */
  function Sub8(a: byte, v: byte, c: bool): (r: Out)
    ensures r.val - 256 * (1 - Bit(r.carry)) == a - v - (1 - Bit(c))
  {
    Add8(a, 255 - v, c)
  }

  function Asl(v: byte): (r: Out)
    ensures r.val + 256 * Bit(r.carry) == 2 * v && r.val % 2 == 0
  {
    Out(2 * v % 256, v >= 128)
  }

  function Rol(v: byte, c: bool): (r: Out)
    ensures r.val + 256 * Bit(r.carry) == 2 * v + Bit(c)
  {
    Out((2 * v + Bit(c)) % 256, v >= 128)
  }

  function Lsr(v: byte): (r: Out)
    ensures 2 * r.val + Bit(r.carry) == v
  {
    Out(v / 2, v % 2 == 1)
  }

  function Ror(v: byte, c: bool): (r: Out)
    ensures 2 * r.val + Bit(r.carry) == v + 256 * Bit(c)
  {
    Out(v / 2 + 128 * Bit(c), v % 2 == 1)
  }

  function Inc(v: byte): (r: byte)
    ensures r + 256 * Bit(r == 0) == v + 1
  {
    if v == 255 then 0 else v + 1
  }

  function Dec(v: byte): (r: byte)
    ensures r == v - 1 + 256 * Bit(v == 0)
  {
    if v == 0 then 255 else v - 1
  }

  function XorBits(x: nat, y: nat, n: nat): (r: nat)
    ensures r < Pow2(n)
  {
    if n == 0 then 0 else 2 * XorBits(x / 2, y / 2, n - 1) + (if x % 2 == y % 2 then 0 else 1)
  }

  /** `op_eor`. */
  function Xor(x: byte, y: byte): byte {
    assert Pow2(8) == 256;
    XorBits(x, y, 8)
  }

  /** The flags `op_adc`, `op_sbc` and `cmp_reg` leave behind, with the new accumulator. */
  datatype Flags = Flags(a: byte, c: bool, z: bool, v: bool, n: bool)

  /** `calcV`: the result's sign differs from both operands' signs. */
  predicate Overflowed(r: nat, a: nat, m: nat) {
    Bit7(r) != Bit7(a) && Bit7(r) != Bit7(m)
  }

  /** The decimal sum before its high digit is corrected. */
  function DecimalSum(a: byte, v: byte, c: bool): nat {
    var low := a % 16 + v % 16 + Bit(c);
    (if low >= 10 then (low + 6) % 16 + 16 else low) + (a - a % 16) + (v - v % 16)
  }

  function FixSum(al: nat): nat { if al >= 0xa0 then al + 0x60 else al }

  /** `op_adc`, both modes. */
  function Adc(a: byte, v: byte, c: bool, d: bool): Flags {
    var r := a + v + Bit(c);
    if !d then
      Flags(r % 256, r / 256 % 2 == 1, r % 256 == 0, Overflowed(r, a, v), Bit7(r))
    else
      var al := DecimalSum(a, v, c);
      var fixed := FixSum(al);
      Flags(fixed % 256, fixed / 256 % 2 == 1, r % 256 == 0, Overflowed(al, a, v), Bit7(al))
  }

  /** The decimal difference before its high digit is corrected. */
  function DecimalDifference(a: byte, m: byte, c: bool): int {
    var low: int := a % 16 - m % 16 + Bit(c) - 1;
    (a - a % 16) - (m - m % 16) + (if low < 0 then (low - 6) % 16 - 16 else low)
  }

  function FixDifference(res: int): int { if res < 0 then res - 0x60 else res }

  /** `op_sbc`, both modes. */
  function Sbc(a: byte, m: byte, c: bool, d: bool): Flags {
    var v := 255 - m;
    var r := a + v + Bit(c);
    var f := Flags(r % 256, r / 256 % 2 == 1, r % 256 == 0, Overflowed(r, a, v), Bit7(r));
    if !d then f else f.(a := FixDifference(DecimalDifference(a, m, c)) % 256)
  }

  /** `cmp_reg`. */
  function Compare(reg: byte, val: byte): Flags {
    Flags(reg, reg >= val, reg == val, false, Bit7((reg - val) % 256))
  }

  /** Subtracting and comparing agree on the carry. */
  lemma CompareIsSub(reg: byte, val: byte)
    ensures Compare(reg, val).c == Sub8(reg, val, true).carry
    ensures Compare(reg, val).z == (Sub8(reg, val, true).val == 0)
  {
  }

  // ---- little-endian numbers ----

  function Pow(b: nat, n: nat): (r: nat)
    ensures b > 0 ==> r > 0
  {
    if n == 0 then 1 else b * Pow(b, n - 1)
  }

  /** A carry out of position `p`. */
  function Carried(c: bool, p: nat): nat { if c then p else 0 }

  function Num(xs: seq<byte>): nat {
    if xs == [] then 0 else xs[0] + 256 * Num(xs[1..])
  }

  /** The two's-complement reading. */
  function Signed(xs: seq<byte>): int
    requires xs != []
  {
    if |xs| == 1 then (if xs[0] >= 128 then xs[0] - 256 else xs[0]) else xs[0] + 256 * Signed(xs[1..])
  }

  /** The result of a chain of ADC or SBC instructions, least significant byte first. */
  datatype Chained = Chained(bytes: seq<byte>, c: bool, v: bool)

  function AdcChain(xs: seq<byte>, ys: seq<byte>, c: bool, d: bool): (r: Chained)
    requires |xs| == |ys| > 0
    ensures |r.bytes| == |xs|
  {
    var f := Adc(xs[0], ys[0], c, d);
    if |xs| == 1 then Chained([f.a], f.c, f.v)
    else
      var r := AdcChain(xs[1..], ys[1..], f.c, d);
      Chained([f.a] + r.bytes, r.c, r.v)
  }

  function SbcChain(xs: seq<byte>, ys: seq<byte>, c: bool, d: bool): (r: Chained)
    requires |xs| == |ys| > 0
    ensures |r.bytes| == |xs|
  {
    var f := Sbc(xs[0], ys[0], c, d);
    if |xs| == 1 then Chained([f.a], f.c, f.v)
    else
      var r := SbcChain(xs[1..], ys[1..], f.c, d);
      Chained([f.a] + r.bytes, r.c, r.v)
  }

  lemma PowStep(b: nat, n: nat)
    requires n > 0
    ensures Pow(b, n) == b * Pow(b, n - 1)
  {
  }

  /** The signed reading of one byte. */
  function SignedByte(b: byte): int { if b >= 128 then b - 256 else b }

  lemma SignBit(x: nat)
    requires x < 512
    ensures Bit7(x) <==> x % 256 >= 128
  {
  }

  /** One byte of a binary addition, unsigned and signed. */
  lemma AdcByte(a: byte, v: byte, c: bool)
    ensures var f, s := Adc(a, v, c, false), SignedByte(a) + SignedByte(v) + Bit(c);
            && f.a + 256 * Bit(f.c) == a + v + Bit(c)
            && (f.v <==> SignedByte(f.a) != s)
            && (SignedByte(f.a) == s || SignedByte(f.a) + 256 == s || SignedByte(f.a) - 256 == s)
  {
    hide Bit7;
    SignBit(a);
    SignBit(v);
    SignBit(a + v + Bit(c));
  }

  lemma SbcByte(a: byte, v: byte, c: bool)
    ensures var f := Sbc(a, v, c, false);
            && f.a - 256 * (1 - Bit(f.c)) == a - v - (1 - Bit(c))
            && (f.v <==> SignedByte(f.a) != SignedByte(a) - SignedByte(v) - (1 - Bit(c)))
  {
    hide Bit7, Overflowed;
    AdcByte(a, 255 - v, c);
    assert Sbc(a, v, c, false) == Adc(a, 255 - v, c, false);
  }

  lemma {:induction false} AdcChainUnsigned(xs: seq<byte>, ys: seq<byte>, c: bool)
    requires |xs| == |ys| > 0
    ensures var r := AdcChain(xs, ys, c, false);
            Num(r.bytes) + Carried(r.c, Pow(256, |xs|)) == Num(xs) + Num(ys) + Bit(c)
  {
    var f := Adc(xs[0], ys[0], c, false);
    AdcByte(xs[0], ys[0], c);
    PowStep(256, |xs|);
    var r := AdcChain(xs, ys, c, false);
    if |xs| > 1 {
      AdcChainUnsigned(xs[1..], ys[1..], f.c);
      assert r.bytes[1..] == AdcChain(xs[1..], ys[1..], f.c, false).bytes;
    } else {
      assert xs[1..] == [] && ys[1..] == [] && r.bytes[1..] == [];
    }
  }

  lemma {:induction false} AdcChainSigned(xs: seq<byte>, ys: seq<byte>, c: bool)
    requires |xs| == |ys| > 0
    ensures var r := AdcChain(xs, ys, c, false);
            var e := Signed(xs) + Signed(ys) + Bit(c) - Signed(r.bytes);
            && (r.v <==> e != 0)
            && (e == 0 || e == Pow(256, |xs|) || e + Pow(256, |xs|) == 0)
  {
    var f := Adc(xs[0], ys[0], c, false);
    AdcByte(xs[0], ys[0], c);
    PowStep(256, |xs|);
    var r := AdcChain(xs, ys, c, false);
    if |xs| > 1 {
      AdcChainSigned(xs[1..], ys[1..], f.c);
      assert r.bytes[1..] == AdcChain(xs[1..], ys[1..], f.c, false).bytes;
    } else {
      assert xs == [xs[0]] && ys == [ys[0]];
    }
  }

  /** Binary ADC over any number of bytes: the sum modulo 256^n and its carry-out; the V flag exactly when the
      signed sum does not fit, and then the result is off by 256^n. */
  lemma AdcChainSum(xs: seq<byte>, ys: seq<byte>, c: bool)
    requires |xs| == |ys| > 0
    ensures var r := AdcChain(xs, ys, c, false);
            var e := Signed(xs) + Signed(ys) + Bit(c) - Signed(r.bytes);
            && Num(r.bytes) + Carried(r.c, Pow(256, |xs|)) == Num(xs) + Num(ys) + Bit(c)
            && (r.v <==> e != 0)
            && (e == 0 || e == Pow(256, |xs|) || e + Pow(256, |xs|) == 0)
  {
    AdcChainUnsigned(xs, ys, c);
    AdcChainSigned(xs, ys, c);
  }

  lemma {:induction false} SbcChainUnsigned(xs: seq<byte>, ys: seq<byte>, c: bool)
    requires |xs| == |ys| > 0
    ensures var r := SbcChain(xs, ys, c, false);
            Num(r.bytes) - Carried(!r.c, Pow(256, |xs|)) == Num(xs) - Num(ys) - (1 - Bit(c))
  {
    var f := Sbc(xs[0], ys[0], c, false);
    SbcByte(xs[0], ys[0], c);
    PowStep(256, |xs|);
    var r := SbcChain(xs, ys, c, false);
    if |xs| > 1 {
      SbcChainUnsigned(xs[1..], ys[1..], f.c);
      assert r.bytes[1..] == SbcChain(xs[1..], ys[1..], f.c, false).bytes;
    } else {
      assert xs[1..] == [] && ys[1..] == [] && r.bytes[1..] == [];
    }
  }

  lemma {:induction false} SbcChainSigned(xs: seq<byte>, ys: seq<byte>, c: bool)
    requires |xs| == |ys| > 0
    ensures var r := SbcChain(xs, ys, c, false);
            r.v <==> Signed(r.bytes) != Signed(xs) - Signed(ys) - (1 - Bit(c))
  {
    var f := Sbc(xs[0], ys[0], c, false);
    SbcByte(xs[0], ys[0], c);
    var r := SbcChain(xs, ys, c, false);
    if |xs| > 1 {
      SbcChainSigned(xs[1..], ys[1..], f.c);
      assert r.bytes[1..] == SbcChain(xs[1..], ys[1..], f.c, false).bytes;
    } else {
      assert xs == [xs[0]] && ys == [ys[0]];
    }
  }

  /** Binary SBC: the difference modulo 256^n; carry means no borrow; the V flag exactly when it does not fit. */
  lemma SbcChainDifference(xs: seq<byte>, ys: seq<byte>, c: bool)
    requires |xs| == |ys| > 0
    ensures var r := SbcChain(xs, ys, c, false);
            && Num(r.bytes) - Carried(!r.c, Pow(256, |xs|)) == Num(xs) - Num(ys) - (1 - Bit(c))
            && (r.v <==> Signed(r.bytes) != Signed(xs) - Signed(ys) - (1 - Bit(c)))
  {
    SbcChainUnsigned(xs, ys, c);
    SbcChainSigned(xs, ys, c);
  }

  // ---- binary-coded decimal ----

  predicate Bcd(b: byte) { b / 16 <= 9 && b % 16 <= 9 }

  predicate AllBcd(xs: seq<byte>) { forall i :: 0 <= i < |xs| ==> Bcd(xs[i]) }

  function DecByte(b: byte): nat { 10 * (b / 16) + b % 16 }

  function DecNum(xs: seq<byte>): nat {
    if xs == [] then 0 else DecByte(xs[0]) + 100 * DecNum(xs[1..])
  }

  /** Splitting a byte into its two digits. */
  lemma Nibbles(b: byte)
    ensures b == 16 * (b / 16) + b % 16 && b - b % 16 == 16 * (b / 16) && b / 16 < 16
  {
  }

  lemma DecAt(hi: nat, lo: nat)
    requires hi <= 9 && lo <= 9
    ensures 16 * hi + lo < 256 && Bcd(16 * hi + lo) && DecByte(16 * hi + lo) == 10 * hi + lo
  {
  }

  /** The decimal adjustment, on digits: `low` and `hi` are the two digit sums. */
  lemma SumDigits(a: byte, v: byte, c: bool)
    requires Bcd(a) && Bcd(v)
    ensures var low := a % 16 + v % 16 + Bit(c);
            var k := Bit(low >= 10);
            DecimalSum(a, v, c) == 16 * (a / 16 + v / 16 + k) + (low - 10 * k)
  {
    Nibbles(a);
    Nibbles(v);
  }

  lemma FixedSum(hi: nat, lo: nat)
    requires hi <= 19 && lo <= 9
    ensures var fixed := FixSum(16 * hi + lo);
            fixed / 256 % 2 == Bit(hi >= 10) && fixed % 256 == 16 * (if hi >= 10 then hi - 10 else hi) + lo
  {
  }

  lemma AdcDecimalByte(a: byte, v: byte, c: bool)
    requires Bcd(a) && Bcd(v)
    ensures var f := Adc(a, v, c, true);
            Bcd(f.a) && DecByte(f.a) + 100 * Bit(f.c) == DecByte(a) + DecByte(v) + Bit(c)
  {
    hide DecimalSum, FixSum, Overflowed, Bit7;
    SumDigits(a, v, c);
    var low := a % 16 + v % 16 + Bit(c);
    var k := Bit(low >= 10);
    var hi := a / 16 + v / 16 + k;
    FixedSum(hi, low - 10 * k);
    DecAt(if hi >= 10 then hi - 10 else hi, low - 10 * k);
  }

  lemma DifferenceDigits(a: byte, v: byte, c: bool)
    requires Bcd(a) && Bcd(v)
    ensures var low: int := a % 16 - v % 16 + Bit(c) - 1;
            var k := Bit(low < 0);
            var hi: int := a / 16 - v / 16 - k;
            && DecimalDifference(a, v, c) == 16 * hi + (low + 10 * k)
            && (hi >= 0 <==> (a + (255 - v) + Bit(c)) / 256 % 2 == 1)
  {
    Nibbles(a);
    Nibbles(v);
  }

  lemma FixedDifference(hi: int, lo: nat)
    requires -10 <= hi <= 9 && lo <= 9
    ensures FixDifference(16 * hi + lo) % 256 == 16 * (if hi < 0 then hi + 10 else hi) + lo
  {
  }

  lemma SbcDecimalByte(a: byte, v: byte, c: bool)
    requires Bcd(a) && Bcd(v)
    ensures var f := Sbc(a, v, c, true);
            Bcd(f.a) && DecByte(f.a) - 100 * (1 - Bit(f.c)) == DecByte(a) - DecByte(v) - (1 - Bit(c))
  {
    hide DecimalDifference, FixDifference, Overflowed, Bit7;
    DifferenceDigits(a, v, c);
    var low: int := a % 16 - v % 16 + Bit(c) - 1;
    var k := Bit(low < 0);
    var hi: int := a / 16 - v / 16 - k;
    Nibbles(a);
    Nibbles(v);
    FixedDifference(hi, low + 10 * k);
    DecAt(if hi < 0 then hi + 10 else hi, low + 10 * k);
  }

  /** Decimal ADC on BCD operands: BCD digits out, the decimal sum modulo 100^n, and the decimal carry. */
  lemma {:induction false} AdcChainDecimal(xs: seq<byte>, ys: seq<byte>, c: bool)
    requires |xs| == |ys| > 0 && AllBcd(xs) && AllBcd(ys)
    ensures var r := AdcChain(xs, ys, c, true);
            && AllBcd(r.bytes)
            && DecNum(r.bytes) + Carried(r.c, Pow(100, |xs|)) == DecNum(xs) + DecNum(ys) + Bit(c)
  {
    hide Bcd, DecByte, Adc;
    var f := Adc(xs[0], ys[0], c, true);
    AdcDecimalByte(xs[0], ys[0], c);
    PowStep(100, |xs|);
    var r := AdcChain(xs, ys, c, true);
    if |xs| > 1 {
      AdcChainDecimal(xs[1..], ys[1..], f.c);
      assert r.bytes[1..] == AdcChain(xs[1..], ys[1..], f.c, true).bytes;
      assert r.bytes == [f.a] + r.bytes[1..];
    } else {
      assert xs[1..] == [] && ys[1..] == [] && r.bytes[1..] == [];
    }
  }

  lemma {:induction false} SbcChainDecimal(xs: seq<byte>, ys: seq<byte>, c: bool)
    requires |xs| == |ys| > 0 && AllBcd(xs) && AllBcd(ys)
    ensures var r := SbcChain(xs, ys, c, true);
            && AllBcd(r.bytes)
            && DecNum(r.bytes) - Carried(!r.c, Pow(100, |xs|)) == DecNum(xs) - DecNum(ys) - (1 - Bit(c))
  {
    hide Bcd, DecByte, Sbc;
    var f := Sbc(xs[0], ys[0], c, true);
    SbcDecimalByte(xs[0], ys[0], c);
    PowStep(100, |xs|);
    var r := SbcChain(xs, ys, c, true);
    if |xs| > 1 {
      SbcChainDecimal(xs[1..], ys[1..], f.c);
      assert r.bytes[1..] == SbcChain(xs[1..], ys[1..], f.c, true).bytes;
      assert r.bytes == [f.a] + r.bytes[1..];
    } else {
      assert xs[1..] == [] && ys[1..] == [] && r.bytes[1..] == [];
    }
  }
}
