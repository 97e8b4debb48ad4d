/** The CPU's registers and flags as the operations update them. */
module CpuImpl {
  import opened Bits
  import opened Alu

  /** The digit sums of decimal ADC, low digit adjusted. */
  method DecimalAdd(a: byte, m: byte, c: bool) returns (al: nat)
    ensures al == DecimalSum(a, m, c)
  {
    al := a % 16 + m % 16 + Bit(c);
    if al >= 10 { al := (al + 6) % 16 + 16; }
    al := al + (a - a % 16) + (m - m % 16);
  }

  method DecimalSubtract(a: byte, m: byte, c: bool) returns (r: int)
    ensures r == DecimalDifference(a, m, c)
  {
    var al: int := a % 16 - m % 16 + Bit(c) - 1;
    if al < 0 { al := (al - 6) % 16 - 16; }
    r := (a - a % 16) - (m - m % 16) + al;
  }

  class Cpu {
    var a: byte
    var c: bool
    var z: bool
    var v: bool
    var n: bool
    var d: bool

    function State(): Flags
      reads this
    {
      Flags(a, c, z, v, n)
    }

    constructor ()
      ensures State() == Flags(0, false, false, false, false) && !d
    {
      a, c, z, v, n, d := 0, false, false, false, false, false;
    }

    /** `op_adc`. */
    method Adc(m: byte)
      modifies this
      ensures State() == Alu.Adc(old(a), m, old(c), d) && d == old(d)
    {
      hide Overflowed, Bit7, DecimalSum;
      var r := a + m + Bit(c);
      z := r % 256 == 0;
      if !d {
        v := Overflowed(r, a, m);
        c := r / 256 % 2 == 1;
        n := Bit7(r);
      } else {
        var al := DecimalAdd(a, m, c);
        n := Bit7(al);
        v := Overflowed(al, a, m);
        if al >= 0xa0 { al := al + 0x60; }
        c := al / 256 % 2 == 1;
        r := al;
      }
      a := r % 256;
    }

    /** `op_sbc`. */
    method Sbc(m: byte)
      modifies this
      ensures State() == Alu.Sbc(old(a), m, old(c), d) && d == old(d)
    {
      hide Overflowed, Bit7, DecimalDifference;
      var carry := c;
      var r: int := a + (255 - m) + Bit(carry);
      c := r / 256 % 2 == 1;
      z := r % 256 == 0;
      n := Bit7(r);
      v := Overflowed(r, a, 255 - m);
      if d {
        r := DecimalSubtract(a, m, carry);
        if r < 0 { r := r - 0x60; }
      }
      a := r % 256;
    }

    /** `cmp_reg` on the accumulator; the V flag is not touched. */
    method Cmp(m: byte)
      modifies this`c, this`z, this`n
      ensures c == Compare(a, m).c && z == Compare(a, m).z && n == Compare(a, m).n
    {
      c := a >= m;
      z := a == m;
      n := Bit7((a - m) % 256);
    }

    /** `op_asl`, `op_rol`: the value written back. */
    method Rol(m: byte, rotate: bool) returns (r: byte)
      modifies this`c, this`z, this`n
      ensures var o := if rotate then Alu.Rol(m, old(c)) else Asl(m);
              r == o.val && c == o.carry && z == (r == 0) && n == Bit7(r)
    {
      var w := 2 * m + (if rotate then Bit(c) else 0);
      c := w / 256 % 2 == 1;
      r := w % 256;
      z := r == 0;
      n := Bit7(r);
    }

    /** `op_lsr`, `op_ror`. */
    method Ror(m: byte, rotate: bool) returns (r: byte)
      modifies this`c, this`z, this`n
      ensures var o := if rotate then Alu.Ror(m, old(c)) else Lsr(m);
              r == o.val && c == o.carry && z == (r == 0) && n == Bit7(r)
    {
      r := m / 2 + (if rotate then 128 * Bit(c) else 0);
      c := m % 2 == 1;
      z := r == 0;
      n := Bit7(r);
    }
  }
}
