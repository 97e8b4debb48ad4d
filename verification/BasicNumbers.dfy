/** Printing unsigned numbers: repeated bit-serial division by ten, digits pushed and popped. */
module BasicNumbers {
  import opened Bits
  import opened Text
  import opened Alu
  import opened Serial
  import opened BasicCells
  import opened BasicExpr
  import opened BasicPrint

  /** The body of the `div10` loop: dividend in AR+2, remainder in AR+4, quotient in AR+6. */
  method Div10Turn(zp: array<byte>) returns (c: bool, bit: bool)
    requires zp.Length == 256 && Pair(zp, AR + 4) < 10 && Pair(zp, AR + 6) < 0x8000
    modifies zp
    ensures Pair(zp, AR + 2) + TWO16 * Bit(c) == 2 * old(Pair(zp, AR + 2))
    ensures Pair(zp, AR + 4) == 2 * old(Pair(zp, AR + 4)) + Bit(c) - (if bit then 10 else 0) && Pair(zp, AR + 4) < 10
    ensures Pair(zp, AR + 6) == 2 * old(Pair(zp, AR + 6)) + Bit(bit)
    ensures forall i :: 0 <= i < 256 && !(AR + 2 <= i < AR + 8) ==> zp[i] == old(zp[i])
  {
    hide Sub8;
    c := RolPair(zp, AR + 2, false);
    var o := RolPair(zp, AR + 4, c);
    var lo := Sub8(zp[AR + 4], 10, true);
    var hi := Sub8(zp[AR + 5], 0, lo.carry);
    bit := hi.carry;
    if bit {
      zp[AR + 4] := lo.val;
      zp[AR + 5] := hi.val;
    }
    o := RolPair(zp, AR + 6, bit);
  }

  /** `div10`. */
  method Div10(zp: array<byte>) returns (r: byte)
    requires zp.Length == 256
    modifies zp
    ensures Pair(zp, AR + 2) == old(Pair(zp, AR + 2)) / 10 && r == old(Pair(zp, AR + 2)) % 10
    ensures forall i :: 0 <= i < 256 && !(AR + 2 <= i < AR + 8) ==> zp[i] == old(zp[i])
  {
    hide Wide, Dividing;
    ghost var v := Pair(zp, AR + 2);
    ClearPair(zp, AR + 4);
    ClearPair(zp, AR + 6);
    ghost var l: nat, s: nat := v, 1;
    var x := 16;
    Pow16();
    DivStart(v, 10, TWO16);
    while x > 0
      invariant 0 <= x <= 16 && l >= 0 && s == Pow2(16 - x)
      invariant Pair(zp, AR + 4) < 10 && Pair(zp, AR + 6) < s
      invariant Dividing(v, 10, Pair(zp, AR + 6), Pair(zp, AR + 4), l, Pow2(x), s, 0, Pair(zp, AR + 2), TWO16)
      invariant forall i :: 0 <= i < 256 && !(AR + 2 <= i < AR + 8) ==> zp[i] == old(zp[i])
    {
      ghost var cells, q0, r0 := Pair(zp, AR + 2), Pair(zp, AR + 6), Pair(zp, AR + 4);
      Below16(16 - x);
      var c, bit := Div10Turn(zp);
      DivStep(v, 10, q0, r0, l, Pow2(x), s, 0, cells, TWO16, Pow2(x - 1), c, bit, false,
              Pair(zp, AR + 4), Pair(zp, AR + 2));
      s, l := 2 * s, l - Pow2(x - 1) * Bit(c);
      x := x - 1;
    }
    DivDone(v, 10, Pair(zp, AR + 6), Pair(zp, AR + 4), l, 1, s, 0, Pair(zp, AR + 2), TWO16);
    LowHalf(zp[AR + 4], zp[AR + 5]);
    r := zp[AR + 4];
    SetPair(zp, AR + 2, AR + 6);
  }

  lemma LowHalf(lo: byte, hi: byte)
    ensures Wide(lo, hi) < 10 ==> Wide(lo, hi) == lo
  {
  }

  function Reversed(s: string): string {
    if s == "" then "" else [s[|s| - 1]] + Reversed(s[..|s| - 1])
  }

  /** A digit moved from the number to the stack. */
  lemma DigitMoved(m: nat, stack: string)
    ensures var d := ('0' as int + m % 10) as char;
            Decimal(m) + Reversed(stack) == (if m < 10 then "" else Decimal(m / 10)) + Reversed(stack + [d])
  {
    var d := ('0' as int + m % 10) as char;
    assert (stack + [d])[..|stack|] == stack;
  }

  /** The first half of `PRINT_U16`: digits onto the CPU stack, last first. */
  method PushDigits(zp: array<byte>) returns (stack: string)
    requires zp.Length == 256
    modifies zp
    ensures Reversed(stack) == Decimal(old(Pair(zp, AR + 2)))
    ensures forall i :: 0 <= i < 256 && !(AR + 2 <= i < AR + 8) ==> zp[i] == old(zp[i])
  {
    hide Wide, Decimal, Reversed;
    ghost var n, m := Pair(zp, AR + 2), Pair(zp, AR + 2);
    stack := "";
    assert Decimal(n) + Reversed("") == Decimal(n) by { NothingReversed(); }
    while true
      invariant m == Pair(zp, AR + 2) && Decimal(m) + Reversed(stack) == Decimal(n)
      invariant forall i :: 0 <= i < 256 && !(AR + 2 <= i < AR + 8) ==> zp[i] == old(zp[i])
      decreases m
    {
      DigitMoved(m, stack);
      var d := Div10(zp);
      stack := stack + [('0' as int + d) as char];
      Zero(zp[AR + 2], zp[AR + 3]);
      if zp[AR + 2] == 0 && zp[AR + 3] == 0 { break; }
      m := Pair(zp, AR + 2);
    }
    assert "" + Reversed(stack) == Reversed(stack);
  }

  lemma NothingReversed()
    ensures Reversed("") == ""
  {
  }

  /** The second half: what was pushed last comes out first. */
  method PopDigits(stack: string) returns (out: string)
    ensures out == Reversed(stack)
  {
    out := "";
    var k := |stack|;
    assert stack[..|stack|] == stack;
    while k > 0
      invariant 0 <= k <= |stack| && out + Reversed(stack[..k]) == Reversed(stack)
    {
      k := k - 1;
      out := out + [stack[k]];
      assert stack[..k + 1][..k] == stack[..k];
    }
    assert stack[..0] == "";
  }

  /** `PRINT_U16`: the decimal digits of AR, without leading zeros. */
  method PrintU16(zp: array<byte>) returns (out: string)
    requires zp.Length == 256
    modifies zp
    ensures out == Decimal(old(Pair(zp, AR)))
    ensures forall i :: 0 <= i < 256 && !(AR + 2 <= i < AR + 8) ==> zp[i] == old(zp[i])
  {
    hide Wide;
    SetPair(zp, AR + 2, AR);
    var stack := PushDigits(zp);
    out := PopDigits(stack);
  }

  lemma Zero(lo: byte, hi: byte)
    ensures Wide(lo, hi) == 0 <==> lo == 0 && hi == 0
  {
  }
}
