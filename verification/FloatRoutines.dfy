/** The float library's bridges: comparison, integers, packed slots, literals in and decimal text out. */
module FloatRoutines {
  import opened Bits
  import opened Alu
  import opened FloatCells
  import opened FloatSpec
  import opened FloatTheory
  import opened FloatArithmetic
  import opened FloatOps

  const AR := 0x23
  const ESTKP := 0x0A

  function Word(zp: array<byte>, at: nat): word
    requires at + 2 <= zp.Length
    reads zp
  {
    Wide(zp[at], zp[at + 1])
  }

  lemma WidePacks(lo: byte, hi: byte)
    ensures Pack(lo, hi, 0, 0, 0, 0) == Wide(lo, hi)
  {
  }

  /** The copies of `INT_TO_FAC`. */
  method SpreadAr(zp: array<byte>)
    requires zp.Length == 256
    modifies zp
    ensures Fac(zp) == Num(0, 0, old(Word(zp, AR)))
    ensures forall i :: 0 <= i < 256 && !(FSGN <= i < FM + 6) ==> zp[i] == old(zp[i])
  {
    hide Pack, Wide;
    WidePacks(zp[AR], zp[AR + 1]);
    zp[FM] := zp[AR];
    zp[FM + 1] := zp[AR + 1];
    zp[FM + 2] := 0;
    zp[FM + 3] := 0;
    zp[FM + 4] := 0;
    zp[FM + 5] := 0;
    zp[FEXP] := 0;
    zp[FSGN] := 0;
  }

  /** `INT_TO_FAC`. */
  method IntToFac(zp: array<byte>)
    requires zp.Length == 256
    modifies zp
    ensures Fac(zp) == Norm(Num(0, 0, old(Word(zp, AR))))
    ensures forall i :: 0 <= i < 256 && !(FSGN <= i <= FTMP) ==> zp[i] == old(zp[i])
  {
    hide Pack, Norm;
    SpreadAr(zp);
    Normalize(zp);
  }

  /** `lda #0 / sec / sbc` twice: the pair at AR negated. */
  method NegateAr(zp: array<byte>)
    requires zp.Length == 256
    modifies zp
    ensures Word(zp, AR) == Negated(old(Word(zp, AR)))
    ensures forall i :: 0 <= i < 256 && i != AR && i != AR + 1 ==> zp[i] == old(zp[i])
  {
    var r0 := Sub8(0, zp[AR], true);
    zp[AR] := r0.val;
    var r1 := Sub8(0, zp[AR + 1], r0.carry);
    zp[AR + 1] := r1.val;
  }

  /** `SINT_TO_FAC`. */
  method SintToFac(zp: array<byte>)
    requires zp.Length == 256
    modifies zp
    ensures Fac(zp) == FromInt(old(Word(zp, AR)))
    ensures forall i :: 0 <= i < 256 && !(FSGN <= i <= FTMP) && i != AR && i != AR + 1 ==> zp[i] == old(zp[i])
  {
    hide Norm, Pack;
    if zp[AR + 1] < 128 {
      IntToFac(zp);
    } else {
      NegateAr(zp);
      IntToFac(zp);
      ghost var m := Six(zp, FM);
      zp[FSGN] := 255;
      assert Six(zp, FM) == m;
    }
  }

  /** The downward loop of `FAC_TO_INT`. */
  method ScaleDownBy(zp: array<byte>)
    requires zp.Length == 256 && zp[DCNT] >= 128
    modifies zp
    ensures Six(zp, FM) == old(Six(zp, FM)) / Pow(10, 256 - old(zp[DCNT]))
    ensures forall i :: 0 <= i < 256 && !(FM <= i < FM + 6) && i != FTMP && i != DCNT ==> zp[i] == old(zp[i])
  {
    hide Pack, Pow;
    ghost var v: nat, k: nat, d0: int := Six(zp, FM), 0, zp[DCNT];
    PowZero();
    while true
      invariant 0 <= k && zp[DCNT] == d0 + k && 128 <= zp[DCNT]
      invariant Six(zp, FM) == v / Pow(10, k)
      invariant forall i :: 0 <= i < 256 && !(FM <= i < FM + 6) && i != FTMP && i != DCNT ==> zp[i] == old(zp[i])
      decreases 256 - zp[DCNT]
    {
      var r := Div10(zp);
      ghost var f := Six(zp, FM);
      zp[DCNT] := Inc(zp[DCNT]);
      assert Six(zp, FM) == f;
      ScaleDown(v, k);
      k := k + 1;
      if zp[DCNT] == 0 { break; }
    }
  }

  lemma WideZero()
    ensures Wide(0, 0) == 0
  {
  }

  /** `FAC_TO_INT` up to `fti_ok`: the point moved to the right of the mantissa. */
  method WholePart(zp: array<byte>)
    requires zp.Length == 256
    modifies zp
    ensures Six(zp, FM) == IntMagnitude(old(Fac(zp)))
    ensures forall i :: 0 <= i < 256 && !(FM <= i < FM + 6) && !(MTMP <= i <= FTMP) ==> zp[i] == old(zp[i])
  {
    hide Pow, Pack;
    zp[DCNT] := zp[FEXP];
    assert Six(zp, FM) == old(Six(zp, FM));
    if zp[DCNT] < 128 {
      ScaleUp(zp);
    } else {
      ScaleDownBy(zp);
    }
  }

  /** `FAC_TO_INT`. */
  method FacToInt(zp: array<byte>)
    requires zp.Length == 256
    modifies zp
    ensures Word(zp, AR) == ToInt(old(Fac(zp)))
    ensures forall i :: 0 <= i < 256 && !(FM <= i < FM + 6) && !(MTMP <= i <= FTMP) && i != AR && i != AR + 1
                        ==> zp[i] == old(zp[i])
  {
    hide Pow, Pack, IntMagnitude, Wide, Negated;
    var z := IsZero6(zp, FM);
    if z {
      WideZero();
      zp[AR] := 0;
      zp[AR + 1] := 0;
      return;
    }
    WholePart(zp);
    LowWord(zp);
    zp[AR] := zp[FM];
    zp[AR + 1] := zp[FM + 1];
    if zp[FSGN] != 0 {
      NegateAr(zp);
    }
  }

  lemma LowWord(zp: array<byte>)
    requires zp.Length == 256
    ensures Wide(zp[FM], zp[FM + 1]) == Six(zp, FM) % 0x1_0000
  {
    ModUnique(Six(zp, FM), 0x1_0000, Pack(zp[FM + 2], zp[FM + 3], zp[FM + 4], zp[FM + 5], 0, 0),
              Wide(zp[FM], zp[FM + 1]));
  }

  /** BASIC's truth values. */
  const TRUE := Num(255, 250, TEN6)

  lemma TrueIsMinusOne()
    ensures TRUE == Norm(Num(0, 0, 1)).(sgn := 255) && Value(TRUE) == -1.0
  {
    GrowOne();
    hide Norm;
    var x: word := 0xFFFF;
    assert Negated(x) == 1;
    FromIntExact(x);
  }

  lemma GrowOne()
    ensures Norm(Num(0, 0, 1)) == Num(0, 250, TEN6)
  {
    assert Grown(Num(0, 252, 10_000)) == Num(0, 250, TEN6);
    assert Grown(Num(0, 254, 100)) == Num(0, 250, TEN6);
  }

  /** The end of `ev_cmp`, from FSUB on: `op` codes < > = <= >= <> as 0..5; ARG is the left operand. */
  method CompareCells(zp: array<byte>, op: byte)
    requires zp.Length == 256 && Operand(Arg(zp)) && Operand(Fac(zp))
    modifies zp
    ensures Fac(zp) == if Related(op, Value(old(Arg(zp))), Value(old(Fac(zp)))) then TRUE else ZERO
    ensures forall i :: 0 <= i < 256 && !(FSGN <= i <= FTMP) && i != AR && i != AR + 1 ==> zp[i] == old(zp[i])
  {
    hide Pack, Norm, Value, Sub;
    CompareExact(Arg(zp), Fac(zp));
    SubCells(zp);
    var z := IsZero6(zp, FM);
    if z {
      zp[FTMP] := 0;
    } else if zp[FSGN] != 0 {
      zp[FTMP] := 0xFF;
    } else {
      zp[FTMP] := 1;
    }
    var holds;
    if op == 0 { holds := zp[FTMP] == 0xFF; }
    else if op == 1 { holds := zp[FTMP] == 1; }
    else if op == 2 { holds := zp[FTMP] == 0; }
    else if op == 3 { holds := zp[FTMP] != 1; }
    else if op == 4 { holds := zp[FTMP] != 0xFF; }
    else { holds := zp[FTMP] != 0; }
    if holds {
      MakeTrue(zp);
    } else {
      ZeroFac(zp);
    }
  }

  /** `FTRUE`. */
  method MakeTrue(zp: array<byte>)
    requires zp.Length == 256
    modifies zp
    ensures Fac(zp) == TRUE
    ensures forall i :: 0 <= i < 256 && !(FSGN <= i <= FTMP) && i != AR && i != AR + 1 ==> zp[i] == old(zp[i])
  {
    hide Pack, Norm;
    zp[AR] := 1;
    zp[AR + 1] := 0;
    IntToFac(zp);
    ghost var m := Six(zp, FM);
    zp[FSGN] := 255;
    assert Six(zp, FM) == m;
    TrueIsMinusOne();
  }

  // ---- packed floats ----

  /** Five bytes: sign, exponent, three mantissa bytes. */
  function Packed(n: Num): (r: seq<byte>)
    ensures |r| == 5
  {
    [n.sgn, n.exp, n.m % 0x100, n.m / 0x100 % 0x100, n.m / 0x1_0000 % 0x100]
  }

  function Unpacked(s: seq<byte>): Num
    requires |s| == 5
  {
    Num(s[0], s[1], Pack(s[2], s[3], s[4], 0, 0, 0))
  }

  /** A packed float keeps every mantissa below 2^24. */
  lemma PackedExact(n: Num)
    ensures Unpacked(Packed(n)) == n <==> n.m < TWO24
    ensures Operand(n) ==> Unpacked(Packed(n)) == n
  {
    var b := n.m / 0x100;
    assert n.m == 0x100 * b + n.m % 0x100;
    DivDiv(n.m, 0x100, 0x100);
    assert b == 0x100 * (b / 0x100) + b % 0x100;
    var t := b / 0x100;
    assert t == 0x100 * (t / 0x100) + t % 0x100;
  }

  lemma PackBytes(b0: byte, b1: byte, b2: byte, b3: byte, b4: byte, b5: byte)
    ensures var m := Pack(b0, b1, b2, b3, b4, b5);
            m >= 0 && m % 0x100 == b0 && m / 0x100 % 0x100 == b1 && m / 0x1_0000 % 0x100 == b2
  {
    var m := Pack(b0, b1, b2, b3, b4, b5);
    var m1 := Pack(b1, b2, b3, b4, b5, 0);
    var m2 := Pack(b2, b3, b4, b5, 0, 0);
    var m3 := Pack(b3, b4, b5, 0, 0, 0);
    ModUnique(m, 0x100, m1, b0);
    ModUnique(m1, 0x100, m2, b1);
    ModUnique(m2, 0x100, m3, b2);
    DivDiv(m, 0x100, 0x100);
  }

  /** `VSTORE`, and the stores of `FPUSH` and of array elements: FAC packed into `mem` at `x`. */
  method StoreNum(zp: array<byte>, mem: array<byte>, x: nat)
    requires zp.Length == 256 && zp != mem && x + 5 <= mem.Length
    modifies mem
    ensures mem[x..x + 5] == Packed(Fac(zp))
    ensures forall i :: 0 <= i < mem.Length && (i < x || x + 5 <= i) ==> mem[i] == old(mem[i])
  {
    hide Pack;
    PackBytes(zp[FM], zp[FM + 1], zp[FM + 2], zp[FM + 3], zp[FM + 4], zp[FM + 5]);
    assert Packed(Fac(zp)) == [zp[FSGN], zp[FEXP], zp[FM], zp[FM + 1], zp[FM + 2]];
    hide Packed;
    mem[x] := zp[FSGN];
    mem[x + 1] := zp[FEXP];
    mem[x + 2] := zp[FM];
    mem[x + 3] := zp[FM + 1];
    mem[x + 4] := zp[FM + 2];
  }

  /** `VLOAD` (to FAC) and the loads of `FPOP` (to ARG). */
  method LoadNum(zp: array<byte>, at: nat, mem: array<byte>, x: nat)
    requires zp.Length == 256 && at + 8 <= 256 && zp != mem && x + 5 <= mem.Length
    modifies zp
    ensures NumAt(zp, at) == Unpacked(mem[x..x + 5])
    ensures forall i :: 0 <= i < 256 && (i < at || at + 8 <= i) ==> zp[i] == old(zp[i])
  {
    zp[at] := mem[x];
    zp[at + 1] := mem[x + 1];
    zp[at + 2] := mem[x + 2];
    zp[at + 3] := mem[x + 3];
    zp[at + 4] := mem[x + 4];
    zp[at + 5] := 0;
    zp[at + 6] := 0;
    zp[at + 7] := 0;
  }

  /** Entry `k` of the float value stack. */
  function StackedNum(fstack: array<byte>, k: nat): Num
    requires 5 * k + 5 <= fstack.Length
    reads fstack
  {
    Unpacked(fstack[5 * k..5 * k + 5])
  }

  /** Four times and once more, as the stack index is computed. */
  function TimesFive(k: byte): byte {
    Add8(Asl(Asl(k).val).val, k, false).val
  }

  lemma FiveTimes(k: byte)
    requires k < 8
    ensures TimesFive(k) == 5 * (k as int)
  {
  }

  /** `FPUSH`. */
  method Push(zp: array<byte>, fstack: array<byte>)
    requires zp.Length == 256 && zp != fstack && fstack.Length == 40 && zp[ESTKP] < 8
    modifies zp, fstack
    ensures zp[ESTKP] == old(zp[ESTKP]) + 1
    ensures Six(zp, FM) < TWO24 ==> StackedNum(fstack, old(zp[ESTKP])) == old(Fac(zp))
    ensures forall k :: 0 <= k < 8 && k != old(zp[ESTKP]) ==> StackedNum(fstack, k) == old(StackedNum(fstack, k))
    ensures forall i :: 0 <= i < 256 && i != ESTKP ==> zp[i] == old(zp[i])
  {
    hide Pack, TimesFive, Packed, Unpacked;
    FiveTimes(zp[ESTKP]);
    ghost var k: nat := zp[ESTKP];
    StoreNum(zp, fstack, TimesFive(zp[ESTKP]));
    PackedExact(Fac(zp));
    zp[ESTKP] := Inc(zp[ESTKP]);
    forall j | 0 <= j < 8 && j != k ensures StackedNum(fstack, j) == old(StackedNum(fstack, j)) {
      assert fstack[5 * j..5 * j + 5] == old(fstack[5 * j..5 * j + 5]);
    }
  }

  /** `FPOP`: the entry pushed last, into ARG. */
  method Pop(zp: array<byte>, fstack: array<byte>)
    requires zp.Length == 256 && zp != fstack && fstack.Length == 40 && 0 < zp[ESTKP] <= 8
    modifies zp
    ensures zp[ESTKP] == old(zp[ESTKP]) - 1
    ensures Arg(zp) == StackedNum(fstack, zp[ESTKP])
    ensures forall i :: 0 <= i < 256 && !(ASGN <= i < ASGN + 8) && i != ESTKP ==> zp[i] == old(zp[i])
  {
    hide Pack, TimesFive, Unpacked;
    zp[ESTKP] := Dec(zp[ESTKP]);
    FiveTimes(zp[ESTKP]);
    LoadNum(zp, ASGN, fstack, TimesFive(zp[ESTKP]));
  }
}
