/** The float routines as they run: in place on the zero page, each proved against its value function. */
module FloatOps {
  import opened Bits
  import opened Alu
  import opened FloatCells
  import opened FloatSpec

  /** The float block at FSGN or ASGN: sign, exponent, six mantissa bytes. */
  function NumAt(zp: array<byte>, at: nat): Num
    requires zp.Length == 256 && at + 8 <= 256
    reads zp
  {
    Num(zp[at], zp[at + 1], Six(zp, at + 2))
  }

  /** FAC. */
  function Fac(zp: array<byte>): Num
    requires zp.Length == 256
    reads zp
  {
    NumAt(zp, FSGN)
  }

  /** ARG. */
  function Arg(zp: array<byte>): Num
    requires zp.Length == 256
    reads zp
  {
    NumAt(zp, ASGN)
  }

  /** `FNORM`. */
  method Normalize(zp: array<byte>)
    requires zp.Length == 256
    modifies zp
    ensures Fac(zp) == Norm(old(Fac(zp)))
    ensures forall i :: 0 <= i < 256 && !(FSGN <= i < FM + 6) && !(MTMP <= i < MTMP + 6) && i != FTMP
                        ==> zp[i] == old(zp[i])
  {
    hide Pack;
    var z := IsZero6(zp, FM);
    if z {
      zp[FEXP] := 0;
      zp[FSGN] := 0;
      return;
    }
    var big := Ge1e7(zp);
    while big
      invariant big <==> Six(zp, FM) >= TEN7
      invariant Six(zp, FM) > 0 && Shrunk(Fac(zp)) == old(Shrunk(Fac(zp)))
      invariant forall i :: 0 <= i < 256 && !(FSGN <= i < FM + 6) && !(MTMP <= i < MTMP + 6) && i != FTMP
                            ==> zp[i] == old(zp[i])
      decreases Six(zp, FM)
    {
      var r := Div10(zp);
      zp[FEXP] := Inc(zp[FEXP]);
      big := Ge1e7(zp);
    }
    ghost var shrunk := Fac(zp);
    assert shrunk == old(Shrunk(Fac(zp)));
    var small := Lt1e6(zp);
    while small
      invariant small <==> Six(zp, FM) < TEN6
      invariant Six(zp, FM) > 0 && Grown(Fac(zp)) == Grown(shrunk)
      invariant forall i :: 0 <= i < 256 && !(FSGN <= i < FM + 6) && !(MTMP <= i < MTMP + 6) && i != FTMP
                            ==> zp[i] == old(zp[i])
      decreases TEN6 - Six(zp, FM)
    {
      Mul10(zp);
      zp[FEXP] := Dec(zp[FEXP]);
      small := Lt1e6(zp);
    }
  }

  /** `FAC_TO_ARG`, `ARG_TO_FAC`. */
  method CopyNum(zp: array<byte>, to: nat, from: nat)
    requires zp.Length == 256 && to + 8 <= 256 && from + 8 <= 256
    requires to + 8 <= from || from + 8 <= to
    modifies zp
    ensures NumAt(zp, to) == old(NumAt(zp, from)) && NumAt(zp, from) == old(NumAt(zp, from))
    ensures forall i :: 0 <= i < 256 && (i < to || to + 8 <= i) ==> zp[i] == old(zp[i])
  {
    Copy(zp, to, from, 8);
  }

  /** `FSWAP`. */
  method Swap(zp: array<byte>)
    requires zp.Length == 256
    modifies zp
    ensures Fac(zp) == old(Arg(zp)) && Arg(zp) == old(Fac(zp))
    ensures forall i :: 0 <= i < 256 && !(FSGN <= i < AM + 6) ==> zp[i] == old(zp[i])
  {
    var x := 8;
    while x > 0
      invariant 0 <= x <= 8
      invariant forall i :: FSGN + x <= i < ASGN ==> zp[i] == old(zp[i + 8])
      invariant forall i :: ASGN + x <= i < ASGN + 8 ==> zp[i] == old(zp[i - 8])
      invariant forall i :: 0 <= i < 256 && !(FSGN + x <= i < ASGN) && !(ASGN + x <= i < ASGN + 8)
                            ==> zp[i] == old(zp[i])
    {
      x := x - 1;
      var saved := zp[FSGN + x];
      zp[FSGN + x] := zp[ASGN + x];
      zp[ASGN + x] := saved;
    }
  }

  /** `FAC_NEG`. */
  method Negate(zp: array<byte>)
    requires zp.Length == 256
    modifies zp
    ensures Fac(zp) == Neg(old(Fac(zp))) && Arg(zp) == old(Arg(zp))
    ensures forall i :: 0 <= i < 256 && i != FSGN ==> zp[i] == old(zp[i])
  {
    hide Pack, Xor;
    var z := IsZero6(zp, FM);
    if !z {
      zp[FSGN] := Xor(zp[FSGN], 255);
      assert Six(zp, FM) == old(Six(zp, FM)) && Six(zp, AM) == old(Six(zp, AM));
    }
  }

  /** Dividing by ten once more. */
  lemma ScaleDown(m: nat, k: nat)
    ensures m / Pow(10, k) / 10 == m / Pow(10, k + 1)
  {
    DivDiv(m, Pow(10, k), 10);
    assert Pow(10, k + 1) == 10 * Pow(10, k);
  }

  /** The alignment loop of `FADD`: FM divided by ten, DCNT times. */
  method ScaleBy(zp: array<byte>)
    requires zp.Length == 256
    modifies zp
    ensures Six(zp, FM) == old(Six(zp, FM)) / Pow(10, old(zp[DCNT]))
    ensures forall i :: 0 <= i < 256 && !(FM <= i < FM + 6) && i != FTMP && i != DCNT ==> zp[i] == old(zp[i])
  {
    hide Pack, Pow;
    ghost var v: nat, k: nat := Six(zp, FM), 0;
    PowZero();
    while zp[DCNT] != 0
      invariant 0 <= k && k + zp[DCNT] == old(zp[DCNT])
      invariant Six(zp, FM) == v / Pow(10, k)
      invariant forall i :: 0 <= i < 256 && !(FM <= i < FM + 6) && i != FTMP && i != DCNT ==> zp[i] == old(zp[i])
      decreases zp[DCNT]
    {
      var r := Div10(zp);
      ghost var f := Six(zp, FM);
      zp[DCNT] := Dec(zp[DCNT]);
      assert Six(zp, FM) == f;
      ScaleDown(v, k);
      k := k + 1;
    }
  }

  lemma PowZero()
    ensures Pow(10, 0) == 1
  {
  }

  /** The signed comparison of `FADD`: subtract, and correct the sign bit by the overflow flag. */
  lemma SignedLess(x: byte, y: byte)
    ensures var f := Sbc(x, y, true, false); (f.n != f.v) <==> SignedByte(x) < SignedByte(y)
  {
  }

  /** `FADD` from `fadd_cb` on: equal exponents. */
  method CombineCells(zp: array<byte>)
    requires zp.Length == 256 && zp[FEXP] == zp[AEXP]
    modifies zp
    ensures Fac(zp) == Combine(old(Fac(zp)), old(Arg(zp)))
    ensures forall i :: 0 <= i < 256 && !(FSGN <= i < MTMP + 6) && i != FTMP ==> zp[i] == old(zp[i])
  {
    hide Pack, Norm;
    ghost var lo, hi := Fac(zp), Arg(zp);
    if zp[FSGN] == zp[ASGN] {
      var c := Add6(zp, FM, AM);
      ModUnique(lo.m + hi.m, TWO48, Bit(c), Six(zp, FM));
      assert Fac(zp) == hi.(m := (lo.m + hi.m) % TWO48);
    } else {
      var big := Cmp6(zp);
      if !big {
        Swap(zp);
      }
      var c := Sub6(zp, FM, AM);
      assert Fac(zp) == if big then lo.(m := lo.m - hi.m) else hi.(m := hi.m - lo.m);
    }
    Normalize(zp);
  }

  /** `FADD` from `fadd_al` on. */
  method AddAligned(zp: array<byte>)
    requires zp.Length == 256
    modifies zp
    ensures Fac(zp) == AddOrdered(old(Fac(zp)), old(Arg(zp)))
    ensures forall i :: 0 <= i < 256 && !(FSGN <= i <= FTMP) ==> zp[i] == old(zp[i])
  {
    hide Pack, Combine, Pow;
    ghost var lo, hi := Fac(zp), Arg(zp);
    var diff := Sub8(zp[AEXP], zp[FEXP], true).val;
    assert diff == (hi.exp - lo.exp) % 256;
    zp[DCNT] := diff;
    assert Fac(zp) == lo && Arg(zp) == hi;
    if zp[DCNT] >= 8 {
      CopyNum(zp, FSGN, ASGN);
      return;
    }
    ScaleBy(zp);
    assert Six(zp, AM) == hi.m;
    ghost var m := Six(zp, FM);
    zp[FEXP] := zp[AEXP];
    assert Fac(zp) == Aligned(lo, hi) && Arg(zp) == hi;
    CombineCells(zp);
  }

  /** `FADD`. */
  method AddCells(zp: array<byte>)
    requires zp.Length == 256
    modifies zp
    ensures Fac(zp) == Add(old(Arg(zp)), old(Fac(zp)))
    ensures forall i :: 0 <= i < 256 && !(FSGN <= i <= FTMP) ==> zp[i] == old(zp[i])
  {
    hide Pack, AddOrdered, Sbc;
    var za := IsZero6(zp, AM);
    if za { return; }
    var zf := IsZero6(zp, FM);
    if zf {
      CopyNum(zp, FSGN, ASGN);
      return;
    }
    if zp[FEXP] != zp[AEXP] {
      var f := Sbc(zp[FEXP], zp[AEXP], true, false);
      SignedLess(zp[FEXP], zp[AEXP]);
      if f.n == f.v {
        Swap(zp);
      }
    }
    AddAligned(zp);
  }

  /** `FSUB`. */
  method SubCells(zp: array<byte>)
    requires zp.Length == 256
    modifies zp
    ensures Fac(zp) == Sub(old(Arg(zp)), old(Fac(zp)))
    ensures forall i :: 0 <= i < 256 && !(FSGN <= i <= FTMP) ==> zp[i] == old(zp[i])
  {
    Negate(zp);
    AddCells(zp);
  }

  /** `FAC_ZERO`. */
  method ZeroFac(zp: array<byte>)
    requires zp.Length == 256
    modifies zp
    ensures Fac(zp) == ZERO
    ensures forall i :: 0 <= i < 256 && !(FSGN <= i < FM + 6) ==> zp[i] == old(zp[i])
  {
    hide Pack;
    Clear6(zp, FM);
    zp[FEXP] := 0;
    zp[FSGN] := 0;
  }

  /** `FMUL`. */
  method MulCells(zp: array<byte>)
    requires zp.Length == 256
    modifies zp
    ensures Fac(zp) == Mul(old(Arg(zp)), old(Fac(zp)))
    ensures forall i :: 0 <= i < 256 && !(FSGN <= i <= FTMP + 1) ==> zp[i] == old(zp[i])
  {
    hide Pack, Norm, Xor;
    ghost var a, f := Arg(zp), Fac(zp);
    var zf := IsZero6(zp, FM);
    var za := IsZero6(zp, AM);
    if zf || za {
      ZeroFac(zp);
      return;
    }
    zp[FTMP + 1] := Xor(zp[FSGN], zp[ASGN]);
    zp[FTMP] := Add8(zp[FEXP], zp[AEXP], false).val;
    assert Fac(zp) == f && Arg(zp) == a;
    LowThree(zp, AM);
    Multiply(zp);
    ghost var m := Six(zp, FM);
    zp[FEXP] := zp[FTMP];
    zp[FSGN] := zp[FTMP + 1];
    assert Six(zp, FM) == m;
    assert Fac(zp) == Num(Xor(f.sgn, a.sgn), (f.exp + a.exp) % 256, f.m * (a.m % TWO24) % TWO48);
    Normalize(zp);
  }

  lemma LowThree(zp: array<byte>, at: nat)
    requires at + 6 <= zp.Length
    ensures Three(zp, at) == Six(zp, at) % TWO24
  {
    ModUnique(Six(zp, at), TWO24, Pack(zp[at + 3], zp[at + 4], zp[at + 5], 0, 0, 0), Three(zp, at));
  }

  lemma TenMore(v: nat, k: nat, m: nat)
    requires m == Pow(10, k) * v % TWO48
    ensures 10 * m % TWO48 == Pow(10, k + 1) * v % TWO48
  {
    var w := Pow(10, k) * v;
    DivSplit(w, TWO48);
    DivSplit(10 * m, TWO48);
    assert Pow(10, k + 1) * v == 10 * w;
    ModUnique(10 * w, TWO48, 10 * (w / TWO48) + 10 * m / TWO48, 10 * m % TWO48);
  }

  /** FM times ten, DCNT times: the scaling of `FDIV` and of `FAC_TO_INT`. */
  method ScaleUp(zp: array<byte>)
    requires zp.Length == 256
    modifies zp
    ensures Six(zp, FM) == Pow(10, old(zp[DCNT])) * old(Six(zp, FM)) % TWO48
    ensures forall i :: 0 <= i < 256 && !(FM <= i < FM + 6) && !(MTMP <= i < MTMP + 6) && i != DCNT
                        ==> zp[i] == old(zp[i])
  {
    hide Pack, Pow;
    ghost var v: nat, k: nat := Six(zp, FM), 0;
    PowZero();
    while zp[DCNT] != 0
      invariant 0 <= k && k + zp[DCNT] == old(zp[DCNT])
      invariant Six(zp, FM) == Pow(10, k) * v % TWO48
      invariant forall i :: 0 <= i < 256 && !(FM <= i < FM + 6) && !(MTMP <= i < MTMP + 6) && i != DCNT
                            ==> zp[i] == old(zp[i])
      decreases zp[DCNT]
    {
      ghost var f0 := Six(zp, FM);
      Mul10(zp);
      ghost var f := Six(zp, FM);
      zp[DCNT] := Dec(zp[DCNT]);
      assert Six(zp, FM) == f;
      TenMore(v, k, f0);
      k := k + 1;
    }
  }

  /** The copies of `FDIV`. */
  method SetUpDivision(zp: array<byte>)
    requires zp.Length == 256
    modifies zp
    ensures Six(zp, MTMP2) == old(Six(zp, FM)) && Six(zp, FM) == old(Six(zp, AM)) && zp[DCNT] == 7
    ensures forall i :: 0 <= i < 256 && !(FM <= i < FM + 6) && !(MTMP2 <= i <= DCNT) ==> zp[i] == old(zp[i])
  {
    hide Pack;
    ghost var a, f := Six(zp, AM), Six(zp, FM);
    Copy(zp, MTMP2, FM, 6);
    assert Six(zp, AM) == a && Six(zp, MTMP2) == f;
    Copy(zp, FM, AM, 6);
    assert Six(zp, FM) == a && Six(zp, MTMP2) == f;
    zp[DCNT] := 7;
  }

  /** The middle of `FDIV`: the divisor out to MTMP2, the dividend in, scaled by 10^7 and divided. */
  method DivMantissas(zp: array<byte>)
    requires zp.Length == 256 && 0 < Six(zp, FM) < TWO24
    modifies zp
    ensures Six(zp, FM) == TEN7 * old(Six(zp, AM)) % TWO48 / old(Six(zp, FM))
    ensures forall i :: 0 <= i < 256 && !(FM <= i < FM + 6) && !(AM <= i < AM + 4) && !(MTMP <= i <= DCNT)
                        ==> zp[i] == old(zp[i])
  {
    hide Pack, Pow;
    ghost var a, f := Six(zp, AM), Six(zp, FM);
    SetUpDivision(zp);
    ScaleUp(zp);
    Ten7();
    assert Six(zp, MTMP2) == f;
    LowThree(zp, MTMP2);
    Divide(zp);
  }

  /** `FDIV`. */
  method DivCells(zp: array<byte>)
    requires zp.Length == 256 && Six(zp, FM) < TWO24
    modifies zp
    ensures Fac(zp) == Div(old(Arg(zp)), old(Fac(zp)))
    ensures forall i :: 0 <= i < 256 && !(FSGN <= i <= FTMP + 1) ==> zp[i] == old(zp[i])
  {
    hide Pack, Norm, Xor, Pow;
    ghost var a, f := Arg(zp), Fac(zp);
    var zf := IsZero6(zp, FM);
    var za := IsZero6(zp, AM);
    if zf || za {
      ZeroFac(zp);
      return;
    }
    zp[FTMP + 1] := Xor(zp[FSGN], zp[ASGN]);
    var e := Sub8(zp[AEXP], zp[FEXP], true);
    e := Sub8(e.val, 7, true);
    assert e.val == (a.exp - f.exp - 7) % 256;
    zp[FTMP] := e.val;
    assert Fac(zp) == f && Arg(zp) == a;
    DivMantissas(zp);
    ghost var m := Six(zp, FM);
    zp[FEXP] := zp[FTMP];
    zp[FSGN] := zp[FTMP + 1];
    assert Six(zp, FM) == m;
    Normalize(zp);
  }

  lemma Ten7()
    ensures Pow(10, 7) == TEN7
  {
  }
}
