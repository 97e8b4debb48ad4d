/** The 48-bit mantissa routines of the float library, over the cells of the zero page. */
module FloatCells {
  import opened Bits
  import opened Alu
  import opened Serial

  const FSGN := 0x91
  const FEXP := 0x92
  const FM := 0x93
  const ASGN := 0x99
  const AEXP := 0x9A
  const AM := 0x9B
  const MTMP := 0xA1
  const MTMP2 := 0xA7
  const DCNT := 0xAD
  const FTMP := 0xAE

  const TWO24 := 0x100_0000
  const TWO48 := 0x1_0000_0000_0000
  const TEN6 := 1_000_000
  const TEN7 := 10_000_000

  /** A little-endian number of six bytes. */
  function Pack(b0: int, b1: int, b2: int, b3: int, b4: int, b5: int): int {
    b0 + 0x100 * b1 + 0x1_0000 * b2 + 0x100_0000 * b3 + 0x1_0000_0000 * b4 + 0x100_0000_0000 * b5
  }

  /** The six-byte number at a cell. */
  function Six(zp: array<byte>, at: nat): (r: nat)
    requires at + 6 <= zp.Length
    reads zp
    ensures r < TWO48
  {
    Pack(zp[at], zp[at + 1], zp[at + 2], zp[at + 3], zp[at + 4], zp[at + 5])
  }

  function Three(zp: array<byte>, at: nat): (r: nat)
    requires at + 3 <= zp.Length
    reads zp
    ensures r < TWO24
  {
    Pack(zp[at], zp[at + 1], zp[at + 2], 0, 0, 0)
  }

  function Four(zp: array<byte>, at: nat): (r: nat)
    requires at + 4 <= zp.Length
    reads zp
  {
    Pack(zp[at], zp[at + 1], zp[at + 2], zp[at + 3], 0, 0)
  }

  /** `asl` and five `rol`s: one place up, the top bit out. */
  method Asl6(zp: array<byte>, at: nat) returns (c: bool)
    requires zp.Length == 256 && at + 6 <= 256
    modifies zp
    ensures Six(zp, at) + TWO48 * Bit(c) == 2 * old(Six(zp, at))
    ensures zp[at] % 2 == 0
    ensures forall i :: 0 <= i < 256 && (i < at || at + 6 <= i) ==> zp[i] == old(zp[i])
    ensures forall k :: 0 <= k <= 250 && (k + 6 <= at || at + 6 <= k) ==> Six(zp, k) == old(Six(zp, k))
  {
    hide Asl, Rol;
    var r0 := Asl(zp[at]);
    zp[at] := r0.val;
    var r1 := Rol(zp[at + 1], r0.carry);
    zp[at + 1] := r1.val;
    var r2 := Rol(zp[at + 2], r1.carry);
    zp[at + 2] := r2.val;
    var r3 := Rol(zp[at + 3], r2.carry);
    zp[at + 3] := r3.val;
    var r4 := Rol(zp[at + 4], r3.carry);
    zp[at + 4] := r4.val;
    var r5 := Rol(zp[at + 5], r4.carry);
    zp[at + 5] := r5.val;
    c := r5.carry;
  }

  lemma PackSum(a: seq<byte>, b: seq<byte>, r: seq<Out>, cin: bool)
    requires |a| == |b| == |r| == 6
    requires r[0] == Add8(a[0], b[0], cin) && r[1] == Add8(a[1], b[1], r[0].carry)
    requires r[2] == Add8(a[2], b[2], r[1].carry) && r[3] == Add8(a[3], b[3], r[2].carry)
    requires r[4] == Add8(a[4], b[4], r[3].carry) && r[5] == Add8(a[5], b[5], r[4].carry)
    ensures Pack(r[0].val, r[1].val, r[2].val, r[3].val, r[4].val, r[5].val) + TWO48 * Bit(r[5].carry)
         == Pack(a[0], a[1], a[2], a[3], a[4], a[5]) + Pack(b[0], b[1], b[2], b[3], b[4], b[5]) + Bit(cin)
  {
    hide Add8;
  }

  lemma PackDifference(a: seq<byte>, b: seq<byte>, r: seq<Out>)
    requires |a| == |b| == |r| == 6
    requires r[0] == Sub8(a[0], b[0], true) && r[1] == Sub8(a[1], b[1], r[0].carry)
    requires r[2] == Sub8(a[2], b[2], r[1].carry) && r[3] == Sub8(a[3], b[3], r[2].carry)
    requires r[4] == Sub8(a[4], b[4], r[3].carry) && r[5] == Sub8(a[5], b[5], r[4].carry)
    ensures Pack(r[0].val, r[1].val, r[2].val, r[3].val, r[4].val, r[5].val)
         == Pack(a[0], a[1], a[2], a[3], a[4], a[5]) - Pack(b[0], b[1], b[2], b[3], b[4], b[5])
            + TWO48 * (1 - Bit(r[5].carry))
  {
    hide Sub8;
  }

  /** `M6_ADD` and `MADDT`: six `adc`s. */
  method Add6(zp: array<byte>, to: nat, from: nat) returns (c: bool)
    requires zp.Length == 256 && to + 6 <= 256 && from + 6 <= 256
    requires to + 6 <= from || from + 6 <= to
    modifies zp
    ensures Six(zp, to) + TWO48 * Bit(c) == old(Six(zp, to)) + old(Six(zp, from))
    ensures forall i :: 0 <= i < 256 && (i < to || to + 6 <= i) ==> zp[i] == old(zp[i])
    ensures forall k :: 0 <= k <= 250 && (k + 6 <= to || to + 6 <= k) ==> Six(zp, k) == old(Six(zp, k))
  {
    hide Add8, Pack;
    ghost var a, b := zp[to..to + 6], zp[from..from + 6];
    var r0 := Add8(zp[to], zp[from], false);
    zp[to] := r0.val;
    var r1 := Add8(zp[to + 1], zp[from + 1], r0.carry);
    zp[to + 1] := r1.val;
    var r2 := Add8(zp[to + 2], zp[from + 2], r1.carry);
    zp[to + 2] := r2.val;
    var r3 := Add8(zp[to + 3], zp[from + 3], r2.carry);
    zp[to + 3] := r3.val;
    var r4 := Add8(zp[to + 4], zp[from + 4], r3.carry);
    zp[to + 4] := r4.val;
    var r5 := Add8(zp[to + 5], zp[from + 5], r4.carry);
    zp[to + 5] := r5.val;
    c := r5.carry;
    PackSum(a, b, [r0, r1, r2, r3, r4, r5], false);
  }

  /** `M6_SUB`: six `sbc`s. */
  method Sub6(zp: array<byte>, to: nat, from: nat) returns (c: bool)
    requires zp.Length == 256 && to + 6 <= 256 && from + 6 <= 256
    requires to + 6 <= from || from + 6 <= to
    modifies zp
    ensures Six(zp, to) == old(Six(zp, to)) - old(Six(zp, from)) + TWO48 * (1 - Bit(c))
    ensures forall i :: 0 <= i < 256 && (i < to || to + 6 <= i) ==> zp[i] == old(zp[i])
    ensures forall k :: 0 <= k <= 250 && (k + 6 <= to || to + 6 <= k) ==> Six(zp, k) == old(Six(zp, k))
  {
    hide Sub8, Pack, Bit;
    ghost var a, b := zp[to..to + 6], zp[from..from + 6];
    var r0 := Sub8(zp[to], zp[from], true);
    zp[to] := r0.val;
    var r1 := Sub8(zp[to + 1], zp[from + 1], r0.carry);
    zp[to + 1] := r1.val;
    var r2 := Sub8(zp[to + 2], zp[from + 2], r1.carry);
    zp[to + 2] := r2.val;
    var r3 := Sub8(zp[to + 3], zp[from + 3], r2.carry);
    zp[to + 3] := r3.val;
    var r4 := Sub8(zp[to + 4], zp[from + 4], r3.carry);
    zp[to + 4] := r4.val;
    var r5 := Sub8(zp[to + 5], zp[from + 5], r4.carry);
    zp[to + 5] := r5.val;
    c := r5.carry;
    PackDifference(a, b, [r0, r1, r2, r3, r4, r5]);
  }

  /** `inc FM` after a shift has vacated the low bit. */
  method SetLowBit(zp: array<byte>)
    requires zp.Length == 256 && zp[FM] % 2 == 0
    modifies zp
    ensures Six(zp, FM) == old(Six(zp, FM)) + 1
    ensures forall i :: 0 <= i < 256 && i != FM ==> zp[i] == old(zp[i])
    ensures forall k :: 0 <= k <= 250 && (k + 6 <= FM || FM < k) ==> Six(zp, k) == old(Six(zp, k))
  {
    zp[FM] := Inc(zp[FM]);
  }

  /** `M6_CMP`: the bytes from the top down until two differ. */
  method Cmp6(zp: array<byte>) returns (c: bool)
    requires zp.Length == 256
    ensures c <==> Six(zp, FM) >= Six(zp, AM)
  {
    if zp[FM + 5] != zp[AM + 5] { return zp[FM + 5] >= zp[AM + 5]; }
    if zp[FM + 4] != zp[AM + 4] { return zp[FM + 4] >= zp[AM + 4]; }
    if zp[FM + 3] != zp[AM + 3] { return zp[FM + 3] >= zp[AM + 3]; }
    if zp[FM + 2] != zp[AM + 2] { return zp[FM + 2] >= zp[AM + 2]; }
    if zp[FM + 1] != zp[AM + 1] { return zp[FM + 1] >= zp[AM + 1]; }
    return zp[FM] >= zp[AM];
  }

  /** `FM_ISZERO` (and the same test on AM). */
  method IsZero6(zp: array<byte>, at: nat) returns (z: bool)
    requires zp.Length == 256 && at + 6 <= 256
    ensures z <==> Six(zp, at) == 0
  {
    z := zp[at] == 0 && zp[at + 1] == 0 && zp[at + 2] == 0 && zp[at + 3] == 0 && zp[at + 4] == 0 && zp[at + 5] == 0;
  }

  /** `M_GE_1E7`. */
  method Ge1e7(zp: array<byte>) returns (c: bool)
    requires zp.Length == 256
    ensures c <==> Six(zp, FM) >= TEN7
  {
    if !(zp[FM + 3] == 0 && zp[FM + 4] == 0 && zp[FM + 5] == 0) { return true; }
    if zp[FM + 2] != 0x98 { return zp[FM + 2] >= 0x98; }
    if zp[FM + 1] != 0x96 { return zp[FM + 1] >= 0x96; }
    return zp[FM] >= 0x80;
  }

  /** `M_LT_1E6`. */
  method Lt1e6(zp: array<byte>) returns (c: bool)
    requires zp.Length == 256
    ensures c <==> Six(zp, FM) < TEN6
  {
    if !(zp[FM + 3] == 0 && zp[FM + 4] == 0 && zp[FM + 5] == 0) { return false; }
    if zp[FM + 2] != 0x0F { return zp[FM + 2] < 0x0F; }
    if zp[FM + 1] != 0x42 { return zp[FM + 1] < 0x42; }
    return zp[FM] < 0x40;
  }

  /** Copying a block down from its last byte. */
  method Copy(zp: array<byte>, to: nat, from: nat, n: nat)
    requires zp.Length == 256 && to + n <= 256 && from + n <= 256
    requires to + n <= from || from + n <= to
    modifies zp
    ensures forall i :: to <= i < to + n ==> zp[i] == old(zp[i - to + from])
    ensures forall i :: 0 <= i < 256 && (i < to || to + n <= i) ==> zp[i] == old(zp[i])
  {
    var x := n;
    while x > 0
      invariant 0 <= x <= n
      invariant forall i :: to + x <= i < to + n ==> zp[i] == old(zp[i - to + from])
      invariant forall i :: 0 <= i < 256 && (i < to + x || to + n <= i) ==> zp[i] == old(zp[i])
    {
      x := x - 1;
      zp[to + x] := zp[from + x];
    }
  }

  lemma PackZero()
    ensures Pack(0, 0, 0, 0, 0, 0) == 0
  {
  }

  method Clear6(zp: array<byte>, at: nat)
    requires zp.Length == 256 && at + 6 <= 256
    modifies zp
    ensures Six(zp, at) == 0
    ensures forall i :: 0 <= i < 256 && (i < at || at + 6 <= i) ==> zp[i] == old(zp[i])
  {
    hide Pack;
    zp[at] := 0;
    zp[at + 1] := 0;
    zp[at + 2] := 0;
    zp[at + 3] := 0;
    zp[at + 4] := 0;
    zp[at + 5] := 0;
    PackZero();
  }

  /** `FM_MUL10`: eight times and twice, modulo 2^48. */
  method Mul10(zp: array<byte>)
    requires zp.Length == 256
    modifies zp
    ensures Six(zp, FM) == 10 * old(Six(zp, FM)) % TWO48
    ensures forall i :: 0 <= i < 256 && !(FM <= i < FM + 6) && !(MTMP <= i < MTMP + 6) ==> zp[i] == old(zp[i])
  {
    ghost var v := Six(zp, FM);
    Copy(zp, MTMP, FM, 6);
    assert Six(zp, MTMP) == v && Six(zp, FM) == v;
    var c := Asl6(zp, MTMP);
    ghost var twice, lost, shifted, over := Six(zp, MTMP), Bit(c), v, 0;
    var x := 3;
    while x > 0
      invariant 0 <= x <= 3 && over >= 0
      invariant shifted == (if x == 3 then v else if x == 2 then 2 * v else if x == 1 then 4 * v else 8 * v)
      invariant Six(zp, FM) + TWO48 * over == shifted
      invariant Six(zp, MTMP) == twice
      invariant forall i :: 0 <= i < 256 && !(FM <= i < FM + 6) && !(MTMP <= i < MTMP + 6) ==> zp[i] == old(zp[i])
    {
      c := Asl6(zp, FM);
      shifted, over := 2 * shifted, 2 * over + Bit(c);
      x := x - 1;
    }
    c := Add6(zp, FM, MTMP);
    ModUnique(10 * v, TWO48, over + lost + Bit(c), Six(zp, FM));
  }

  /** The body of the `FM_DIV10` loop. */
  method Div10Step(zp: array<byte>) returns (c: bool, bit: bool)
    requires zp.Length == 256 && zp[FTMP] < 10
    modifies zp
    ensures Six(zp, FM) + TWO48 * Bit(c) == 2 * old(Six(zp, FM)) + Bit(bit) && Six(zp, FM) >= Bit(bit)
    ensures zp[FTMP] == 2 * old(zp[FTMP]) + Bit(c) - (if bit then 10 else 0) && zp[FTMP] < 10
    ensures forall i :: 0 <= i < 256 && !(FM <= i < FM + 6) && i != FTMP ==> zp[i] == old(zp[i])
  {
    c := Asl6(zp, FM);
    var t := Rol(zp[FTMP], c);
    zp[FTMP] := t.val;
    bit := zp[FTMP] >= 10;
    if bit {
      zp[FTMP] := Sub8(zp[FTMP], 10, true).val;
      SetLowBit(zp);
    }
  }

  /** `FM_DIV10`: 48 shift-and-subtract steps leave quotient and remainder. */
  method Div10(zp: array<byte>) returns (r: byte)
    requires zp.Length == 256
    modifies zp
    ensures Six(zp, FM) == old(Six(zp, FM)) / 10 && r == old(Six(zp, FM)) % 10 && zp[FTMP] == r
    ensures forall i :: 0 <= i < 256 && !(FM <= i < FM + 6) && i != FTMP ==> zp[i] == old(zp[i])
  {
    hide Dividing, Pack;
    ghost var v := Six(zp, FM);
    zp[FTMP] := 0;
    assert Six(zp, FM) == v;
    ghost var q, l, s := 0, v, 1;
    var x := 48;
    DivStart(v, 10, TWO48);
    Pow48();
    while x > 0
      invariant 0 <= x <= 48
      invariant q >= 0 && l >= 0 && s >= 0
      invariant zp[FTMP] < 10
      invariant Dividing(v, 10, q, zp[FTMP], l, Pow2(x), s, q, Six(zp, FM), TWO48)
      invariant forall i :: 0 <= i < 256 && !(FM <= i < FM + 6) && i != FTMP ==> zp[i] == old(zp[i])
    {
      ghost var cells, r0 := Six(zp, FM), zp[FTMP];
      var c, bit := Div10Step(zp);
      DivStep(v, 10, q, r0, l, Pow2(x), s, q, cells, TWO48, Pow2(x - 1), c, bit, bit, zp[FTMP], Six(zp, FM));
      q, s, l := 2 * q + Bit(bit), 2 * s, l - Pow2(x - 1) * Bit(c);
      x := x - 1;
    }
    r := zp[FTMP];
    DivDone(v, 10, q, r, l, 1, s, q, Six(zp, FM), TWO48);
  }

  lemma Pow48()
    ensures Pow2(48) == TWO48
  {
    Pow24();
    Pow2Add(24, 24);
  }

  /** The `inc` ripple: one more byte's worth, modulo 2^48. */
  method Ripple(zp: array<byte>) returns (ghost over: bool)
    requires zp.Length == 256
    modifies zp
    ensures Six(zp, FM) + TWO48 * Bit(over) == old(Six(zp, FM)) + 256
    ensures forall i :: 0 <= i < 256 && !(FM <= i < FM + 6) ==> zp[i] == old(zp[i])
  {
    over := false;
    zp[FM + 1] := Inc(zp[FM + 1]);
    if zp[FM + 1] == 0 {
      zp[FM + 2] := Inc(zp[FM + 2]);
      if zp[FM + 2] == 0 {
        zp[FM + 3] := Inc(zp[FM + 3]);
        if zp[FM + 3] == 0 {
          zp[FM + 4] := Inc(zp[FM + 4]);
          if zp[FM + 4] == 0 {
            zp[FM + 5] := Inc(zp[FM + 5]);
            over := zp[FM + 5] == 0;
          }
        }
      }
    }
  }

  lemma Pushed(v: nat, m: nat, d: byte, over: bool, r: nat)
    requires m == 10 * v % TWO48 && r < TWO48 && r + TWO48 * Bit(over) == m + d
    ensures r == (10 * v + d) % TWO48
  {
    DivSplit(10 * v, TWO48);
    ModUnique(10 * v + d, TWO48, 10 * v / TWO48 + Bit(over), r);
  }

  /** `FM_PUSHDIG`: ten times plus a digit, modulo 2^48. */
  method PushDigit(zp: array<byte>, d: byte)
    requires zp.Length == 256
    modifies zp
    ensures Six(zp, FM) == (10 * old(Six(zp, FM)) + d) % TWO48
    ensures forall i :: 0 <= i < 256 && !(FM <= i < FM + 6) && !(MTMP <= i < MTMP + 6) ==> zp[i] == old(zp[i])
  {
    ghost var v := Six(zp, FM);
    Mul10(zp);
    ghost var m, over := Six(zp, FM), false;
    var r := Add8(zp[FM], d, false);
    zp[FM] := r.val;
    assert Six(zp, FM) + 256 * Bit(r.carry) == m + d;
    if r.carry {
      over := Ripple(zp);
    }
    Pushed(v, m, d, over, Six(zp, FM));
  }

  /** Four `rol`s carry a bit into the 32-bit remainder. */
  method Rol4(zp: array<byte>, at: nat, cin: bool)
    requires zp.Length == 256 && at + 4 <= 256
    requires Four(zp, at) < 0x8000_0000
    modifies zp
    ensures Four(zp, at) == 2 * old(Four(zp, at)) + Bit(cin)
    ensures forall i :: 0 <= i < 256 && (i < at || at + 4 <= i) ==> zp[i] == old(zp[i])
  {
    var r := Rol(zp[at], cin);
    zp[at] := r.val;
    r := Rol(zp[at + 1], r.carry);
    zp[at + 1] := r.val;
    r := Rol(zp[at + 2], r.carry);
    zp[at + 2] := r.val;
    r := Rol(zp[at + 3], r.carry);
    zp[at + 3] := r.val;
  }

  /** The compare chain of `DIV_48_24`: does the remainder hold the divisor? */
  method Fits(zp: array<byte>) returns (b: bool)
    requires zp.Length == 256
    ensures b <==> Four(zp, AM) >= Three(zp, MTMP2)
  {
    if zp[AM + 3] != 0 { return true; }
    if zp[AM + 2] != zp[MTMP2 + 2] { return zp[AM + 2] >= zp[MTMP2 + 2]; }
    if zp[AM + 1] != zp[MTMP2 + 1] { return zp[AM + 1] >= zp[MTMP2 + 1]; }
    return zp[AM] >= zp[MTMP2];
  }

  method TakeOff(zp: array<byte>)
    requires zp.Length == 256 && Four(zp, AM) >= Three(zp, MTMP2)
    modifies zp
    ensures Four(zp, AM) == old(Four(zp, AM)) - Three(zp, MTMP2)
    ensures forall i :: 0 <= i < 256 && (i < AM || AM + 4 <= i) ==> zp[i] == old(zp[i])
  {
    var r := Sub8(zp[AM], zp[MTMP2], true);
    zp[AM] := r.val;
    r := Sub8(zp[AM + 1], zp[MTMP2 + 1], r.carry);
    zp[AM + 1] := r.val;
    r := Sub8(zp[AM + 2], zp[MTMP2 + 2], r.carry);
    zp[AM + 2] := r.val;
    r := Sub8(zp[AM + 3], 0, r.carry);
    zp[AM + 3] := r.val;
  }

  method ClearRemainder(zp: array<byte>)
    requires zp.Length == 256
    modifies zp
    ensures Four(zp, AM) == 0
    ensures forall i :: 0 <= i < 256 && (i < AM || AM + 4 <= i) ==> zp[i] == old(zp[i])
  {
    hide Pack;
    zp[AM] := 0;
    zp[AM + 1] := 0;
    zp[AM + 2] := 0;
    zp[AM + 3] := 0;
    PackZero();
  }

  /** The body of the `DIV_48_24` loop. */
  method DivideStep(zp: array<byte>) returns (c: bool, bit: bool)
    requires zp.Length == 256 && Four(zp, AM) < Three(zp, MTMP2)
    modifies zp
    ensures Six(zp, FM) + TWO48 * Bit(c) == 2 * old(Six(zp, FM)) + Bit(bit) && Six(zp, FM) >= Bit(bit)
    ensures Three(zp, MTMP2) == old(Three(zp, MTMP2))
    ensures Four(zp, AM) == 2 * old(Four(zp, AM)) + Bit(c) - (if bit then Three(zp, MTMP2) else 0)
    ensures Four(zp, AM) < Three(zp, MTMP2)
    ensures forall i :: 0 <= i < 256 && !(FM <= i < FM + 6) && !(AM <= i < AM + 4) ==> zp[i] == old(zp[i])
  {
    hide Pack;
    c := Asl6(zp, FM);
    assert Four(zp, AM) == old(Four(zp, AM));
    ghost var up := Six(zp, FM);
    Rol4(zp, AM, c);
    assert Six(zp, FM) == up && Three(zp, MTMP2) == old(Three(zp, MTMP2));
    bit := Fits(zp);
    if bit {
      TakeOff(zp);
      assert Six(zp, FM) == up;
      SetLowBit(zp);
    }
  }

  /** `DIV_48_24`: the quotient in FM, the remainder in AM. */
  method Divide(zp: array<byte>)
    requires zp.Length == 256 && Three(zp, MTMP2) > 0
    modifies zp
    ensures Six(zp, FM) == old(Six(zp, FM)) / old(Three(zp, MTMP2))
    ensures Four(zp, AM) == old(Six(zp, FM)) % old(Three(zp, MTMP2))
    ensures forall i :: 0 <= i < 256 && !(FM <= i < FM + 6) && !(AM <= i < AM + 4) ==> zp[i] == old(zp[i])
  {
    hide Dividing, Pack;
    ghost var v, d := Six(zp, FM), Three(zp, MTMP2);
    ClearRemainder(zp);
    assert Six(zp, FM) == v && Three(zp, MTMP2) == d;
    ghost var q, l, s := 0, v, 1;
    var x := 48;
    DivStart(v, d, TWO48);
    Pow48();
    while x > 0
      invariant 0 <= x <= 48
      invariant q >= 0 && l >= 0 && s >= 0
      invariant Four(zp, AM) < d == Three(zp, MTMP2)
      invariant Dividing(v, d, q, Four(zp, AM), l, Pow2(x), s, q, Six(zp, FM), TWO48)
      invariant forall i :: 0 <= i < 256 && !(FM <= i < FM + 6) && !(AM <= i < AM + 4) ==> zp[i] == old(zp[i])
    {
      ghost var cells, r0 := Six(zp, FM), Four(zp, AM);
      var c, bit := DivideStep(zp);
      DivStep(v, d, q, r0, l, Pow2(x), s, q, cells, TWO48, Pow2(x - 1), c, bit, bit, Four(zp, AM), Six(zp, FM));
      q, s, l := 2 * q + Bit(bit), 2 * s, l - Pow2(x - 1) * Bit(c);
      x := x - 1;
    }
    DivDone(v, d, q, Four(zp, AM), l, 1, s, q, Six(zp, FM), TWO48);
  }

  /** `lsr`, `ror`, `ror`: one multiplier bit out of the low three bytes of AM. */
  method Lsr3(zp: array<byte>, at: nat) returns (c: bool)
    requires zp.Length == 256 && at + 3 <= 256
    modifies zp
    ensures 2 * Three(zp, at) + Bit(c) == old(Three(zp, at))
    ensures forall i :: 0 <= i < 256 && (i < at || at + 3 <= i) ==> zp[i] == old(zp[i])
  {
    hide Lsr, Ror, Pack;
    ghost var b0, b1, b2 := zp[at], zp[at + 1], zp[at + 2];
    var r2 := Lsr(zp[at + 2]);
    zp[at + 2] := r2.val;
    var r1 := Ror(zp[at + 1], r2.carry);
    zp[at + 1] := r1.val;
    var r0 := Ror(zp[at], r1.carry);
    zp[at] := r0.val;
    c := r0.carry;
    Halves(b0, b1, b2, r0, r1, r2);
  }

  lemma Halves(b0: byte, b1: byte, b2: byte, r0: Out, r1: Out, r2: Out)
    requires r2 == Lsr(b2) && r1 == Ror(b1, r2.carry) && r0 == Ror(b0, r1.carry)
    ensures 2 * Pack(r0.val, r1.val, r2.val, 0, 0, 0) + Bit(r0.carry) == Pack(b0, b1, b2, 0, 0, 0)
  {
    hide Lsr, Ror;
  }

  /** The body of the `MUL_2424` loop: add the multiplicand if the multiplier bit is set, then double it. */
  method MultiplyStep(zp: array<byte>) returns (c: bool, ghost k: nat, ghost j: nat)
    requires zp.Length == 256
    modifies zp
    ensures 2 * Three(zp, AM) + Bit(c) == old(Three(zp, AM))
    ensures Six(zp, FM) + TWO48 * k == old(Six(zp, FM)) + (if c then old(Six(zp, MTMP)) else 0)
    ensures Six(zp, MTMP) + TWO48 * j == 2 * old(Six(zp, MTMP))
    ensures forall i :: 0 <= i < 256 && !(FM <= i < FM + 6) && !(AM <= i < AM + 3) && !(MTMP <= i < MTMP + 6)
                        ==> zp[i] == old(zp[i])
  {
    hide Pack;
    c := Lsr3(zp, AM);
    assert Six(zp, FM) == old(Six(zp, FM)) && Six(zp, MTMP) == old(Six(zp, MTMP));
    ghost var a := Three(zp, AM);
    k := 0;
    if c {
      var o := Add6(zp, FM, MTMP);
      k := Bit(o);
      assert Three(zp, AM) == a;
    }
    var o := Asl6(zp, MTMP);
    assert Three(zp, AM) == a;
    j := Bit(o);
  }

  /** `MUL_2424`: the product of the mantissas (the multiplier's low 24 bits), modulo 2^48. */
  method Multiply(zp: array<byte>)
    requires zp.Length == 256
    modifies zp
    ensures Six(zp, FM) == old(Six(zp, FM)) * old(Three(zp, AM)) % TWO48
    ensures forall i :: 0 <= i < 256 && !(FM <= i < FM + 6) && !(AM <= i < AM + 3) && !(MTMP <= i < MTMP + 6)
                        ==> zp[i] == old(zp[i])
  {
    hide Pack;
    ghost var total := Six(zp, FM) * Three(zp, AM);
    Copy(zp, MTMP, FM, 6);
    assert Six(zp, MTMP) == old(Six(zp, FM)) && Three(zp, AM) == old(Three(zp, AM));
    Clear6(zp, FM);
    assert Six(zp, MTMP) == old(Six(zp, FM)) && Three(zp, AM) == old(Three(zp, AM));
    ghost var t := 0;
    var x := 24;
    Pow24();
    while x > 0
      invariant 0 <= x <= 24 && Three(zp, AM) < Pow2(x)
      invariant Six(zp, FM) + Six(zp, MTMP) * Three(zp, AM) == total - TWO48 * t
      invariant forall i :: 0 <= i < 256 && !(FM <= i < FM + 6) && !(AM <= i < AM + 3) && !(MTMP <= i < MTMP + 6)
                            ==> zp[i] == old(zp[i])
    {
      ghost var fm, mt := Six(zp, FM), Six(zp, MTMP);
      var c, k, j := MultiplyStep(zp);
      MulStep(total, fm, mt, Three(zp, AM), t, TWO48, c, Six(zp, FM), k, Six(zp, MTMP), j);
      t := t + k + j * Three(zp, AM);
      x := x - 1;
    }
    assert Six(zp, MTMP) * 0 == 0;
    ModUnique(total, TWO48, t, Six(zp, FM));
  }

  lemma Pow24()
    ensures Pow2(24) == TWO24
  {
    assert Pow2(8) == 256;
    Pow2Add(8, 8);
    Pow2Add(8, 16);
  }
}
