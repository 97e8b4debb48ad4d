/** The 16-bit arithmetic of the integer BASICs over zero-page cells: value stack, shift-add multiply, bit-serial
    signed divide, and decimal numbers in and out. */
module BasicCells {
  import opened Bits
  import opened Alu
  import opened Serial

  const ESTKP := 0x0A
  const ESTACK := 0x0B
  const AR := 0x23
  const VARS := 0x40
  const SP1 := 0x74
  const SP2 := 0x76
  const PDEPTH := 0x78

  const TWO16 := 0x1_0000

  /** The pair at a cell. */
  function Pair(zp: array<byte>, at: nat): (r: word)
    requires at + 2 <= zp.Length
    reads zp
  {
    Wide(zp[at], zp[at + 1])
  }

  function ToWord(v: int): word { v % TWO16 }

  /** Division truncated toward zero; by zero gives zero. */
  function TruncDiv(a: int, b: int): int {
    if b == 0 then 0
    else
      var q := (if a < 0 then -a else a) / (if b < 0 then -b else b);
      if (a < 0) == (b < 0) then q else -q
  }

  // ---- pairs ----

  method SetPair(zp: array<byte>, to: nat, from: nat)
    requires zp.Length == 256 && to + 2 <= 256 && from + 2 <= 256 && (to + 2 <= from || from + 2 <= to)
    modifies zp
    ensures Pair(zp, to) == old(Pair(zp, from))
    ensures forall i :: 0 <= i < 256 && i != to && i != to + 1 ==> zp[i] == old(zp[i])
  {
    zp[to] := zp[from];
    zp[to + 1] := zp[from + 1];
  }

  method ClearPair(zp: array<byte>, at: nat)
    requires zp.Length == 256 && at + 2 <= 256
    modifies zp
    ensures Pair(zp, at) == 0
    ensures forall i :: 0 <= i < 256 && i != at && i != at + 1 ==> zp[i] == old(zp[i])
  {
    zp[at] := 0;
    zp[at + 1] := 0;
  }

  /** `rol` (or `asl`, with the carry clear) and `rol`. */
  method RolPair(zp: array<byte>, at: nat, cin: bool) returns (c: bool)
    requires zp.Length == 256 && at + 2 <= 256
    modifies zp
    ensures Pair(zp, at) + TWO16 * Bit(c) == 2 * old(Pair(zp, at)) + Bit(cin)
    ensures forall i :: 0 <= i < 256 && i != at && i != at + 1 ==> zp[i] == old(zp[i])
  {
    hide Rol;
    var r0 := Rol(zp[at], cin);
    zp[at] := r0.val;
    var r1 := Rol(zp[at + 1], r0.carry);
    zp[at + 1] := r1.val;
    c := r1.carry;
  }

  /** `lsr` and `ror`, from the top. */
  method LsrPair(zp: array<byte>, at: nat) returns (c: bool)
    requires zp.Length == 256 && at + 2 <= 256
    modifies zp
    ensures 2 * Pair(zp, at) + Bit(c) == old(Pair(zp, at))
    ensures forall i :: 0 <= i < 256 && i != at && i != at + 1 ==> zp[i] == old(zp[i])
  {
    hide Lsr, Ror;
    var r1 := Lsr(zp[at + 1]);
    zp[at + 1] := r1.val;
    var r0 := Ror(zp[at], r1.carry);
    zp[at] := r0.val;
    c := r0.carry;
  }

  /** `to` := `x` + `y` by two `adc`s. */
  method AddPair(zp: array<byte>, to: nat, x: nat, y: nat) returns (c: bool)
    requires zp.Length == 256 && to + 2 <= 256 && x + 2 <= 256 && y + 2 <= 256
    requires (to == x || to + 2 <= x || x + 2 <= to) && (to == y || to + 2 <= y || y + 2 <= to)
    modifies zp
    ensures Pair(zp, to) + TWO16 * Bit(c) == old(Pair(zp, x)) + old(Pair(zp, y))
    ensures forall i :: 0 <= i < 256 && i != to && i != to + 1 ==> zp[i] == old(zp[i])
  {
    hide Add8;
    var r0 := Add8(zp[x], zp[y], false);
    zp[to] := r0.val;
    var r1 := Add8(zp[x + 1], zp[y + 1], r0.carry);
    zp[to + 1] := r1.val;
    c := r1.carry;
  }

  /** `to` := `x` - `y` by two `sbc`s; the carry is "no borrow". */
  method SubPair(zp: array<byte>, to: nat, x: nat, y: nat) returns (c: bool)
    requires zp.Length == 256 && to + 2 <= 256 && x + 2 <= 256 && y + 2 <= 256
    requires (to == x || to + 2 <= x || x + 2 <= to) && (to == y || to + 2 <= y || y + 2 <= to)
    modifies zp
    ensures Pair(zp, to) == old(Pair(zp, x)) - old(Pair(zp, y)) + TWO16 * (1 - Bit(c))
    ensures forall i :: 0 <= i < 256 && i != to && i != to + 1 ==> zp[i] == old(zp[i])
  {
    hide Sub8;
    var r0 := Sub8(zp[x], zp[y], true);
    zp[to] := r0.val;
    var r1 := Sub8(zp[x + 1], zp[y + 1], r0.carry);
    zp[to + 1] := r1.val;
    c := r1.carry;
  }

  /** The comparison of pairs by subtraction: no borrow exactly when `x` is not below `y`. */
  method GreaterEqual(zp: array<byte>, x: nat, y: nat) returns (c: bool)
    requires zp.Length == 256 && x + 2 <= 256 && y + 2 <= 256
    ensures c <==> Pair(zp, x) >= Pair(zp, y)
  {
    hide Sub8;
    var r0 := Sub8(zp[x], zp[y], true);
    var r1 := Sub8(zp[x + 1], zp[y + 1], r0.carry);
    c := r1.carry;
  }

  /** `lda #0 / sec / sbc`, twice. */
  method NegPair(zp: array<byte>, at: nat)
    requires zp.Length == 256 && at + 2 <= 256
    modifies zp
    ensures Pair(zp, at) == Negated(old(Pair(zp, at)))
    ensures forall i :: 0 <= i < 256 && i != at && i != at + 1 ==> zp[i] == old(zp[i])
  {
    hide Sub8;
    var r0 := Sub8(0, zp[at], true);
    zp[at] := r0.val;
    var r1 := Sub8(0, zp[at + 1], r0.carry);
    zp[at + 1] := r1.val;
  }

  // ---- the value stack ----

  /** Entry `k` of the value stack. */
  function StackedWord(zp: array<byte>, k: nat): word
    requires zp.Length == 256 && k < 8
    reads zp
  {
    Pair(zp, ESTACK + 2 * k)
  }

  /** `ev_push`. */
  method Push(zp: array<byte>)
    requires zp.Length == 256 && zp[ESTKP] < 8
    modifies zp
    ensures zp[ESTKP] == old(zp[ESTKP]) + 1 && StackedWord(zp, old(zp[ESTKP])) == old(Pair(zp, AR))
    ensures forall i :: 0 <= i < 256 && i != ESTKP && i != ESTACK + 2 * old(zp[ESTKP]) && i != ESTACK + 2 * old(zp[ESTKP]) + 1
                        ==> zp[i] == old(zp[i])
  {
    var y: nat := Asl(zp[ESTKP]).val;
    zp[ESTACK + y] := zp[AR];
    zp[ESTACK + y + 1] := zp[AR + 1];
    zp[ESTKP] := Inc(zp[ESTKP]);
  }

  /** `ev_pop`. */
  method Pop(zp: array<byte>)
    requires zp.Length == 256 && 0 < zp[ESTKP] <= 8
    modifies zp
    ensures zp[ESTKP] == old(zp[ESTKP]) - 1 && Pair(zp, AR + 2) == old(StackedWord(zp, zp[ESTKP] - 1))
    ensures forall i :: 0 <= i < 256 && i != ESTKP && i != AR + 2 && i != AR + 3 ==> zp[i] == old(zp[i])
  {
    zp[ESTKP] := Dec(zp[ESTKP]);
    var y: nat := Asl(zp[ESTKP]).val;
    zp[AR + 2] := zp[ESTACK + y];
    zp[AR + 3] := zp[ESTACK + y + 1];
  }

  /** `ev_pop_add`. */
  method PopAdd(zp: array<byte>)
    requires zp.Length == 256 && 0 < zp[ESTKP] <= 8
    modifies zp
    ensures zp[ESTKP] == old(zp[ESTKP]) - 1
    ensures Pair(zp, AR) == ToWord(old(StackedWord(zp, zp[ESTKP] - 1)) + old(Pair(zp, AR)))
    ensures forall i :: 0 <= i < 256 && i != ESTKP && !(AR <= i < AR + 4) ==> zp[i] == old(zp[i])
  {
    hide Wide;
    Pop(zp);
    ghost var x, y: int := Pair(zp, AR + 2), Pair(zp, AR);
    var c := AddPair(zp, AR, AR + 2, AR);
    ModUnique(x + y, TWO16, Bit(c), Pair(zp, AR));
  }

  /** `ev_pop_sub`. */
  method PopSub(zp: array<byte>)
    requires zp.Length == 256 && 0 < zp[ESTKP] <= 8
    modifies zp
    ensures zp[ESTKP] == old(zp[ESTKP]) - 1
    ensures Pair(zp, AR) == ToWord(old(StackedWord(zp, zp[ESTKP] - 1)) - old(Pair(zp, AR)))
    ensures forall i :: 0 <= i < 256 && i != ESTKP && !(AR <= i < AR + 4) ==> zp[i] == old(zp[i])
  {
    hide Wide;
    Pop(zp);
    ghost var x, y: int := Pair(zp, AR + 2), Pair(zp, AR);
    var c := SubPair(zp, AR, AR + 2, AR);
    ModUnique(x - y, TWO16, Bit(c) - 1, Pair(zp, AR));
  }

  // ---- multiplication ----

  /** The body of the `ev_pop_mul` loop. */
  method MulTurn(zp: array<byte>) returns (c: bool, ghost k: nat, ghost j: nat)
    requires zp.Length == 256
    modifies zp
    ensures 2 * Pair(zp, AR + 2) + Bit(c) == old(Pair(zp, AR + 2))
    ensures Pair(zp, AR + 4) + TWO16 * k == old(Pair(zp, AR + 4)) + (if c then old(Pair(zp, AR)) else 0)
    ensures Pair(zp, AR) + TWO16 * j == 2 * old(Pair(zp, AR))
    ensures forall i :: 0 <= i < 256 && !(AR <= i < AR + 6) ==> zp[i] == old(zp[i])
  {
    c := LsrPair(zp, AR + 2);
    k := 0;
    if c {
      var o := AddPair(zp, AR + 4, AR + 4, AR);
      k := Bit(o);
    }
    var o := RolPair(zp, AR, false);
    j := Bit(o);
  }

  /** The `ev_pop_mul` loop: the product modulo 2^16. */
  method MulLoop(zp: array<byte>)
    requires zp.Length == 256 && Pair(zp, AR + 4) == 0
    modifies zp
    ensures Pair(zp, AR + 4) == ToWord(old(Pair(zp, AR + 2)) * old(Pair(zp, AR)))
    ensures forall i :: 0 <= i < 256 && !(AR <= i < AR + 6) ==> zp[i] == old(zp[i])
  {
    hide Wide;
    ghost var total := Pair(zp, AR) * Pair(zp, AR + 2);
    ghost var t: int := 0;
    var x := 16;
    assert Pow2(16) == TWO16 by { Pow16(); }
    while x > 0
      invariant 0 <= x <= 16 && Pair(zp, AR + 2) < Pow2(x)
      invariant Pair(zp, AR + 4) + Pair(zp, AR) * Pair(zp, AR + 2) == total - TWO16 * t
      invariant forall i :: 0 <= i < 256 && !(AR <= i < AR + 6) ==> zp[i] == old(zp[i])
    {
      ghost var fm, mt := Pair(zp, AR + 4), Pair(zp, AR);
      var c, k, j := MulTurn(zp);
      MulStep(total, fm, mt, Pair(zp, AR + 2), t, TWO16, c, Pair(zp, AR + 4), k, Pair(zp, AR), j);
      t := t + k + j * Pair(zp, AR + 2);
      x := x - 1;
    }
    assert Pair(zp, AR) * 0 == 0;
    ModUnique(total, TWO16, t, Pair(zp, AR + 4));
    Commute(old(Pair(zp, AR)), old(Pair(zp, AR + 2)));
  }

  lemma Commute(x: int, y: int)
    ensures x * y == y * x
  {
  }

  lemma Pow16()
    ensures Pow2(16) == TWO16
  {
    assert Pow2(8) == 256;
    Pow2Add(8, 8);
  }

  /** `ev_pop_mul`. */
  method PopMul(zp: array<byte>)
    requires zp.Length == 256 && 0 < zp[ESTKP] <= 8
    modifies zp
    ensures zp[ESTKP] == old(zp[ESTKP]) - 1
    ensures Pair(zp, AR) == ToWord(old(StackedWord(zp, zp[ESTKP] - 1)) * old(Pair(zp, AR)))
    ensures forall i :: 0 <= i < 256 && i != ESTKP && !(AR <= i < AR + 6) ==> zp[i] == old(zp[i])
  {
    hide ToWord;
    Pop(zp);
    ClearPair(zp, AR + 4);
    MulLoop(zp);
    SetPair(zp, AR, AR + 4);
  }

  // ---- division ----

  /** The body of the `ev_pop_div` loop: dividend in AR+2, quotient in AR+4, remainder in SP1, divisor in SP2. */
  method DivTurn(zp: array<byte>) returns (c: bool, bit: bool)
    requires zp.Length == 256 && Pair(zp, SP1) < Pair(zp, SP2) <= 0x8000 && Pair(zp, AR + 4) < 0x8000
    modifies zp
    ensures Pair(zp, AR + 2) + TWO16 * Bit(c) == 2 * old(Pair(zp, AR + 2))
    ensures Pair(zp, AR + 4) == 2 * old(Pair(zp, AR + 4)) + Bit(bit)
    ensures Pair(zp, SP1) == 2 * old(Pair(zp, SP1)) + Bit(c) - (if bit then Pair(zp, SP2) else 0)
    ensures Pair(zp, SP1) < Pair(zp, SP2) == old(Pair(zp, SP2))
    ensures forall i :: 0 <= i < 256 && !(AR + 2 <= i < AR + 6) && i != SP1 && i != SP1 + 1 ==> zp[i] == old(zp[i])
  {
    c := RolPair(zp, AR + 2, false);
    var o := RolPair(zp, SP1, c);
    o := RolPair(zp, AR + 4, false);
    bit := GreaterEqual(zp, SP1, SP2);
    if bit {
      o := SubPair(zp, SP1, SP1, SP2);
      zp[AR + 4] := Inc(zp[AR + 4]);
    }
  }

  /** The `ev_pop_div` loop: quotient and remainder of magnitudes. */
  method DivLoop(zp: array<byte>)
    requires zp.Length == 256 && 0 < Pair(zp, SP2) <= 0x8000 && Pair(zp, AR + 4) == 0 && Pair(zp, SP1) == 0
    modifies zp
    ensures Pair(zp, AR + 4) == old(Pair(zp, AR + 2)) / old(Pair(zp, SP2))
    ensures Pair(zp, SP1) == old(Pair(zp, AR + 2)) % old(Pair(zp, SP2))
    ensures forall i :: 0 <= i < 256 && !(AR + 2 <= i < AR + 6) && i != SP1 && i != SP1 + 1 ==> zp[i] == old(zp[i])
  {
    hide Wide, Dividing;
    ghost var v, d := Pair(zp, AR + 2), Pair(zp, SP2);
    ghost var l: nat, s: nat := v, 1;
    var x := 16;
    Pow16();
    DivStart(v, d, TWO16);
    while x > 0
      invariant 0 <= x <= 16 && l >= 0 && s == Pow2(16 - x)
      invariant Pair(zp, SP1) < d == Pair(zp, SP2)
      invariant Pair(zp, AR + 4) < s
      invariant Dividing(v, d, Pair(zp, AR + 4), Pair(zp, SP1), l, Pow2(x), s, 0, Pair(zp, AR + 2), TWO16)
      invariant forall i :: 0 <= i < 256 && !(AR + 2 <= i < AR + 6) && i != SP1 && i != SP1 + 1 ==> zp[i] == old(zp[i])
    {
      ghost var cells, q0, r0 := Pair(zp, AR + 2), Pair(zp, AR + 4), Pair(zp, SP1);
      Below16(16 - x);
      var c, bit := DivTurn(zp);
      DivStep(v, d, q0, r0, l, Pow2(x), s, 0, cells, TWO16, Pow2(x - 1), c, bit, false, Pair(zp, SP1), Pair(zp, AR + 2));
      s, l := 2 * s, l - Pow2(x - 1) * Bit(c);
      x := x - 1;
    }
    DivDone(v, d, Pair(zp, AR + 4), Pair(zp, SP1), l, 1, s, 0, Pair(zp, AR + 2), TWO16);
  }

  lemma Below16(k: nat)
    requires k < 16
    ensures Pow2(k) <= 0x8000
  {
    Pow16();
    Pow2Mono(k, 16);
  }

  /** Magnitude of a pair, in place. */
  method AbsPair(zp: array<byte>, at: nat)
    requires zp.Length == 256 && at + 2 <= 256
    modifies zp
    ensures var x := S16(old(Pair(zp, at))); Pair(zp, at) == if x < 0 then -x else x
    ensures forall i :: 0 <= i < 256 && i != at && i != at + 1 ==> zp[i] == old(zp[i])
  {
    hide Wide, S16;
    HighBit(zp[at], zp[at + 1]);
    NegatedSigned(Pair(zp, at));
    if zp[at + 1] >= 128 {
      NegPair(zp, at);
    }
  }

  lemma NegatedSigned(x: word)
    ensures if S16(x) < 0 then Negated(x) == 0 - S16(x) else x == S16(x)
  {
  }

  lemma HighBit(lo: byte, hi: byte)
    ensures hi >= 128 <==> S16(Wide(lo, hi)) < 0
  {
  }

  /** `ev_pop_div`. */
  method PopDiv(zp: array<byte>)
    requires zp.Length == 256 && 0 < zp[ESTKP] <= 8
    modifies zp
    ensures zp[ESTKP] == old(zp[ESTKP]) - 1
    ensures Pair(zp, AR) == ToWord(TruncDiv(S16(old(StackedWord(zp, zp[ESTKP] - 1))), S16(old(Pair(zp, AR)))))
    ensures forall i :: 0 <= i < 256 && i != ESTKP && !(AR <= i < AR + 6) && !(SP1 <= i < SP2 + 2) ==> zp[i] == old(zp[i])
  {
    hide TruncDiv, ToWord, S16, Negated;
    Pop(zp);
    ghost var x, y := S16(Pair(zp, AR + 2)), S16(Pair(zp, AR));
    Divisor(zp[AR], zp[AR + 1]);
    if zp[AR] == 0 && zp[AR + 1] == 0 {
      ClearPair(zp, AR);
      ByZero(x);
      return;
    }
    HighBit(zp[AR], zp[AR + 1]);
    HighBit(zp[AR + 2], zp[AR + 3]);
    var negative := (zp[AR + 1] >= 128) != (zp[AR + 3] >= 128);
    AbsPair(zp, AR);
    AbsPair(zp, AR + 2);
    ClearPair(zp, AR + 4);
    ClearPair(zp, SP1);
    SetPair(zp, SP2, AR);
    Magnitudes(y);
    DivLoop(zp);
    SetPair(zp, AR, AR + 4);
    Quotients(x, y);
    if negative {
      NegPair(zp, AR);
    }
  }

  lemma Divisor(lo: byte, hi: byte)
    ensures lo == 0 && hi == 0 <==> S16(Wide(lo, hi)) == 0
    ensures -0x8000 <= S16(Wide(lo, hi)) < 0x8000
  {
  }

  lemma ByZero(x: int)
    ensures ToWord(TruncDiv(x, 0)) == 0
  {
  }

  lemma Magnitudes(y: int)
    requires -0x8000 <= y < 0x8000 && y != 0
    ensures 0 < (if y < 0 then -y else y) <= 0x8000
  {
  }

  lemma Quotients(x: int, y: int)
    requires y != 0
    ensures var q := (if x < 0 then -x else x) / (if y < 0 then -y else y);
            TruncDiv(x, y) == (if (x < 0) == (y < 0) then q else -q)
            && (0 <= q < TWO16 ==> ToWord(q) == q && ToWord(-q) == Negated(q))
  {
  }
}
