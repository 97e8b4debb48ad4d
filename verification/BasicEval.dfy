/** The BASIC evaluator as it runs: the left operands of binary operators on the zero-page value stack. */
module BasicEval {
  import opened Bits
  import opened Text
  import opened Alu
  import opened BasicCells
  import opened BasicExpr

  /** The cells of the variables A to Z. */
  function Vars(zp: array<byte>): (r: seq<byte>)
    requires zp.Length == 256
    reads zp
    ensures |r| == 52
  {
    zp[VARS..VARS + 52]
  }

  /** Room on the value stack for what an evaluation needs. */
  predicate Room(zp: array<byte>, need: nat)
    requires zp.Length == 256
    reads zp
  {
    need + zp[ESTKP] <= 8
  }

  /** The cells an evaluation may change: the arithmetic pairs and the value stack from entry `depth` up. */
  predicate Scratch(k: nat, depth: nat) {
    ESTACK + 2 * depth <= k < ESTACK + 16 || AR <= k < AR + 6 || SP1 <= k < SP2 + 2
  }

  /** An evaluation changes nothing but the arithmetic cells and the free part of the value stack. */
  twostate predicate Kept(zp: array<byte>)
    requires zp.Length == 256
    reads zp
  {
    forall k :: 0 <= k < 256 && !Scratch(k, old(zp[ESTKP])) ==> zp[k] == old(zp[k])
  }

  /** The method's answer against the evaluator's. */
  predicate Gives(zp: array<byte>, j: nat, r: Result)
    requires zp.Length == 256
    reads zp
  {
    Pair(zp, AR) == r.v && j == r.i
  }

  method SkipSpaces(s: string, i: nat) returns (j: nat)
    ensures j == Skip(s, i)
  {
    j := i;
    while IsSpace(Peek(s, j))
      invariant j >= i && Skip(s, j) == Skip(s, i)
      decreases |s| - j
    {
      j := j + 1;
    }
  }

  lemma TenTimes(ar: word, d: byte)
    requires d < 10
    ensures var two := 2 * ar % TWO16;
            var eight := 4 * two % TWO16;
            ((eight + two) % TWO16 + d) % TWO16 == (10 * ar + d) % TWO16
  {
    DivSplit(2 * ar, TWO16);
    var two, a := 2 * ar % TWO16, 2 * ar / TWO16;
    DivSplit(4 * two, TWO16);
    var eight, b := 4 * two % TWO16, 4 * two / TWO16;
    DivSplit(eight + two, TWO16);
    var ten, c := (eight + two) % TWO16, (eight + two) / TWO16;
    DivSplit(ten + d, TWO16);
    ModUnique(10 * ar + d, TWO16, 5 * a + b + c + (ten + d) / TWO16, (ten + d) % TWO16);
  }

  /** AR := 2 * AR and AR := 8 * AR, twice AR kept in AR+4. */
  method TwiceAndEight(zp: array<byte>)
    requires zp.Length == 256
    modifies zp
    ensures Pair(zp, AR + 4) == 2 * old(Pair(zp, AR)) % TWO16
    ensures Pair(zp, AR) == 4 * Pair(zp, AR + 4) % TWO16
    ensures forall k :: 0 <= k < 256 && !(AR <= k < AR + 6) ==> zp[k] == old(zp[k])
  {
    hide Wide;
    ghost var v: int := Pair(zp, AR);
    SetPair(zp, AR + 2, AR);
    var c := RolPair(zp, AR, false);
    ghost var two: int := Pair(zp, AR);
    ModUnique(2 * v, TWO16, Bit(c), two);
    SetPair(zp, AR + 4, AR);
    c := RolPair(zp, AR, false);
    ghost var b := Bit(c);
    c := RolPair(zp, AR, false);
    ModUnique(4 * two, TWO16, 2 * b + Bit(c), Pair(zp, AR));
    assert Pair(zp, AR + 4) == two;
  }

  /** AR := 10 * AR + digit, by shifts and adds. */
  method PushDigit(zp: array<byte>, d: byte)
    requires zp.Length == 256 && d < 10
    modifies zp
    ensures Pair(zp, AR) == (10 * old(Pair(zp, AR)) + d) % TWO16
    ensures forall k :: 0 <= k < 256 && !(AR <= k < AR + 6) ==> zp[k] == old(zp[k])
  {
    hide Wide;
    ghost var v: word := Pair(zp, AR);
    TwiceAndEight(zp);
    ghost var two: int, eight: int := Pair(zp, AR + 4), Pair(zp, AR);
    var c := AddPair(zp, AR, AR, AR + 4);
    ModUnique(eight + two, TWO16, Bit(c), Pair(zp, AR));
    AddDigit(zp, d);
    TenTimes(v, d);
  }

  /** `adc` the digit, and `inc` the high byte on carry. */
  method AddDigit(zp: array<byte>, d: byte)
    requires zp.Length == 256
    modifies zp
    ensures Pair(zp, AR) == (old(Pair(zp, AR)) + d) % TWO16
    ensures forall k :: 0 <= k < 256 && k != AR && k != AR + 1 ==> zp[k] == old(zp[k])
  {
    ghost var v: int := Pair(zp, AR);
    var r := Add8(d, zp[AR], false);
    zp[AR] := r.val;
    if r.carry {
      zp[AR + 1] := Inc(zp[AR + 1]);
    }
    ModUnique(v + d, TWO16, Bit(v + d >= TWO16), Pair(zp, AR));
  }

  /** `PARSE_DEC`. */
  method ParseDec(zp: array<byte>, s: string, i: nat) returns (j: nat)
    requires zp.Length == 256
    modifies zp
    ensures (Pair(zp, AR), j) == ScanDec(s, i, 0)
    ensures forall k :: 0 <= k < 256 && !(AR <= k < AR + 6) ==> zp[k] == old(zp[k])
  {
    hide Wide;
    ClearPair(zp, AR);
    j := i;
    var c := Peek(s, j);
    while IsDigit(c)
      invariant j >= i && c == Peek(s, j) && ScanDec(s, j, Pair(zp, AR)) == ScanDec(s, i, 0)
      invariant forall k :: 0 <= k < 256 && !(AR <= k < AR + 6) ==> zp[k] == old(zp[k])
      decreases |s| - j
    {
      PushDigit(zp, c as int - '0' as int);
      j := j + 1;
      c := Peek(s, j);
    }
  }

  /** The variable load of `evp_var`. */
  method LoadVar(zp: array<byte>, c: char)
    requires zp.Length == 256 && IsLetter(c)
    modifies zp
    ensures Pair(zp, AR) == Letter(old(Vars(zp)), c)
    ensures forall k :: 0 <= k < 256 && k != AR && k != AR + 1 ==> zp[k] == old(zp[k])
  {
    ghost var vars := Vars(zp);
    var x: nat := 2 * (c as int - 'A' as int);
    assert vars[x] == zp[VARS + x] && vars[x + 1] == zp[VARS + x + 1];
    zp[AR] := zp[VARS + x];
    zp[AR + 1] := zp[VARS + x + 1];
  }

  /** `ev_primary`. */
  method Atom(zp: array<byte>, s: string, i: nat) returns (j: nat)
    requires zp.Length == 256 && i <= |s| && zp[PDEPTH] < 8
    requires Room(zp, Primary(s, i, Vars(zp), zp[PDEPTH]).need)
    modifies zp
    ensures Gives(zp, j, old(Primary(s, i, Vars(zp), zp[PDEPTH]))) && Kept(zp)
    decreases |s| - i, 0
  {
    hide Wide, ScanDec, Letter, Expr;
    ghost var vars, pd: nat := Vars(zp), zp[PDEPTH];
    j := SkipSpaces(s, i);
    var c := Peek(s, j);
    if c == '(' {
      j := j + 1;
      zp[PDEPTH] := Inc(zp[PDEPTH]);
      assert Vars(zp) == vars;
      if zp[PDEPTH] >= 8 {
        zp[PDEPTH] := Dec(zp[PDEPTH]);
        ClearPair(zp, AR);
        j := SkipToNul(s, j);
      } else {
        label Before:
        j := Evaluate(zp, s, j);
        zp[PDEPTH] := Dec(zp[PDEPTH]);
        j := SkipSpaces(s, j);
        if Peek(s, j) == ')' {
          j := j + 1;
        }
      }
    } else if IsDigit(c) {
      j := ParseDec(zp, s, j);
    } else if IsLetter(c) {
      LoadVar(zp, c);
      j := j + 1;
    } else {
      ClearPair(zp, AR);
    }
  }

  /** `evd_skip`. */
  method SkipToNul(s: string, i: nat) returns (j: nat)
    ensures j == ToNul(s, i)
  {
    j := i;
    while Peek(s, j) != '\0'
      invariant j >= i && ToNul(s, j) == ToNul(s, i)
      decreases |s| - j
    {
      j := j + 1;
    }
  }

  /** `ev_unary`. */
  method Signed(zp: array<byte>, s: string, i: nat) returns (j: nat)
    requires zp.Length == 256 && i <= |s| && zp[PDEPTH] < 8
    requires Room(zp, Unary(s, i, Vars(zp), zp[PDEPTH]).need)
    modifies zp
    ensures Gives(zp, j, old(Unary(s, i, Vars(zp), zp[PDEPTH]))) && Kept(zp)
    decreases |s| - i, 1
  {
    hide Wide, Primary;
    j := SkipSpaces(s, i);
    if Peek(s, j) == '-' {
      j := Atom(zp, s, j + 1);
      NegPair(zp, AR);
    } else {
      j := Atom(zp, s, j);
    }
  }

  lemma {:induction false} TermNeed(s: string, left: Result, vars: seq<byte>, pd: nat)
    requires left.i <= |s| && |vars| == 52
    ensures TermLoop(s, left, vars, pd).need >= left.need
    decreases |s| - left.i
  {
    hide Unary, Operate;
    var i := Skip(s, left.i);
    var c := Peek(s, i);
    if c == '*' {
      TermNeed(s, Combine(Times, left, Unary(s, i + 1, vars, pd)), vars, pd);
    } else if c == '/' {
      TermNeed(s, Combine(Divide, left, Unary(s, i + 1, vars, pd)), vars, pd);
    }
  }

  lemma {:induction false} SumNeed(s: string, left: Result, vars: seq<byte>, pd: nat)
    requires left.i <= |s| && |vars| == 52
    ensures SumLoop(s, left, vars, pd).need >= left.need
    decreases |s| - left.i
  {
    hide Term, Operate;
    var i := Skip(s, left.i);
    var c := Peek(s, i);
    if c == '+' {
      SumNeed(s, Combine(Plus, left, Term(s, i + 1, vars, pd)), vars, pd);
    } else if c == '-' {
      SumNeed(s, Combine(Minus, left, Term(s, i + 1, vars, pd)), vars, pd);
    }
  }

  /** `et_mul` and `et_div`: push the left operand, evaluate the right one, combine. */
  method TermTurn(zp: array<byte>, s: string, i: nat, op: Op) returns (j: nat)
    requires zp.Length == 256 && i <= |s| && zp[PDEPTH] < 8 && (op.Times? || op.Divide?)
    requires Room(zp, 1 + Unary(s, i, Vars(zp), zp[PDEPTH]).need)
    modifies zp
    ensures var right := old(Unary(s, i, Vars(zp), zp[PDEPTH]));
            Pair(zp, AR) == Operate(op, old(Pair(zp, AR)), right.v) && j == right.i
    ensures Kept(zp)
    decreases |s| - i, 2
  {
    hide Wide, Unary, ToWord, TruncDiv, S16;
    ghost var vars := Vars(zp);
    Push(zp);
    assert Vars(zp) == vars;
    j := Signed(zp, s, i);
    if op.Times? {
      PopMul(zp);
    } else {
      PopDiv(zp);
    }
  }

  /** `ev_term`. */
  method Product(zp: array<byte>, s: string, i: nat) returns (j: nat)
    requires zp.Length == 256 && i <= |s| && zp[PDEPTH] < 8
    requires Room(zp, Term(s, i, Vars(zp), zp[PDEPTH]).need)
    modifies zp
    ensures Gives(zp, j, old(Term(s, i, Vars(zp), zp[PDEPTH]))) && Kept(zp)
    decreases |s| - i, 3
  {
    hide Wide, Unary, Operate;
    ghost var vars, pd: nat := Vars(zp), zp[PDEPTH];
    ghost var total := Term(s, i, vars, pd);
    ghost var left := Unary(s, i, vars, pd);
    TermNeed(s, left, vars, pd);
    j := Signed(zp, s, i);
    while true
      invariant i <= j == left.i <= |s| && Pair(zp, AR) == left.v && Kept(zp)
      invariant zp[PDEPTH] == pd && Vars(zp) == vars && zp[ESTKP] == old(zp[ESTKP])
      invariant TermLoop(s, left, vars, pd) == total && Room(zp, total.need)
      decreases |s| - j
    {
      j := SkipSpaces(s, j);
      var c := Peek(s, j);
      if c != '*' && c != '/' { break; }
      ghost var op := if c == '*' then Times else Divide;
      ghost var next := Combine(op, left, Unary(s, j + 1, vars, pd));
      TermNeed(s, next, vars, pd);
      if c == '*' {
        j := TermTurn(zp, s, j + 1, Times);
      } else {
        j := TermTurn(zp, s, j + 1, Divide);
      }
      left := next;
    }
  }

  /** `ev_add` and `ev_sub`. */
  method SumTurn(zp: array<byte>, s: string, i: nat, op: Op) returns (j: nat)
    requires zp.Length == 256 && i <= |s| && zp[PDEPTH] < 8 && (op.Plus? || op.Minus?)
    requires Room(zp, 1 + Term(s, i, Vars(zp), zp[PDEPTH]).need)
    modifies zp
    ensures var right := old(Term(s, i, Vars(zp), zp[PDEPTH]));
            Pair(zp, AR) == Operate(op, old(Pair(zp, AR)), right.v) && j == right.i
    ensures Kept(zp)
    decreases |s| - i, 4
  {
    hide Wide, Term, ToWord, TruncDiv, S16;
    ghost var vars := Vars(zp);
    Push(zp);
    assert Vars(zp) == vars;
    j := Product(zp, s, i);
    if op.Plus? {
      PopAdd(zp);
    } else {
      PopSub(zp);
    }
  }

  /** `ev_additive`. */
  method Additive(zp: array<byte>, s: string, i: nat) returns (j: nat)
    requires zp.Length == 256 && i <= |s| && zp[PDEPTH] < 8
    requires Room(zp, Sum(s, i, Vars(zp), zp[PDEPTH]).need)
    modifies zp
    ensures Gives(zp, j, old(Sum(s, i, Vars(zp), zp[PDEPTH]))) && Kept(zp)
    decreases |s| - i, 5
  {
    hide Wide, Term, Operate;
    ghost var vars, pd: nat := Vars(zp), zp[PDEPTH];
    ghost var total := Sum(s, i, vars, pd);
    ghost var left := Term(s, i, vars, pd);
    SumNeed(s, left, vars, pd);
    j := Product(zp, s, i);
    while true
      invariant i <= j == left.i <= |s| && Pair(zp, AR) == left.v && Kept(zp)
      invariant zp[PDEPTH] == pd && Vars(zp) == vars && zp[ESTKP] == old(zp[ESTKP])
      invariant SumLoop(s, left, vars, pd) == total && Room(zp, total.need)
      decreases |s| - j
    {
      j := SkipSpaces(s, j);
      var c := Peek(s, j);
      if c != '+' && c != '-' { break; }
      ghost var op := if c == '+' then Plus else Minus;
      ghost var next := Combine(op, left, Term(s, j + 1, vars, pd));
      SumNeed(s, next, vars, pd);
      if c == '+' {
        j := SumTurn(zp, s, j + 1, Plus);
      } else {
        j := SumTurn(zp, s, j + 1, Minus);
      }
      left := next;
    }
  }

  /** The flag bytes of a comparison. */
  method SetTruth(zp: array<byte>, b: bool)
    requires zp.Length == 256
    modifies zp
    ensures Pair(zp, AR) == Truth(b)
    ensures forall k :: 0 <= k < 256 && k != AR && k != AR + 1 ==> zp[k] == old(zp[k])
  {
    if b {
      zp[AR], zp[AR + 1] := 0xFF, 0xFF;
    } else {
      zp[AR], zp[AR + 1] := 0, 0;
    }
  }

  /** The comparison branches of `EVAL_EXPR`: push, evaluate the right side, pop, compare as the operator does. */
  method CompareTurn(zp: array<byte>, s: string, i: nat, op: Op) returns (j: nat)
    requires zp.Length == 256 && i <= |s| && zp[PDEPTH] < 8
    requires op.Less? || op.Greater? || op.Equal? || op.LessEqual? || op.GreaterEqual? || op.NotEqual?
    requires Room(zp, 1 + Sum(s, i, Vars(zp), zp[PDEPTH]).need)
    modifies zp
    ensures var right := old(Sum(s, i, Vars(zp), zp[PDEPTH]));
            Pair(zp, AR) == Operate(op, old(Pair(zp, AR)), right.v) && j == right.i
    ensures Kept(zp)
    decreases |s| - i, 6
  {
    hide Sum, ToWord, TruncDiv, S16;
    ghost var vars := Vars(zp);
    Push(zp);
    assert Vars(zp) == vars;
    j := Additive(zp, s, i);
    Pop(zp);
    var same := zp[AR] == zp[AR + 2] && zp[AR + 1] == zp[AR + 3];
    assert same <==> Pair(zp, AR) == Pair(zp, AR + 2);
    hide Wide;
    if op.Equal? {
      SetTruth(zp, same);
    } else if op.NotEqual? {
      SetTruth(zp, !same);
    } else if op.Less? || op.GreaterEqual? {
      var c := BasicCells.GreaterEqual(zp, AR + 2, AR);
      SetTruth(zp, if op.Less? then !c else c);
    } else {
      var c := BasicCells.GreaterEqual(zp, AR, AR + 2);
      SetTruth(zp, if op.Greater? then !c else c);
    }
  }

  /** The operator characters. */
  method ReadRelation(s: string, i: nat) returns (op: Op, j: nat)
    requires i < |s| && IsRelation(s[i])
    ensures (op, j) == Relation(s, i)
    ensures !(op.Plus? || op.Minus? || op.Times? || op.Divide?)
  {
    if s[i] == '=' { return Equal, i + 1; }
    j := SkipSpaces(s, i + 1);
    if s[i] == '<' {
      if Peek(s, j) == '>' { return NotEqual, j + 1; }
      if Peek(s, j) == '=' { return LessEqual, j + 1; }
      return Less, j;
    }
    if Peek(s, j) == '=' { return BasicExpr.Op.GreaterEqual, j + 1; }
    return Greater, j;
  }

  /** `EVAL_EXPR`: the value in AR, the stack depth and every other cell as before. */
  method Evaluate(zp: array<byte>, s: string, i: nat) returns (j: nat)
    requires zp.Length == 256 && i <= |s| && zp[PDEPTH] < 8
    requires Room(zp, Expr(s, i, Vars(zp), zp[PDEPTH]).need)
    modifies zp
    ensures Gives(zp, j, old(Expr(s, i, Vars(zp), zp[PDEPTH]))) && Kept(zp)
    decreases |s| - i, 7
  {
    hide Wide, Sum, Operate, Relation;
    ghost var vars, pd: nat := Vars(zp), zp[PDEPTH];
    j := Additive(zp, s, i);
    assert Vars(zp) == vars;
    j := SkipSpaces(s, j);
    if IsRelation(Peek(s, j)) {
      var op, k := ReadRelation(s, j);
      j := CompareTurn(zp, s, k, op);
    }
  }
}
