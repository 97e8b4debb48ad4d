/** The evaluator as it runs: a cursor moved along the text by loops and mutual recursion. */
module AsmEval {
  import opened Text
  import opened AsmExpr

  /** One turn of the loop of `multiplicative`. */
  lemma MulUnfold(s: string, left: Parsed, env: Env)
    requires left.Got? && left.i <= |s|
    ensures var i := Skip(s, left.i);
            MulLoop(s, left, env) ==
            if IsMulOp(Text.Peek(s, i)) && i < |s| then MulLoop(s, Operate(s[i], left.v, AsmExpr.Primary(s, i + 1, env)), env)
            else Got(left.v, i)
  {
  }

  lemma AddUnfold(s: string, left: Parsed, env: Env)
    requires left.Got? && left.i <= |s|
    ensures var i := Skip(s, left.i);
            AddLoop(s, left, env) ==
            if IsAddOp(Text.Peek(s, i)) && i < |s| then AddLoop(s, Operate(s[i], left.v, AsmExpr.Multiplicative(s, i + 1, env)), env)
            else Got(left.v, i)
  {
  }

  lemma LoopEnds(s: string, env: Env)
    ensures MulLoop(s, Undef, env) == Undef && MulLoop(s, Bad, env) == Bad
    ensures AddLoop(s, Undef, env) == Undef && AddLoop(s, Bad, env) == Bad
  {
  }

  class Evaluator {
    const s: string
    const env: Env
    var i: nat

    constructor (text: string, env: Env)
      ensures this.s == text && this.env == env && i == 0
    {
      this.s, this.env, i := text, env, 0;
    }

    /** `skip()` and `peek()`: NUL at the end. */
    method Peek() returns (c: char)
      requires i <= |s|
      modifies this`i
      ensures i == Skip(s, old(i)) <= |s| && c == Text.Peek(s, i)
    {
      while i < |s| && s[i] == ' '
        invariant i <= |s| && Skip(s, i) == old(Skip(s, i))
      {
        i := i + 1;
      }
      c := Text.Peek(s, i);
    }

    method ScanNumber(base: nat) returns (r: Outcome)
      requires i <= |s|
      modifies this`i
      ensures Seen(r, i) == Prefixed(s, old(i), base)
      ensures r.Value? ==> i <= |s|
    {
      var from := i;
      while i < |s| && (if base == 16 then IsHex(s[i]) else IsBinary(s[i]))
        invariant from <= i <= |s|
        invariant base == 16 ==> Run(s, i, IsHex) == Run(s, from, IsHex)
        invariant base != 16 ==> Run(s, i, IsBinary) == Run(s, from, IsBinary)
      {
        i := i + 1;
      }
      if i == from { return Failed; }
      r := Value(Number(s[from..i], base));
    }

    method ScanDecimal() returns (r: Outcome)
      requires i < |s| && IsDigit(s[i])
      modifies this`i
      ensures Seen(r, i) == Literal(s, old(i))
      ensures r.Value? ==> i <= |s|
    {
      if s[i] == '0' && (Text.Peek(s, i + 1) == 'x' || Text.Peek(s, i + 1) == 'X') {
        i := i + 2;
        r := ScanNumber(16);
        return;
      }
      var from := i;
      while i < |s| && IsDigit(s[i])
        invariant from <= i <= |s| && Run(s, i, IsDigit) == Run(s, from, IsDigit)
      {
        i := i + 1;
      }
      r := Value(Number(s[from..i], 10));
    }

    method ScanSymbol() returns (r: Outcome)
      requires i < |s|
      modifies this`i
      ensures Seen(r, i) == Symbol(s, old(i), env)
      ensures i <= |s|
    {
      var from := i;
      while i < |s| && IsName(s[i])
        invariant from <= i <= |s| && Run(s, i, IsName) == Run(s, from, IsName)
      {
        i := i + 1;
      }
      if s[from..i] in env.syms {
        r := Value(env.syms[s[from..i]]);
      } else {
        r := Undefined;
      }
    }

    /** `primary()`. */
    method Primary() returns (r: Outcome)
      requires i <= |s|
      modifies this`i
      ensures Seen(r, i) == AsmExpr.Primary(s, old(i), env)
      ensures r.Value? ==> old(i) < i <= |s|
      decreases |s| - i, 0
    {
      hide Literal, Symbol, Prefixed;
      ghost var i0 := i;
      var c := Peek();
      if i == |s| { return Failed; }
      if c == '(' {
        i := i + 1;
        r := Additive();
        if r.Value? {
          c := Peek();
          if c != ')' { return Failed; }
          i := i + 1;
        }
      } else if c == '*' {
        i := i + 1;
        r := Value(env.pc);
      } else if IsUnary(c) {
        i := i + 1;
        r := Primary();
        if r.Value? {
          r := Value(if c == '<' then LowByte(r.v) else if c == '>' then HighByte(r.v) else if c == '-' then -r.v else r.v);
        }
      } else if c == '\'' {
        i := i + 1;
        if i == |s| { return Failed; }
        var ch := s[i];
        i := i + (if Text.Peek(s, i + 1) == '\'' then 2 else 1);
        r := Value(ch as int);
      } else if c == '$' {
        i := i + 1;
        r := ScanNumber(16);
      } else if c == '%' {
        i := i + 1;
        r := ScanNumber(2);
      } else if IsDigit(c) {
        r := ScanDecimal();
      } else if IsAlpha(c) || c == '_' {
        r := ScanSymbol();
      } else {
        r := Failed;
      }
    }

    /** `multiplicative()`. */
    method Multiplicative() returns (r: Outcome)
      requires i <= |s|
      modifies this`i
      ensures Seen(r, i) == AsmExpr.Multiplicative(s, old(i), env)
      ensures r.Value? ==> old(i) < i <= |s|
      decreases |s| - i, 2
    {
      hide AsmExpr.Primary, MulLoop, FloorDiv, FloorMod, Skip;
      ghost var i0 := i;
      r := Primary();
      LoopEnds(s, env);
      while r.Value?
        invariant r.Value? ==> i0 < i <= |s|
        invariant MulLoop(s, Seen(r, i), env) == AsmExpr.Multiplicative(s, i0, env)
        decreases r.Value?, |s| - i
      {
        MulUnfold(s, Seen(r, i), env);
        var c := Peek();
        if !IsMulOp(c) { return; }
        i := i + 1;
        var right := Primary();
        if right.Value? {
          if c != '*' && right.v == 0 { return Failed; }
          r := Value(if c == '*' then r.v * right.v else if c == '/' then FloorDiv(r.v, right.v) else FloorMod(r.v, right.v));
        } else {
          r := right;
        }
      }
    }

    /** `additive()`. */
    method Additive() returns (r: Outcome)
      requires i <= |s|
      modifies this`i
      ensures Seen(r, i) == AsmExpr.Additive(s, old(i), env)
      ensures r.Value? ==> old(i) < i <= |s|
      decreases |s| - i, 4
    {
      hide AsmExpr.Multiplicative, AddLoop, Skip;
      ghost var i0 := i;
      r := Multiplicative();
      LoopEnds(s, env);
      while r.Value?
        invariant r.Value? ==> i0 < i <= |s|
        invariant AddLoop(s, Seen(r, i), env) == AsmExpr.Additive(s, i0, env)
        decreases r.Value?, |s| - i
      {
        AddUnfold(s, Seen(r, i), env);
        var c := Peek();
        if !IsAddOp(c) { return; }
        i := i + 1;
        var right := Multiplicative();
        if right.Value? {
          r := Value(if c == '+' then r.v + right.v else r.v - right.v);
        } else {
          r := right;
        }
      }
    }
  }

  /** `_eval`. */
  method Evaluate(text: string, env: Env) returns (r: Outcome)
    ensures r == Eval(text, env)
  {
    var e := new Evaluator(text, env);
    r := e.Additive();
    if r.Value? {
      var c := e.Peek();
      if e.i < |text| { r := Failed; }
    }
  }
}
