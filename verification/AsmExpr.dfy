/** The assembler's expressions: recursive descent over characters, evaluating as it goes. */
module AsmExpr {
  import opened Text

  /** A value and the cursor behind it; an undefined symbol; or an error. */
  datatype Parsed = Got(v: int, i: nat) | Undef | Bad

  /** What an expression is evaluated against. */
  datatype Env = Env(syms: map<string, int>, pc: int)

  /** Python's floor division and its modulo. */
  function FloorDiv(a: int, b: int): int
    requires b != 0
  {
    if b > 0 then a / b else (-a) / (-b)
  }

  function FloorMod(a: int, b: int): int
    requires b != 0
  {
    a - b * FloorDiv(a, b)
  }

  /** `v & 0xFF` and `(v >> 8) & 0xFF` on Python's unbounded integers. */
  function LowByte(v: int): int { v % 256 }

  function HighByte(v: int): int { v / 256 % 256 }

  predicate IsAlpha(c: char) { 'a' <= c <= 'z' || 'A' <= c <= 'Z' }

  predicate IsHex(c: char) { IsDigit(c) || 'a' <= c <= 'f' || 'A' <= c <= 'F' }

  predicate IsBinary(c: char) { c == '0' || c == '1' }

  predicate IsName(c: char) { IsAlpha(c) || IsDigit(c) || c == '_' }

  function DigitOf(c: char): nat
    requires IsHex(c)
  {
    if IsDigit(c) then c as int - '0' as int
    else if 'a' <= c <= 'f' then c as int - 'a' as int + 10
    else c as int - 'A' as int + 10
  }

  /** `skip()`. */
  function Skip(s: string, i: nat): (r: nat)
    ensures r >= i && (i <= |s| ==> r <= |s|) && !(r < |s| && s[r] == ' ')
    decreases |s| - i
  {
    if i < |s| && s[i] == ' ' then Skip(s, i + 1) else i
  }

  /** The end of the run of characters of one kind. */
  function Run(s: string, i: nat, kind: char -> bool): (r: nat)
    ensures r >= i && (i <= |s| ==> r <= |s|) && forall k :: i <= k < r && k < |s| ==> kind(s[k])
    ensures i < |s| && kind(s[i]) ==> r > i
    decreases |s| - i
  {
    if i < |s| && kind(s[i]) then Run(s, i + 1, kind) else i
  }

  /** `int(text, base)`. */
  function Number(t: string, base: nat): nat
    requires forall k :: 0 <= k < |t| ==> IsHex(t[k])
  {
    if t == "" then 0 else base * Number(t[..|t| - 1], base) + DigitOf(t[|t| - 1])
  }

  /** A numeral behind its prefix: at least one digit. */
  function Prefixed(s: string, i: nat, base: nat): Parsed
    requires i <= |s|
  {
    var j := if base == 16 then Run(s, i, IsHex) else Run(s, i, IsBinary);
    if j == i then Bad else Got(Number(s[i..j], base), j)
  }

  function Literal(s: string, i: nat): Parsed
    requires i < |s| && IsDigit(s[i])
  {
    if s[i] == '0' && (Peek(s, i + 1) == 'x' || Peek(s, i + 1) == 'X') then Prefixed(s, i + 2, 16)
    else
      var j := Run(s, i, IsDigit);
      Got(Number(s[i..j], 10), j)
  }

  function Symbol(s: string, i: nat, env: Env): Parsed
    requires i < |s|
  {
    var j := Run(s, i, IsName);
    if s[i..j] in env.syms then Got(env.syms[s[i..j]], j) else Undef
  }

  function Quoted(s: string, i: nat): Parsed
    requires i <= |s|
  {
    if i == |s| then Bad
    else Got(s[i] as int, if Peek(s, i + 1) == '\'' then i + 2 else i + 1)
  }

  /** A unary operator applied to what was parsed. */
  function Apply(c: char, r: Parsed): Parsed {
    match r
    case Got(v, j) =>
      Got(if c == '<' then LowByte(v) else if c == '>' then HighByte(v) else if c == '-' then -v else v, j)
    case _ => r
  }

  predicate IsUnary(c: char) { c == '<' || c == '>' || c == '-' || c == '+' }

  /** The closing parenthesis. */
  function Close(s: string, r: Parsed): (q: Parsed)
    ensures q.Got? ==> r.Got? && q.i > r.i
  {
    match r
    case Got(v, j) => if Peek(s, Skip(s, j)) == ')' then Got(v, Skip(s, j) + 1) else Bad
    case _ => r
  }

  function Primary(s: string, i0: nat, env: Env): (r: Parsed)
    requires i0 <= |s|
    ensures r.Got? ==> i0 < r.i <= |s|
    decreases |s| - i0, 0
  {
    var i := Skip(s, i0);
    if i == |s| then Bad
    else if s[i] == '(' then Close(s, Additive(s, i + 1, env))
    else if s[i] == '*' then Got(env.pc, i + 1)
    else if IsUnary(s[i]) then Apply(s[i], Primary(s, i + 1, env))
    else if s[i] == '\'' then Quoted(s, i + 1)
    else if s[i] == '$' then Prefixed(s, i + 1, 16)
    else if s[i] == '%' then Prefixed(s, i + 1, 2)
    else if IsDigit(s[i]) then Literal(s, i)
    else if IsAlpha(s[i]) || s[i] == '_' then Symbol(s, i, env)
    else Bad
  }

  predicate IsMulOp(c: char) { c == '*' || c == '/' || c == '%' }

  predicate IsAddOp(c: char) { c == '+' || c == '-' }

  /** One binary operation; a zero divisor is an error. */
  function Operate(op: char, a: int, r: Parsed): (q: Parsed)
    requires IsMulOp(op) || IsAddOp(op)
    ensures q.Got? ==> r.Got? && q.i == r.i
  {
    match r
    case Got(b, j) =>
      if op == '+' then Got(a + b, j)
      else if op == '-' then Got(a - b, j)
      else if op == '*' then Got(a * b, j)
      else if b == 0 then Bad
      else if op == '/' then Got(FloorDiv(a, b), j)
      else Got(FloorMod(a, b), j)
    case _ => r
  }

  function MulLoop(s: string, left: Parsed, env: Env): (r: Parsed)
    requires left.Got? ==> left.i <= |s|
    ensures r.Got? ==> left.Got? && left.i <= r.i <= |s|
    decreases if left.Got? then |s| - left.i else 0, 1
  {
    if !left.Got? then left
    else
      var i := Skip(s, left.i);
      if i < |s| && IsMulOp(s[i]) then MulLoop(s, Operate(s[i], left.v, Primary(s, i + 1, env)), env)
      else Got(left.v, i)
  }

  function Multiplicative(s: string, i: nat, env: Env): (r: Parsed)
    requires i <= |s|
    ensures r.Got? ==> i < r.i <= |s|
    decreases |s| - i, 2
  {
    MulLoop(s, Primary(s, i, env), env)
  }

  function AddLoop(s: string, left: Parsed, env: Env): (r: Parsed)
    requires left.Got? ==> left.i <= |s|
    ensures r.Got? ==> left.Got? && left.i <= r.i <= |s|
    decreases if left.Got? then |s| - left.i else 0, 3
  {
    if !left.Got? then left
    else
      var i := Skip(s, left.i);
      if i < |s| && IsAddOp(s[i]) then AddLoop(s, Operate(s[i], left.v, Multiplicative(s, i + 1, env)), env)
      else Got(left.v, i)
  }

  function Additive(s: string, i: nat, env: Env): (r: Parsed)
    requires i <= |s|
    ensures r.Got? ==> i < r.i <= |s|
    decreases |s| - i, 4
  {
    AddLoop(s, Multiplicative(s, i, env), env)
  }

  datatype Outcome = Value(v: int) | Undefined | Failed

  /** `_eval` on a stripped text: all of it, or junk. */
  function Eval(s: string, env: Env): Outcome {
    match Additive(s, 0, env)
    case Got(v, i) => if Skip(s, i) < |s| then Failed else Value(v)
    case Undef => Undefined
    case Bad => Failed
  }

  /** An outcome as the parser sees it, the cursor at `j`. */
  function Seen(o: Outcome, j: nat): Parsed {
    match o
    case Value(v) => Got(v, j)
    case Undefined => Undef
    case Failed => Bad
  }

  // ---- more symbols ----

  /** The first environment's symbols keep their values in the second. */
  ghost predicate Extends(env: Env, env': Env) {
    env.pc == env'.pc && forall k :: k in env.syms ==> k in env'.syms && env.syms[k] == env'.syms[k]
  }

  /** Once a text evaluates without an undefined symbol, more symbols do not change the outcome. */
  predicate Settled(r: Parsed, r': Parsed) { r.Undef? || r' == r }

  lemma {:induction false} PrimarySettles(s: string, i0: nat, env: Env, env': Env)
    requires i0 <= |s| && Extends(env, env')
    ensures Settled(Primary(s, i0, env), Primary(s, i0, env'))
    decreases |s| - i0, 0
  {
    hide Literal, Prefixed, Quoted, Additive;
    var i := Skip(s, i0);
    if i < |s| {
      if s[i] == '(' {
        AdditiveSettles(s, i + 1, env, env');
      } else if IsUnary(s[i]) {
        PrimarySettles(s, i + 1, env, env');
      }
    }
  }

  lemma {:induction false} MulLoopSettles(s: string, left: Parsed, env: Env, env': Env)
    requires (left.Got? ==> left.i <= |s|) && Extends(env, env')
    ensures Settled(MulLoop(s, left, env), MulLoop(s, left, env'))
    decreases if left.Got? then |s| - left.i else 0, 1
  {
    hide Primary;
    if left.Got? {
      var i := Skip(s, left.i);
      if i < |s| && IsMulOp(s[i]) {
        PrimarySettles(s, i + 1, env, env');
        MulLoopSettles(s, Operate(s[i], left.v, Primary(s, i + 1, env)), env, env');
        Stuck(s, env, env');
      }
    }
  }

  lemma Stuck(s: string, env: Env, env': Env)
    ensures MulLoop(s, Undef, env) == Undef && AddLoop(s, Undef, env) == Undef
    ensures forall op :: IsMulOp(op) || IsAddOp(op) ==> Operate(op, 0, Undef) == Undef
  {
  }

  lemma {:induction false} MultiplicativeSettles(s: string, i: nat, env: Env, env': Env)
    requires i <= |s| && Extends(env, env')
    ensures Settled(Multiplicative(s, i, env), Multiplicative(s, i, env'))
    decreases |s| - i, 2
  {
    hide Primary, MulLoop;
    PrimarySettles(s, i, env, env');
    MulLoopSettles(s, Primary(s, i, env), env, env');
    Stuck(s, env, env');
  }

  lemma {:induction false} AddLoopSettles(s: string, left: Parsed, env: Env, env': Env)
    requires (left.Got? ==> left.i <= |s|) && Extends(env, env')
    ensures Settled(AddLoop(s, left, env), AddLoop(s, left, env'))
    decreases if left.Got? then |s| - left.i else 0, 3
  {
    hide Multiplicative;
    if left.Got? {
      var i := Skip(s, left.i);
      if i < |s| && IsAddOp(s[i]) {
        MultiplicativeSettles(s, i + 1, env, env');
        AddLoopSettles(s, Operate(s[i], left.v, Multiplicative(s, i + 1, env)), env, env');
        Stuck(s, env, env');
      }
    }
  }

  lemma {:induction false} AdditiveSettles(s: string, i: nat, env: Env, env': Env)
    requires i <= |s| && Extends(env, env')
    ensures Settled(Additive(s, i, env), Additive(s, i, env'))
    decreases |s| - i, 4
  {
    hide Multiplicative, AddLoop;
    MultiplicativeSettles(s, i, env, env');
    AddLoopSettles(s, Multiplicative(s, i, env), env, env');
    Stuck(s, env, env');
  }

  /** An expression that evaluated keeps its value when symbols are added. */
  lemma EvalSettles(s: string, env: Env, env': Env)
    requires Extends(env, env')
    ensures Eval(s, env).Undefined? || Eval(s, env') == Eval(s, env)
  {
    AdditiveSettles(s, 0, env, env');
  }
}
