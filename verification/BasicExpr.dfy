/** BASIC expressions: what the recursive descent computes, and that on the printed text of a tree it is the tree's
    meaning in 16-bit arithmetic. */
module BasicExpr {
  import opened Bits
  import opened Text
  import opened BasicCells

  /** A value, the cursor behind it, and how many entries of the value stack were in use at most. */
  datatype Result = Result(v: word, i: nat, need: nat)

  predicate IsSpace(c: char) { c == ' ' || c == '\t' }

  predicate IsLetter(c: char) { 'A' <= c <= 'Z' }

  /** `SKIP_SPC`. */
  function Skip(s: string, i: nat): (r: nat)
    ensures r >= i && (i <= |s| ==> r <= |s|) && !IsSpace(Peek(s, r))
    decreases |s| - i
  {
    if IsSpace(Peek(s, i)) then Skip(s, i + 1) else i
  }

  /** `PARSE_DEC`: the digits at the cursor, modulo 2^16. */
  function ScanDec(s: string, i: nat, v: word): (r: (word, nat))
    ensures r.1 >= i && (i <= |s| ==> r.1 <= |s|)
    decreases |s| - i
  {
    var c := Peek(s, i);
    if IsDigit(c) then ScanDec(s, i + 1, (10 * v + (c as int - '0' as int)) % TWO16) else (v, i)
  }

  /** The end of the text, or its first NUL. */
  function ToNul(s: string, i: nat): (r: nat)
    ensures r >= i && (i <= |s| ==> r <= |s|)
    decreases |s| - i
  {
    if Peek(s, i) == '\0' then i else ToNul(s, i + 1)
  }

  function Max(a: nat, b: nat): nat { if a >= b then a else b }

  datatype Op = Plus | Minus | Times | Divide | Less | Greater | Equal | LessEqual | GreaterEqual | NotEqual

  function Truth(b: bool): word { if b then 0xFFFF else 0 }

  /** The binary operations on words; comparisons are unsigned. */
  function Operate(op: Op, x: word, y: word): word {
    match op
    case Plus => ToWord(x as int + y)
    case Minus => ToWord(x as int - y)
    case Times => ToWord(x * y)
    case Divide => ToWord(TruncDiv(S16(x), S16(y)))
    case Less => Truth(x < y)
    case Greater => Truth(x > y)
    case Equal => Truth(x == y)
    case LessEqual => Truth(x <= y)
    case GreaterEqual => Truth(x >= y)
    case NotEqual => Truth(x != y)
  }

  /** The left operand waits on the stack while the right one is evaluated. */
  function Combine(op: Op, left: Result, right: Result): Result {
    Result(Operate(op, left.v, right.v), right.i, Max(left.need, 1 + right.need))
  }

  function Letter(vars: seq<byte>, c: char): word
    requires |vars| == 52 && IsLetter(c)
  {
    var k := 2 * (c as int - 'A' as int);
    Wide(vars[k], vars[k + 1])
  }

  /** `ev_primary`; `pd` is the number of open parentheses. */
  function Primary(s: string, i0: nat, vars: seq<byte>, pd: nat): (r: Result)
    requires i0 <= |s| && |vars| == 52
    ensures i0 <= r.i <= |s|
    decreases |s| - i0, 0
  {
    var i := Skip(s, i0);
    var c := Peek(s, i);
    if c == '(' then
      if pd + 1 >= 8 then Result(0, ToNul(s, i + 1), 0)
      else
        var r := Expr(s, i + 1, vars, pd + 1);
        var j := Skip(s, r.i);
        r.(i := if Peek(s, j) == ')' then j + 1 else j)
    else if IsDigit(c) then
      var (v, j) := ScanDec(s, i, 0);
      Result(v, j, 0)
    else if IsLetter(c) then Result(Letter(vars, c), i + 1, 0)
    else Result(0, i, 0)
  }

  /** `ev_unary`. */
  function Unary(s: string, i0: nat, vars: seq<byte>, pd: nat): (r: Result)
    requires i0 <= |s| && |vars| == 52
    ensures i0 <= r.i <= |s|
    decreases |s| - i0, 1
  {
    var i := Skip(s, i0);
    if Peek(s, i) == '-' then
      var r := Primary(s, i + 1, vars, pd);
      r.(v := Negated(r.v))
    else Primary(s, i, vars, pd)
  }

  /** `et_loop`. */
  function TermLoop(s: string, left: Result, vars: seq<byte>, pd: nat): (r: Result)
    requires left.i <= |s| && |vars| == 52
    ensures left.i <= r.i <= |s|
    decreases |s| - left.i, 2
  {
    var i := Skip(s, left.i);
    var c := Peek(s, i);
    if c == '*' then TermLoop(s, Combine(Times, left, Unary(s, i + 1, vars, pd)), vars, pd)
    else if c == '/' then TermLoop(s, Combine(Divide, left, Unary(s, i + 1, vars, pd)), vars, pd)
    else left.(i := i)
  }

  /** `ev_term`. */
  function Term(s: string, i: nat, vars: seq<byte>, pd: nat): (r: Result)
    requires i <= |s| && |vars| == 52
    ensures i <= r.i <= |s|
    decreases |s| - i, 3
  {
    TermLoop(s, Unary(s, i, vars, pd), vars, pd)
  }

  /** `ev_loop`. */
  function SumLoop(s: string, left: Result, vars: seq<byte>, pd: nat): (r: Result)
    requires left.i <= |s| && |vars| == 52
    ensures left.i <= r.i <= |s|
    decreases |s| - left.i, 4
  {
    var i := Skip(s, left.i);
    var c := Peek(s, i);
    if c == '+' then SumLoop(s, Combine(Plus, left, Term(s, i + 1, vars, pd)), vars, pd)
    else if c == '-' then SumLoop(s, Combine(Minus, left, Term(s, i + 1, vars, pd)), vars, pd)
    else left.(i := i)
  }

  /** `ev_additive`. */
  function Sum(s: string, i: nat, vars: seq<byte>, pd: nat): (r: Result)
    requires i <= |s| && |vars| == 52
    ensures i <= r.i <= |s|
    decreases |s| - i, 5
  {
    SumLoop(s, Term(s, i, vars, pd), vars, pd)
  }

  /** A comparison operator and the cursor behind it. */
  function Relation(s: string, i: nat): (r: (Op, nat))
    requires i < |s| && (s[i] == '<' || s[i] == '>' || s[i] == '=')
    ensures i < r.1 <= |s|
  {
    var j := Skip(s, i + 1);
    if s[i] == '=' then (Equal, i + 1)
    else if s[i] == '<' then
      if Peek(s, j) == '>' then (NotEqual, j + 1) else if Peek(s, j) == '=' then (LessEqual, j + 1) else (Less, j)
    else if Peek(s, j) == '=' then (GreaterEqual, j + 1)
    else (Greater, j)
  }

  predicate IsRelation(c: char) { c == '<' || c == '>' || c == '=' }

  /** `EVAL_EXPR`. */
  function Expr(s: string, i0: nat, vars: seq<byte>, pd: nat): (r: Result)
    requires i0 <= |s| && |vars| == 52
    ensures i0 <= r.i <= |s|
    decreases |s| - i0, 6
  {
    var left := Sum(s, i0, vars, pd);
    var i := Skip(s, left.i);
    if IsRelation(Peek(s, i)) then
      var (op, j) := Relation(s, i);
      Combine(op, left, Sum(s, j, vars, pd))
    else left.(i := i)
  }
}
