/** Expression trees, their printed form, and the proof that the assembler's parser evaluates what was printed. */
module AsmPrint {
  import opened Text
  import opened AsmExpr

  /** How a number is written: in decimal, in hexadecimal behind `$` or `0x`, or in binary behind `%`. */
  datatype Style = Plain | Dollar(upper: bool) | ZeroX(upper: bool) | Percent

  datatype Expr =
    | Lit(n: nat, style: Style)
    | Chr(c: char)
    | Sym(name: string)
    | Pc
    | Unary(op: char, arg: Expr)
    | Binary(op: char, left: Expr, right: Expr)

  predicate GoodName(name: string) {
    name != "" && (IsAlpha(name[0]) || name[0] == '_') && forall k :: 0 <= k < |name| ==> IsName(name[k])
  }

  predicate Good(e: Expr) {
    match e
    case Lit(_, _) => true
    case Chr(_) => true
    case Sym(name) => GoodName(name)
    case Pc => true
    case Unary(op, arg) => IsUnary(op) && Good(arg)
    case Binary(op, l, r) => (IsMulOp(op) || IsAddOp(op)) && Good(l) && Good(r)
  }

  /** The meaning of a tree, left to right: the first undefined symbol or zero divisor decides. */
  function Meaning(e: Expr, env: Env): Outcome
    requires Good(e)
  {
    match e
    case Lit(n, _) => Value(n)
    case Chr(c) => Value(c as int)
    case Sym(name) => if name in env.syms then Value(env.syms[name]) else Undefined
    case Pc => Value(env.pc)
    case Unary(op, arg) =>
      (match Meaning(arg, env)
       case Value(v) => Value(if op == '<' then LowByte(v) else if op == '>' then HighByte(v) else if op == '-' then -v else v)
       case o => o)
    case Binary(op, l, r) =>
      match Meaning(l, env)
      case Value(a) =>
        (match Meaning(r, env)
         case Value(b) =>
           if op == '+' then Value(a + b)
           else if op == '-' then Value(a - b)
           else if op == '*' then Value(a * b)
           else if b == 0 then Failed
           else if op == '/' then Value(FloorDiv(a, b))
           else Value(FloorMod(a, b))
         case o => o)
      case o => o
  }

  /** How tightly a tree binds: 0 sums, 1 products, 2 everything else. */
  function Level(e: Expr): nat {
    match e
    case Binary(op, _, _) => if IsAddOp(op) then 0 else 1
    case _ => 2
  }

  function DigitChar(d: nat, upper: bool): char
    requires d < 16
  {
    ((if d < 10 then '0' as int else if upper then 'A' as int - 10 else 'a' as int - 10) + d) as char
  }

  lemma QuotientAndRest(n: nat, base: nat)
    requires base > 0
    ensures n == base * (n / base) + n % base
  {
  }

  lemma TwiceAtLeast(base: nat, q: nat)
    requires base >= 2
    ensures base * q >= 2 * q
  {
  }

  lemma Smaller(n: nat, base: nat)
    requires n >= base >= 2
    ensures 0 <= n / base < n
  {
    QuotientAndRest(n, base);
    TwiceAtLeast(base, n / base);
  }

  function Numeral(n: nat, base: nat, upper: bool): (r: string)
    requires 2 <= base <= 16
    ensures r != ""
    decreases n
  {
    if n < base then [DigitChar(n, upper)]
    else
      Smaller(n, base);
      Numeral(n / base, base, upper) + [DigitChar(n % base, upper)]
  }

  function Written(n: nat, style: Style): (r: string)
    ensures r != ""
  {
    match style
    case Plain => Decimal(n)
    case Dollar(upper) => "$" + Numeral(n, 16, upper)
    case ZeroX(upper) => "0x" + Numeral(n, 16, upper)
    case Percent => "%" + Numeral(n, 2, false)
  }

  /** The least parenthesized text; parentheses only where a looser tree stands in a tighter place. */
  function Print(e: Expr): (r: string)
    ensures r != ""
    decreases e, 0
  {
    match e
    case Lit(n, style) => Written(n, style)
    case Chr(c) => ['\'', c, '\'']
    case Sym(name) => if name == "" then "?" else name
    case Pc => "*"
    case Unary(op, arg) => [op] + PrintAt(arg, 2)
    case Binary(op, l, r) =>
      if IsAddOp(op) then PrintAt(l, 0) + [op] + PrintAt(r, 1) else PrintAt(l, 1) + [op] + PrintAt(r, 2)
  }

  function PrintAt(e: Expr, level: nat): (r: string)
    ensures r != ""
    decreases e, 1
  {
    if Level(e) >= level then Print(e) else "(" + Print(e) + ")"
  }

  /** No space and no name character follows. */
  predicate Edge(s: string, j: nat) { !IsName(Peek(s, j)) && Peek(s, j) != ' ' }

  lemma {:induction false} RunIs(s: string, i: nat, j: nat, kind: char -> bool)
    requires i <= j <= |s| && (forall k :: i <= k < j ==> kind(s[k])) && (j < |s| ==> !kind(s[j]))
    ensures Run(s, i, kind) == j
    decreases j - i
  {
    if i < j { RunIs(s, i + 1, j, kind); }
  }

  lemma {:induction false} NumberDecimal(n: nat)
    ensures Number(Decimal(n), 10) == n
  {
    var t := Decimal(n);
    if n < 10 {
      assert t[..0] == "" && Number("", 10) == 0;
    } else {
      NumberDecimal(n / 10);
      assert t[..|t| - 1] == Decimal(n / 10);
    }
  }

  /** A numeral does not start with a zero unless it is zero. */
  lemma {:induction false} NoLeadingZero(n: nat)
    ensures Decimal(n)[0] == '0' ==> n == 0
  {
    if n >= 10 { NoLeadingZero(n / 10); }
  }

  lemma DigitBack(d: nat, upper: bool)
    requires d < 16
    ensures IsHex(DigitChar(d, upper)) && DigitOf(DigitChar(d, upper)) == d && (d < 2 ==> IsBinary(DigitChar(d, upper)))
  {
  }

  predicate HexText(t: string, base: nat) {
    forall k :: 0 <= k < |t| ==> IsHex(t[k]) && (base == 2 ==> IsBinary(t[k]))
  }

  /** One more digit at the end of a numeral. */
  lemma NumberSnoc(head: string, c: char, base: nat)
    requires HexText(head, base) && IsHex(c) && (base == 2 ==> IsBinary(c))
    ensures HexText(head + [c], base) && Number(head + [c], base) == base * Number(head, base) + DigitOf(c)
  {
    var t := head + [c];
    assert t[..|t| - 1] == head && t[|t| - 1] == c;
  }

  lemma {:induction false} NumeralBack(n: nat, base: nat, upper: bool)
    requires 2 <= base <= 16
    ensures HexText(Numeral(n, base, upper), base) && Number(Numeral(n, base, upper), base) == n
    decreases n
  {
    hide Number, HexText, DigitChar, DigitOf, IsHex, IsBinary, Numeral;
    var q, r := n / base, n % base;
    QuotientAndRest(n, base);
    NumeralStep(n, base, upper);
    var c := DigitChar(r, upper);
    LastDigit(base, r, c, upper);
    if n < base {
      Small(n, base);
      NumberNone(base);
      NumberSnoc("", c, base);
      assert "" + [c] == [c];
    } else {
      Smaller(n, base);
      NumeralBack(q, base, upper);
      NumberSnoc(Numeral(q, base, upper), c, base);
    }
  }

  lemma NumeralStep(n: nat, base: nat, upper: bool)
    requires 2 <= base <= 16
    ensures n < base ==> n % base == n && Numeral(n, base, upper) == [DigitChar(n, upper)]
    ensures n >= base ==> Numeral(n, base, upper) == Numeral(n / base, base, upper) + [DigitChar(n % base, upper)]
  {
    if n < base { Small(n, base); }
  }

  lemma LastDigit(base: nat, r: nat, c: char, upper: bool)
    requires 2 <= base <= 16 && r < base && c == DigitChar(r, upper)
    ensures IsHex(c) && DigitOf(c) == r && (base == 2 ==> IsBinary(c))
  {
    DigitBack(r, upper);
  }

  lemma Small(n: nat, base: nat)
    requires n < base
    ensures n % base == n
  {
  }

  lemma NumberNone(base: nat)
    ensures HexText("", base) && Number("", base) == 0 && base * 0 == 0
  {
  }

  lemma NameChars()
    ensures forall c :: IsHex(c) || IsBinary(c) ==> IsName(c)
  {
  }

  /** A numeral behind its prefix reads back. */
  lemma PrefixedBack(s: string, i: nat, n: nat, base: nat, upper: bool)
    requires base == 16 || base == 2
    requires Spelled(s, i, Numeral(n, base, upper)) && Edge(s, i + |Numeral(n, base, upper)|)
    ensures Prefixed(s, i, base) == Got(n, i + |Numeral(n, base, upper)|)
  {
    hide Numeral, Number, IsHex, IsBinary;
    var t := Numeral(n, base, upper);
    var j := i + |t|;
    NumeralBack(n, base, upper);
    forall k | i <= k < j ensures IsHex(s[k]) && (base == 2 ==> IsBinary(s[k])) { assert s[k] == s[i..j][k - i]; }
    assert j < |s| ==> Peek(s, j) == s[j];
    NameChars();
    if base == 16 { RunIs(s, i, j, IsHex); } else { RunIs(s, i, j, IsBinary); }
  }

  /** The three prefixes send a primary to its digits. */
  lemma AtPrefix(s: string, i: nat, env: Env)
    requires i < |s|
    ensures s[i] == '$' ==> Primary(s, i, env) == Prefixed(s, i + 1, 16)
    ensures s[i] == '%' ==> Primary(s, i, env) == Prefixed(s, i + 1, 2)
    ensures IsDigit(s[i]) ==> Primary(s, i, env) == Literal(s, i)
    ensures i + 1 < |s| && s[i] == '0' && s[i + 1] == 'x' ==> IsDigit(s[i]) && Literal(s, i) == Prefixed(s, i + 2, 16)
  {
    hide Prefixed, Symbol, Quoted, Additive;
    if s[i] != ' ' { NoSkip(s, i); }
  }

  /** Any written number reads back as one primary. */
  lemma WrittenBack(s: string, i: nat, n: nat, style: Style, env: Env)
    requires Spelled(s, i, Written(n, style)) && Edge(s, i + |Written(n, style)|)
    ensures Primary(s, i, env) == Got(n, i + |Written(n, style)|)
  {
    hide Numeral, Prefixed, Literal, Primary, Decimal, Edge;
    match style
    case Plain =>
      LiteralBack(s, i, n);
      AtPrefix(s, i, env);
    case Dollar(upper) =>
      SpelledSplit(s, i, "$", Numeral(n, 16, upper));
      PrefixedBack(s, i + 1, n, 16, upper);
      AtPrefix(s, i, env);
    case ZeroX(upper) =>
      ZeroXText(s, i, Numeral(n, 16, upper));
      PrefixedBack(s, i + 2, n, 16, upper);
      AtPrefix(s, i, env);
    case Percent =>
      SpelledSplit(s, i, "%", Numeral(n, 2, false));
      PrefixedBack(s, i + 1, n, 2, false);
      AtPrefix(s, i, env);
  }

  lemma ZeroXText(s: string, i: nat, t: string)
    requires Spelled(s, i, "0x" + t)
    ensures Spelled(s, i + 2, t) && i + 1 < |s| && s[i] == '0' && s[i + 1] == 'x'
  {
    SpelledSplit(s, i, "0x", t);
    var p := s[i..i + 2];
    assert p[0] == s[i] && p[1] == s[i + 1];
  }

  /** A character between quotes, the quote itself among them. */
  lemma CharacterBack(s: string, i: nat, c: char, env: Env)
    requires Spelled(s, i, ['\'', c, '\''])
    ensures Primary(s, i, env) == Got(c as int, i + 3)
  {
    var t := s[i..i + 3];
    assert t[0] == s[i] && t[1] == s[i + 1] && t[2] == s[i + 2];
    NoSkip(s, i);
  }

  lemma LiteralBack(s: string, i: nat, n: nat)
    requires Spelled(s, i, Decimal(n)) && Edge(s, i + |Decimal(n)|)
    ensures i < |s| && IsDigit(s[i]) && Literal(s, i) == Got(n, i + |Decimal(n)|)
  {
    var t := Decimal(n);
    var j := i + |t|;
    forall k | i <= k < j ensures IsDigit(s[k]) { assert s[k] == s[i..j][k - i]; }
    RunIs(s, i, j, IsDigit);
    NumberDecimal(n);
    NoLeadingZero(n);
    assert s[i] == s[i..j][0];
    if s[i] == '0' {
      assert |Decimal(0)| == 1;
      assert Peek(s, i + 1) != 'x' && Peek(s, i + 1) != 'X';
    }
  }

  lemma SymbolBack(s: string, i: nat, name: string, env: Env)
    requires GoodName(name) && Spelled(s, i, name) && Edge(s, i + |name|)
    ensures i < |s| && (IsAlpha(s[i]) || s[i] == '_')
    ensures Symbol(s, i, env) == if name in env.syms then Got(env.syms[name], i + |name|) else Undef
  {
    var j := i + |name|;
    forall k | i <= k < j ensures IsName(s[k]) { assert s[k] == s[i..j][k - i]; }
    RunIs(s, i, j, IsName);
    assert s[i] == s[i..j][0];
  }

  lemma NoSkip(s: string, i: nat)
    requires i < |s| ==> s[i] != ' '
    ensures Skip(s, i) == i
  {
  }

  /** The first character of a printed tree is never a space. */
  lemma FirstChar(e: Expr)
    requires Good(e)
    ensures Print(e)[0] != ' '
    ensures forall level :: PrintAt(e, level)[0] != ' '
  {
    match e
    case Binary(_, l, _) => FirstChar(l);
    case _ =>
  }

  /** Printed text of a binary tree, in place. */
  lemma BinaryText(e: Expr, level: nat)
    requires e.Binary? && level <= Level(e)
    ensures var l := Level(e);
            PrintAt(e, level) == Print(e) == PrintAt(e.left, l) + [e.op] + PrintAt(e.right, l + 1)
  {
  }

  /** The three parts of a binary tree's text. */
  lemma BinaryParts(s: string, i: nat, e: Expr)
    requires e.Binary? && Spelled(s, i, Print(e))
    ensures var l := Level(e);
            var j := i + |PrintAt(e.left, l)|;
            && Spelled(s, i, PrintAt(e.left, l)) && j < |s| && s[j] == e.op
            && Spelled(s, j + 1, PrintAt(e.right, l + 1))
            && i + |Print(e)| == j + 1 + |PrintAt(e.right, l + 1)|
  {
    hide Print, PrintAt, Spelled;
    var l := Level(e);
    BinaryText(e, l);
    SpelledSplit(s, i, PrintAt(e.left, l) + [e.op], PrintAt(e.right, l + 1));
    SpelledSplit(s, i, PrintAt(e.left, l), [e.op]);
  }

  lemma UnaryBack(s: string, i: nat, e: Expr, env: Env)
    requires Good(e) && e.Unary? && Spelled(s, i, Print(e))
    requires Primary(s, i + 1, env) == Seen(Meaning(e.arg, env), i + |Print(e)|)
    ensures Primary(s, i, env) == Seen(Meaning(e, env), i + |Print(e)|)
  {
    SpelledSplit(s, i, [e.op], PrintAt(e.arg, 2));
    NoSkip(s, i);
    hide Additive, MulLoop, Literal, Symbol, Prefixed, Quoted;
  }

  lemma AtomBack(s: string, i: nat, e: Expr, env: Env)
    requires Good(e) && (e.Lit? || e.Chr? || e.Sym? || e.Pc?) && Spelled(s, i, Print(e)) && Edge(s, i + |Print(e)|)
    ensures Primary(s, i, env) == Seen(Meaning(e, env), i + |Print(e)|)
  {
    hide Literal, Symbol, Prefixed, Quoted, Additive, Decimal, Written;
    FirstChar(e);
    SpelledSplit(s, i, Print(e), "");
    assert Print(e) + "" == Print(e);
    NoSkip(s, i);
    match e
    case Lit(n, style) => WrittenBack(s, i, n, style, env);
    case Chr(c) => CharacterBack(s, i, c, env);
    case Sym(name) => SymbolBack(s, i, name, env);
    case Pc =>
  }

  /** A tree in a place of level 2 is one primary. */
  lemma {:induction false} PrimaryBack(s: string, i: nat, e: Expr, env: Env)
    requires Good(e) && Spelled(s, i, PrintAt(e, 2)) && Edge(s, i + |PrintAt(e, 2)|)
    ensures Primary(s, i, env) == Seen(Meaning(e, env), i + |PrintAt(e, 2)|)
    decreases e, if Level(e) < 2 then 3 else 0
  {
    hide Primary, Spelled, Edge, Meaning;
    match e
    case Binary(_, _, _) =>
      ParenBack(s, i, e, env);
    case Unary(op, arg) =>
      UnaryText(s, i, e);
      PrimaryBack(s, i + 1, arg, env);
      UnaryBack(s, i, e, env);
    case _ =>
      AtomBack(s, i, e, env);
  }

  lemma UnaryText(s: string, i: nat, e: Expr)
    requires e.Unary? && Spelled(s, i, Print(e))
    ensures Spelled(s, i + 1, PrintAt(e.arg, 2)) && i + |Print(e)| == i + 1 + |PrintAt(e.arg, 2)|
  {
    SpelledSplit(s, i, [e.op], PrintAt(e.arg, 2));
  }

  lemma {:induction false} ParenBack(s: string, i: nat, e: Expr, env: Env)
    requires Good(e) && Level(e) < 2 && Spelled(s, i, "(" + Print(e) + ")")
    ensures Primary(s, i, env) == Seen(Meaning(e, env), i + |Print(e)| + 2)
    decreases e, 2
  {
    hide Print, Meaning, AddLoop, Literal, Symbol, Prefixed, Quoted;
    SpelledSplit(s, i, "(" + Print(e), ")");
    SpelledSplit(s, i, "(", Print(e));
    NoSkip(s, i);
    var j := i + 1 + |Print(e)|;
    NoSkip(s, j);
    AddSpine(s, i + 1, e, env);
    AddStops(s, Seen(Meaning(e, env), j), env);
  }

  /** One more factor. */
  lemma MulStep(s: string, j: nat, left: Parsed, right: Parsed, env: Env)
    requires j < |s| && IsMulOp(s[j]) && Primary(s, j + 1, env) == right
    requires left.Got? ==> left.i == j
    ensures MulLoop(s, left, env) == if left.Got? then MulLoop(s, Operate(s[j], left.v, right), env) else left
  {
    hide Primary, Operate;
    NoSkip(s, j);
  }

  lemma AddStep(s: string, j: nat, left: Parsed, right: Parsed, env: Env)
    requires j < |s| && IsAddOp(s[j]) && Multiplicative(s, j + 1, env) == right
    requires left.Got? ==> left.i == j
    ensures AddLoop(s, left, env) == if left.Got? then AddLoop(s, Operate(s[j], left.v, right), env) else left
  {
    hide Multiplicative, Operate;
    NoSkip(s, j);
  }

  /** What a binary tree means, in the parser's terms. */
  lemma SeenBinary(e: Expr, env: Env, j: nat, k: nat)
    requires Good(e) && e.Binary?
    ensures var left, right := Seen(Meaning(e.left, env), j), Seen(Meaning(e.right, env), k);
            Seen(Meaning(e, env), k) == if left.Got? then Operate(e.op, left.v, right) else left
  {
  }

  /** An operator ends what stands before it. */
  lemma OperatorEdge(s: string, j: nat)
    requires j < |s| && (IsMulOp(s[j]) || IsAddOp(s[j]))
    ensures Edge(s, j) && (IsAddOp(s[j]) ==> NotMulOp(s, j))
  {
  }

  predicate NotMulOp(s: string, j: nat) { !IsMulOp(Peek(s, j)) }

  /** A product's text leaves the loop of `multiplicative` behind it, holding its value. */
  lemma {:induction false} MulSpine(s: string, i: nat, e: Expr, env: Env)
    requires Good(e) && Spelled(s, i, PrintAt(e, 1)) && Edge(s, i + |PrintAt(e, 1)|)
    ensures Multiplicative(s, i, env) == MulLoop(s, Seen(Meaning(e, env), i + |PrintAt(e, 1)|), env)
    decreases e, if Level(e) == 0 then 4 else if Level(e) == 1 then 0 else 1
  {
    hide Primary, Meaning, MulLoop, Print, PrintAt, Spelled, Operate, Edge;
    if Level(e) == 1 {
      var j, k := i + |PrintAt(e.left, 1)|, i + |Print(e)|;
      BinaryText(e, 1);
      BinaryParts(s, i, e);
      OperatorEdge(s, j);
      MulSpine(s, i, e.left, env);
      PrimaryBack(s, j + 1, e.right, env);
      MulStep(s, j, Seen(Meaning(e.left, env), j), Seen(Meaning(e.right, env), k), env);
      SeenBinary(e, env, j, k);
      LoopStuck(s, env);
    } else {
      SamePlace(e);
      PrimaryBack(s, i, e, env);
    }
  }

  lemma SamePlace(e: Expr)
    requires Level(e) != 1
    ensures PrintAt(e, 1) == PrintAt(e, 2)
  {
  }

  /** The loops pass failures on. */
  lemma LoopStuck(s: string, env: Env)
    ensures MulLoop(s, Undef, env) == Undef && MulLoop(s, Bad, env) == Bad
    ensures AddLoop(s, Undef, env) == Undef && AddLoop(s, Bad, env) == Bad
  {
  }

  lemma MulStops(s: string, r: Parsed, env: Env)
    requires r.Got? ==> r.i <= |s| && Edge(s, r.i) && NotMulOp(s, r.i)
    ensures MulLoop(s, r, env) == r
  {
    if r.Got? { NoSkip(s, r.i); }
  }

  lemma AddStops(s: string, r: Parsed, env: Env)
    requires r.Got? ==> r.i <= |s| && Edge(s, r.i) && !IsAddOp(Peek(s, r.i))
    ensures AddLoop(s, r, env) == r
  {
    if r.Got? { NoSkip(s, r.i); }
  }

  /** A sum's text leaves the loop of `additive` behind it, holding its value. */
  lemma {:induction false} AddSpine(s: string, i: nat, e: Expr, env: Env)
    requires Good(e) && Spelled(s, i, Print(e)) && Edge(s, i + |Print(e)|) && NotMulOp(s, i + |Print(e)|)
    ensures Additive(s, i, env) == AddLoop(s, Seen(Meaning(e, env), i + |Print(e)|), env)
    decreases e, Level(e)
  {
    hide Multiplicative, Meaning, AddLoop, MulLoop, Print, Operate, Spelled, Edge, NotMulOp;
    WithinText(s, i, Print(e));
    if Level(e) == 0 {
      var j, k := i + |PrintAt(e.left, 0)|, i + |Print(e)|;
      BinaryParts(s, i, e);
      OperatorEdge(s, j);
      assert PrintAt(e.left, 0) == Print(e.left);
      AddSpine(s, i, e.left, env);
      MulSpine(s, j + 1, e.right, env);
      MulStops(s, Seen(Meaning(e.right, env), k), env);
      AddStep(s, j, Seen(Meaning(e.left, env), j), Seen(Meaning(e.right, env), k), env);
      SeenBinary(e, env, j, k);
      LoopStuck(s, env);
    } else {
      MulSpine(s, i, e, env);
      MulStops(s, Seen(Meaning(e, env), i + |Print(e)|), env);
    }
  }

  lemma WithinText(s: string, i: nat, t: string)
    requires Spelled(s, i, t)
    ensures i + |t| <= |s|
  {
  }

  /** The parser undoes the printer: the printed text of any tree evaluates, all of it consumed, to the tree's meaning
      (value, undefined symbol or zero divisor), although `*` and `%` each have two roles. */
  lemma EvalPrinted(e: Expr, env: Env)
    requires Good(e)
    ensures Eval(Print(e), env) == Meaning(e, env)
  {
    var s := Print(e);
    assert s[0..|s|] == s;
    AddSpine(s, 0, e, env);
    AddStops(s, Seen(Meaning(e, env), |s|), env);
  }
}
