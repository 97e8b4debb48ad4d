/** BASIC expression trees, their text, and the proof that evaluating the text gives the tree's meaning. */
module BasicPrint {
  import opened Bits
  import opened Text
  import opened BasicCells
  import opened BasicExpr

  datatype Tree = Lit(n: nat) | Var(letter: char) | Neg(arg: Tree) | Bin(op: Op, left: Tree, right: Tree)

  predicate Good(e: Tree) {
    match e
    case Lit(_) => true
    case Var(c) => IsLetter(c)
    case Neg(a) => Good(a)
    case Bin(_, l, r) => Good(l) && Good(r)
  }

  /** The meaning of a tree in 16-bit words. */
  function Meaning(e: Tree, vars: seq<byte>): word
    requires Good(e) && |vars| == 52
  {
    match e
    case Lit(n) => n % TWO16
    case Var(c) => Letter(vars, c)
    case Neg(a) => Negated(Meaning(a, vars))
    case Bin(op, l, r) => Operate(op, Meaning(l, vars), Meaning(r, vars))
  }

  predicate IsCompare(op: Op) { !(op.Plus? || op.Minus? || op.Times? || op.Divide?) }

  /** How tightly a tree binds: comparison 0, sum 1, product 2, negation 3, atoms 4. */
  function Level(e: Tree): nat {
    match e
    case Bin(op, _, _) => if IsCompare(op) then 0 else if op.Plus? || op.Minus? then 1 else 2
    case Neg(_) => 3
    case _ => 4
  }

  /** Where the operands of a binary tree of a level stand: a comparison takes one sum on either side. */
  function LeftLevel(level: nat): nat { if level == 0 then 1 else level }

  function RightLevel(level: nat): nat { level + 1 }

  function Symbol(op: Op): (r: string)
    ensures r != ""
  {
    match op
    case Plus => "+"
    case Minus => "-"
    case Times => "*"
    case Divide => "/"
    case Less => "<"
    case Greater => ">"
    case Equal => "="
    case LessEqual => "<="
    case GreaterEqual => ">="
    case NotEqual => "<>"
  }

  function Print(e: Tree): (r: string)
    ensures r != ""
    decreases e, 0
  {
    match e
    case Lit(n) => Decimal(n)
    case Var(c) => [c]
    case Neg(a) => "-" + PrintAt(a, 4)
    case Bin(op, l, r) => PrintAt(l, LeftLevel(Level(e))) + Symbol(op) + PrintAt(r, RightLevel(Level(e)))
  }

  function PrintAt(e: Tree, level: nat): (r: string)
    ensures r != ""
    decreases e, 1
  {
    if Level(e) >= level then Print(e) else "(" + Print(e) + ")"
  }

  /** The deepest nesting of parentheses in the printed text. */
  function Nest(e: Tree): nat
    decreases e, 0
  {
    match e
    case Neg(a) => NestAt(a, 4)
    case Bin(op, l, r) => Max(NestAt(l, LeftLevel(Level(e))), NestAt(r, RightLevel(Level(e))))
    case _ => 0
  }

  function NestAt(e: Tree, level: nat): nat
    decreases e, 1
  {
    if Level(e) >= level then Nest(e) else 1 + Nest(e)
  }

  /** The most operands waiting at once. */
  function Pending(e: Tree): nat {
    match e
    case Neg(a) => Pending(a)
    case Bin(_, l, r) => Max(Pending(l), 1 + Pending(r))
    case _ => 0
  }

  /** What evaluating a tree's text gives, with the cursor behind it at `j`. */
  function Seen(e: Tree, vars: seq<byte>, j: nat): Result
    requires Good(e) && |vars| == 52
  {
    Result(Meaning(e, vars), j, Pending(e))
  }

  /** What may stand behind a number or a letter: no digit and no space. */
  predicate Edge(s: string, j: nat) { !IsDigit(Peek(s, j)) && !IsSpace(Peek(s, j)) }

  lemma NoSkip(s: string, i: nat)
    requires !IsSpace(Peek(s, i))
    ensures Skip(s, i) == i
  {
  }

  /** Ten times and a digit, with and without the wrap at 2^16. */
  lemma WrapDigit(n: nat, d: nat)
    ensures (10 * (n % TWO16) + d) % TWO16 == (10 * n + d) % TWO16
  {
    DivSplit(n, TWO16);
    DivSplit(10 * (n % TWO16) + d, TWO16);
    ModUnique(10 * n + d, TWO16, 10 * (n / TWO16) + (10 * (n % TWO16) + d) / TWO16, (10 * (n % TWO16) + d) % TWO16);
  }

  /** Scanning the first `k` digits of a numeral from an accumulator. */
  lemma {:induction false} ScanPart(s: string, i: nat, n: nat)
    requires Spelled(s, i, Decimal(n))
    ensures ScanDec(s, i, 0) == ScanDec(s, i + |Decimal(n)|, n % TWO16)
  {
    var t := Decimal(n);
    var d := ('0' as int + n % 10) as char;
    if n < 10 {
      assert s[i] == s[i..i + |t|][0];
      assert ScanDec(s, i, 0) == ScanDec(s, i + 1, n);
    } else {
      SpelledSplit(s, i, Decimal(n / 10), [d]);
      ScanPart(s, i, n / 10);
      WrapDigit(n / 10, n % 10);
      var j := i + |Decimal(n / 10)|;
      assert ScanDec(s, j, n / 10 % TWO16) == ScanDec(s, j + 1, (10 * (n / 10 % TWO16) + n % 10) % TWO16);
    }
  }

  lemma NumberBack(s: string, i: nat, n: nat)
    requires Spelled(s, i, Decimal(n)) && Edge(s, i + |Decimal(n)|)
    ensures IsDigit(Peek(s, i)) && ScanDec(s, i, 0) == (n % TWO16, i + |Decimal(n)|)
  {
    ScanPart(s, i, n);
    assert s[i] == s[i..i + |Decimal(n)|][0];
  }

  /** A printed tree starts with no space and no comparison sign. */
  lemma {:induction false} FirstChar(e: Tree, level: nat)
    requires Good(e)
    ensures var c := PrintAt(e, level)[0];
            c == '(' || c == '-' || IsDigit(c) || IsLetter(c)
    ensures level >= 4 ==> PrintAt(e, level)[0] != '-'
    decreases e, if Level(e) >= level then 0 else 1
  {
    if Level(e) >= level {
      match e
      case Bin(_, l, _) => FirstChar(l, LeftLevel(Level(e)));
      case _ =>
    }
  }

  lemma Within(s: string, i: nat, t: string)
    requires Spelled(s, i, t)
    ensures i + |t| <= |s|
  {
  }

  lemma FirstAt(s: string, i: nat, t: string)
    requires Spelled(s, i, t) && t != ""
    ensures Peek(s, i) == t[0]
  {
    assert t + "" == t;
    SpelledSplit(s, i, t, "");
  }

  /** The parts of a binary tree's text. */
  lemma BinParts(s: string, i: nat, e: Tree)
    requires e.Bin? && Spelled(s, i, Print(e))
    ensures var a, o, b := PrintAt(e.left, LeftLevel(Level(e))), Symbol(e.op), PrintAt(e.right, RightLevel(Level(e)));
            && Spelled(s, i, a) && Spelled(s, i + |a|, o) && Spelled(s, i + |a| + |o|, b)
            && |Print(e)| == |a| + |o| + |b|
  {
    hide PrintAt, Symbol, Spelled;
    var a, o, b := PrintAt(e.left, LeftLevel(Level(e))), Symbol(e.op), PrintAt(e.right, RightLevel(Level(e)));
    SpelledSplit(s, i, a + o, b);
    SpelledSplit(s, i, a, o);
  }

  lemma ParenParts(s: string, i: nat, t: string)
    requires Spelled(s, i, "(" + t + ")")
    ensures Peek(s, i) == '(' && Spelled(s, i + 1, t) && Peek(s, i + 1 + |t|) == ')' && i + 2 + |t| <= |s|
  {
    SpelledSplit(s, i, "(" + t, ")");
    SpelledSplit(s, i, "(", t);
  }

  // ---- the layers ----

  lemma AtomBack(s: string, i: nat, e: Tree, vars: seq<byte>, pd: nat)
    requires |vars| == 52 && Good(e) && (e.Lit? || e.Var?) && Spelled(s, i, Print(e)) && Edge(s, i + |Print(e)|)
    ensures i <= |s| && Primary(s, i, vars, pd) == Seen(e, vars, i + |Print(e)|)
  {
    hide Expr, Decimal, ScanDec, Letter;
    FirstAt(s, i, Print(e));
    FirstChar(e, 4);
    NoSkip(s, i);
    if e.Lit? { NumberBack(s, i, e.n); }
  }

  lemma {:induction false} PrimaryBack(s: string, i: nat, e: Tree, vars: seq<byte>, pd: nat)
    requires |vars| == 52 && Good(e) && Spelled(s, i, PrintAt(e, 4)) && Edge(s, i + |PrintAt(e, 4)|)
    requires pd + NestAt(e, 4) < 8
    ensures i <= |s| && Primary(s, i, vars, pd) == Seen(e, vars, i + |PrintAt(e, 4)|)
    decreases e, if Level(e) < 4 then 10 else 0
  {
    hide Primary, Spelled, Edge, Meaning;
    Within(s, i, PrintAt(e, 4));
    if Level(e) == 4 {
      AtomBack(s, i, e, vars, pd);
    } else {
      ParenBack(s, i, e, vars, pd);
    }
  }

  lemma {:induction false} ParenBack(s: string, i: nat, e: Tree, vars: seq<byte>, pd: nat)
    requires |vars| == 52 && Good(e) && Spelled(s, i, "(" + Print(e) + ")") && pd + 1 + Nest(e) < 8
    ensures i <= |s| && Primary(s, i, vars, pd) == Seen(e, vars, i + |Print(e)| + 2)
    decreases e, 9
  {
    hide Expr, Print, Meaning, Spelled, ScanDec, Letter;
    ParenParts(s, i, Print(e));
    NoSkip(s, i);
    NoSkip(s, i + 1 + |Print(e)|);
    ExprBack(s, i + 1, e, vars, pd + 1);
  }

  lemma {:induction false} UnaryBack(s: string, i: nat, e: Tree, vars: seq<byte>, pd: nat)
    requires |vars| == 52 && Good(e) && Spelled(s, i, PrintAt(e, 3)) && Edge(s, i + |PrintAt(e, 3)|)
    requires pd + NestAt(e, 3) < 8
    ensures i <= |s| && Unary(s, i, vars, pd) == Seen(e, vars, i + |PrintAt(e, 3)|)
    decreases e, if Level(e) == 3 then 0 else if Level(e) == 4 then 1 else 11
  {
    hide Primary, Meaning, Edge;
    Within(s, i, PrintAt(e, 3));
    FirstAt(s, i, PrintAt(e, 3));
    FirstChar(e, 3);
    NoSkip(s, i);
    if Level(e) == 3 {
      SpelledSplit(s, i, "-", PrintAt(e.arg, 4));
      PrimaryBack(s, i + 1, e.arg, vars, pd);
      NegMeaning(e, vars);
    } else {
      assert PrintAt(e, 3) == PrintAt(e, 4);
      FirstChar(e, 4);
      PrimaryBack(s, i, e, vars, pd);
    }
  }

  lemma NegMeaning(e: Tree, vars: seq<byte>)
    requires |vars| == 52 && Good(e) && e.Neg?
    ensures Meaning(e, vars) == Negated(Meaning(e.arg, vars))
  {
  }

  /** What a binary tree means, in the evaluator's terms. */
  lemma SeenBin(e: Tree, vars: seq<byte>, j: nat, k: nat)
    requires |vars| == 52 && Good(e) && e.Bin?
    ensures Seen(e, vars, k) == Combine(e.op, Seen(e.left, vars, j), Seen(e.right, vars, k))
  {
    hide Operate;
  }

  lemma TermStep(s: string, left: Result, right: Result, op: Op, vars: seq<byte>, pd: nat)
    requires |vars| == 52 && left.i < |s| && (op.Times? || op.Divide?) && [s[left.i]] == Symbol(op)
    requires Unary(s, left.i + 1, vars, pd) == right
    ensures right.i <= |s| && TermLoop(s, left, vars, pd) == TermLoop(s, Combine(op, left, right), vars, pd)
  {
    hide Unary, Operate;
    assert s[left.i] == Symbol(op)[0];
    NoSkip(s, left.i);
  }

  lemma SumStep(s: string, left: Result, right: Result, op: Op, vars: seq<byte>, pd: nat)
    requires |vars| == 52 && left.i < |s| && (op.Plus? || op.Minus?) && [s[left.i]] == Symbol(op)
    requires Term(s, left.i + 1, vars, pd) == right
    ensures right.i <= |s| && SumLoop(s, left, vars, pd) == SumLoop(s, Combine(op, left, right), vars, pd)
  {
    hide Term, Operate;
    assert s[left.i] == Symbol(op)[0];
    NoSkip(s, left.i);
  }

  /** A product's text leaves the loop of `ev_term` behind it. */
  lemma {:induction false} TermSpine(s: string, i: nat, e: Tree, vars: seq<byte>, pd: nat)
    requires |vars| == 52 && Good(e) && Spelled(s, i, PrintAt(e, 2)) && Edge(s, i + |PrintAt(e, 2)|)
    requires pd + NestAt(e, 2) < 8
    ensures i + |PrintAt(e, 2)| <= |s|
    ensures Term(s, i, vars, pd) == TermLoop(s, Seen(e, vars, i + |PrintAt(e, 2)|), vars, pd)
    decreases e, if Level(e) == 2 then 0 else if Level(e) > 2 then 2 else 12
  {
    hide Unary, Meaning, TermLoop, Spelled, Pending, Combine;
    Within(s, i, PrintAt(e, 2));
    if Level(e) == 2 {
      BinParts(s, i, e);
      var j, k := i + |PrintAt(e.left, 2)|, i + |Print(e)|;
      OneSymbol(s, j, e.op);
      TermSpine(s, i, e.left, vars, pd);
      UnaryBack(s, j + 1, e.right, vars, pd);
      TermStep(s, Seen(e.left, vars, j), Seen(e.right, vars, k), e.op, vars, pd);
      SeenBin(e, vars, j, k);
    } else {
      assert PrintAt(e, 2) == PrintAt(e, 3);
      UnaryBack(s, i, e, vars, pd);
    }
  }

  /** A one-character operator in the text: it is neither digit nor space. */
  lemma OneSymbol(s: string, j: nat, op: Op)
    requires !IsCompare(op) && Spelled(s, j, Symbol(op))
    ensures j < |s| && [s[j]] == Symbol(op) && |Symbol(op)| == 1 && Edge(s, j)
    ensures op.Plus? || op.Minus? ==> NotProduct(s, j)
  {
    assert s[j] == s[j..j + 1][0];
    assert s[j] == Symbol(op)[0];
  }

  predicate NotProduct(s: string, j: nat) { Peek(s, j) != '*' && Peek(s, j) != '/' }

  predicate NotSum(s: string, j: nat) { Peek(s, j) != '+' && Peek(s, j) != '-' }

  lemma TermStops(s: string, r: Result, vars: seq<byte>, pd: nat)
    requires |vars| == 52 && r.i <= |s| && Edge(s, r.i) && NotProduct(s, r.i)
    ensures TermLoop(s, r, vars, pd) == r
  {
    NoSkip(s, r.i);
  }

  lemma SumStops(s: string, r: Result, vars: seq<byte>, pd: nat)
    requires |vars| == 52 && r.i <= |s| && Edge(s, r.i) && NotSum(s, r.i)
    ensures SumLoop(s, r, vars, pd) == r
  {
    NoSkip(s, r.i);
  }

  /** A sum's text leaves the loop of `ev_additive` behind it. */
  lemma {:induction false} SumSpine(s: string, i: nat, e: Tree, vars: seq<byte>, pd: nat)
    requires |vars| == 52 && Good(e) && Spelled(s, i, PrintAt(e, 1))
    requires Edge(s, i + |PrintAt(e, 1)|) && NotProduct(s, i + |PrintAt(e, 1)|)
    requires pd + NestAt(e, 1) < 8
    ensures i + |PrintAt(e, 1)| <= |s|
    ensures Sum(s, i, vars, pd) == SumLoop(s, Seen(e, vars, i + |PrintAt(e, 1)|), vars, pd)
    decreases e, if Level(e) == 1 then 0 else if Level(e) > 1 then 3 else 13
  {
    hide Term, Meaning, SumLoop, TermLoop, Spelled, Pending, Combine, Edge, NotProduct;
    Within(s, i, PrintAt(e, 1));
    if Level(e) == 1 {
      BinParts(s, i, e);
      var j, k := i + |PrintAt(e.left, 1)|, i + |Print(e)|;
      OneSymbol(s, j, e.op);
      SumSpine(s, i, e.left, vars, pd);
      TermSpine(s, j + 1, e.right, vars, pd);
      TermStops(s, Seen(e.right, vars, k), vars, pd);
      SumStep(s, Seen(e.left, vars, j), Seen(e.right, vars, k), e.op, vars, pd);
      SeenBin(e, vars, j, k);
    } else {
      assert PrintAt(e, 1) == PrintAt(e, 2);
      TermSpine(s, i, e, vars, pd);
      TermStops(s, Seen(e, vars, i + |PrintAt(e, 1)|), vars, pd);
    }
  }

  /** A comparison operator in the text is read whole, whatever operand follows. */
  lemma RelationBack(s: string, j: nat, op: Op, k: nat)
    requires IsCompare(op) && Spelled(s, j, Symbol(op)) && k == j + |Symbol(op)|
    requires var c := Peek(s, k); c == '(' || c == '-' || IsDigit(c) || IsLetter(c)
    ensures j < |s| && IsRelation(s[j]) && Relation(s, j) == (op, k)
    ensures Edge(s, j) && NotProduct(s, j) && NotSum(s, j)
  {
    var w := Symbol(op);
    assert s[j] == s[j..j + |w|][0];
    if |w| == 2 { assert s[j + 1] == s[j..j + 2][1]; }
    NoSkip(s, j + 1);
  }

  /** What may follow a whole expression. */
  predicate Ends(s: string, j: nat) {
    Edge(s, j) && NotProduct(s, j) && NotSum(s, j) && !IsRelation(Peek(s, j))
  }

  lemma {:induction false} ExprBack(s: string, i: nat, e: Tree, vars: seq<byte>, pd: nat)
    requires |vars| == 52 && Good(e) && Spelled(s, i, Print(e)) && Ends(s, i + |Print(e)|) && pd + Nest(e) < 8
    ensures i <= |s| && Expr(s, i, vars, pd) == Seen(e, vars, i + |Print(e)|)
    decreases e, 4
  {
    hide Sum, Meaning, SumLoop, Spelled, Pending, Combine, Relation, Peek;
    Within(s, i, Print(e));
    var k := i + |Print(e)|;
    if Level(e) == 0 {
      BinParts(s, i, e);
      var j := i + |PrintAt(e.left, 1)|;
      var j' := j + |Symbol(e.op)|;
      FirstAt(s, j', PrintAt(e.right, 1));
      FirstChar(e.right, 1);
      RelationBack(s, j, e.op, j');
      SumSpine(s, i, e.left, vars, pd);
      SumStops(s, Seen(e.left, vars, j), vars, pd);
      SumSpine(s, j', e.right, vars, pd);
      SumStops(s, Seen(e.right, vars, k), vars, pd);
      SeenBin(e, vars, j, k);
      RelationStep(s, i, Seen(e.left, vars, j), Seen(e.right, vars, k), e.op, j', vars, pd);
    } else {
      assert PrintAt(e, 1) == Print(e);
      SumSpine(s, i, e, vars, pd);
      SumStops(s, Seen(e, vars, k), vars, pd);
      NoRelation(s, i, Seen(e, vars, k), vars, pd);
    }
  }

  lemma RelationStep(s: string, i: nat, left: Result, right: Result, op: Op, j': nat, vars: seq<byte>, pd: nat)
    requires |vars| == 52 && i <= |s| && Sum(s, i, vars, pd) == left && left.i < |s| && Edge(s, left.i)
    requires IsRelation(s[left.i]) && Relation(s, left.i) == (op, j') && j' <= |s| && Sum(s, j', vars, pd) == right
    ensures Expr(s, i, vars, pd) == Combine(op, left, right)
  {
    hide Sum, Relation, Combine;
    NoSkip(s, left.i);
  }

  lemma NoRelation(s: string, i: nat, left: Result, vars: seq<byte>, pd: nat)
    requires |vars| == 52 && i <= |s| && Sum(s, i, vars, pd) == left && Edge(s, left.i) && !IsRelation(Peek(s, left.i))
    ensures Expr(s, i, vars, pd) == left
  {
    hide Sum, Relation, Combine;
    NoSkip(s, left.i);
  }

  /** Evaluating the printed text of any tree with at most seven nested parentheses gives the tree's meaning, consumes the
      text, and needs no more of the value stack than the tree has operands pending. */
  lemma EvalPrinted(e: Tree, vars: seq<byte>)
    requires |vars| == 52 && Good(e) && Nest(e) < 8
    ensures Expr(Print(e), 0, vars, 0) == Result(Meaning(e, vars), |Print(e)|, Pending(e))
  {
    hide Meaning, Expr;
    var s := Print(e);
    assert s[0..|s|] == s;
    ExprBack(s, 0, e, vars, 0);
  }
}
