/** The run loop: EPTR and CPTR walking over the stored lines, with the flags that make NEXT and RETURN resume in mid-line. */
module BasicRun {
  import opened Bits
  import opened Text
  import opened BasicCells
  import opened BasicLoops

  datatype Stmt =
    | Assign(v: nat, x: Expr)
    | ForTo(v: nat, start: Expr, limit: Expr, step: Expr)
    | NextOf(wanted: Option<nat>)
    | Gosub(line: word)
    | Return
    | End

  /** A stored line: its number, where its record starts, the record's length, its statements, and the cursor positions at which
      they begin, the last one being the end of the text. */
  datatype Line = Line(num: word, at: word, len: byte, stmts: seq<Stmt>, marks: seq<word>)

  datatype Program = Program(lines: seq<Line>, pend: word)

  const PROG: word := 0x300

  predicate StmtOk(s: Stmt) {
    (s.Assign? ==> s.v < 26) && (s.ForTo? ==> s.v < 26)
  }

  predicate LineOk(l: Line) {
    && |l.marks| == |l.stmts| + 1
    && l.marks[0] == l.at + 3 && l.marks[|l.stmts|] < l.at + l.len
    && (forall i, j :: 0 <= i < j < |l.marks| ==> l.marks[i] < l.marks[j])
    && (forall i :: 0 <= i < |l.stmts| ==> StmtOk(l.stmts[i]))
  }

  /** Where line `i` starts; behind the last one, the end of the program. */
  function StartOf(p: Program, i: nat): word
    requires i <= |p.lines|
  {
    if i < |p.lines| then p.lines[i].at else p.pend
  }

  /** Records lie one behind the other from PROG on. */
  predicate LaidOut(p: Program) {
    && StartOf(p, 0) == PROG
    && (forall i :: 0 <= i < |p.lines| ==> LineOk(p.lines[i]) && StartOf(p, i + 1) == StartOf(p, i) + p.lines[i].len)
  }

  lemma {:induction false} StartsRise(p: Program, i: nat, j: nat)
    requires LaidOut(p) && i < j <= |p.lines|
    ensures StartOf(p, i) + 3 < StartOf(p, j)
    decreases j
  {
    assert LineOk(p.lines[j - 1]) && StartOf(p, j) == StartOf(p, j - 1) + p.lines[j - 1].len;
    assert p.lines[j - 1].marks[0] <= p.lines[j - 1].marks[|p.lines[j - 1].stmts|];
    if i < j - 1 {
      StartsRise(p, i, j - 1);
    }
  }

  /** The line whose record EPTR points to. */
  function LineAt(p: Program, eptr: word, from: nat := 0): (i: nat)
    requires from <= |p.lines|
    ensures from <= i <= |p.lines|
    ensures i < |p.lines| ==> p.lines[i].at == eptr
    ensures forall j :: from <= j < i ==> p.lines[j].at != eptr
    decreases |p.lines| - from
  {
    if from == |p.lines| || p.lines[from].at == eptr then from else LineAt(p, eptr, from + 1)
  }

  /** The statement CPTR points to. */
  function StmtAt(l: Line, cptr: word, from: nat := 0): (i: nat)
    requires from <= |l.marks|
    ensures from <= i <= |l.marks|
    ensures i < |l.marks| ==> l.marks[i] == cptr
    ensures forall j :: from <= j < i ==> l.marks[j] != cptr
    decreases |l.marks| - from
  {
    if from == |l.marks| || l.marks[from] == cptr then from else StmtAt(l, cptr, from + 1)
  }

  /** `FIND_LINE`, as a line number to the line that has it. */
  function LineNumbered(p: Program, num: word, from: nat := 0): (i: nat)
    requires from <= |p.lines|
    ensures from <= i <= |p.lines|
    ensures i < |p.lines| ==> p.lines[i].num == num
    decreases |p.lines| - from
  {
    if from == |p.lines| || p.lines[from].num == num then from else LineNumbered(p, num, from + 1)
  }

  /** A frame of the GOSUB stack. */
  datatype Ret = Ret(eptr: word, cptr: word)

  datatype Machine = Machine(eptr: word, cptr: word, resumf: bool, goflag: bool, running: bool, st: St, calls: seq<Ret>)

  const MAX_CALLS := 60

  /** `run_loop` up to `rl_exec`: the end of the program, and the header reset unless a statement asked to resume in mid-line. */
  function Header(p: Program, m: Machine): Machine {
    if m.eptr >= p.pend then m.(running := false)
    else if m.resumf then m.(goflag := false, resumf := false)
    else m.(goflag := false, cptr := ToWord(m.eptr + 3))
  }

  /** One statement; `behind` is the cursor behind it and its colon. */
  function Do(p: Program, s: Stmt, m: Machine, behind: word): (r: Machine)
    requires Good(m.st) && StmtOk(s)
    ensures Good(r.st)
  {
    match s
    case Assign(v, x) => m.(st := m.st.(vars := m.st.vars[v := x(m.st.vars)]))
    case ForTo(v, start, limit, step) =>
      var vars := Entered(v, start, m.st.vars);
      (match For(m.st, Frame(v, limit(vars), step(vars), m.eptr, behind), start(m.st.vars))
       case Some(st) => m.(st := st)
       case None => m.(running := false, goflag := false, resumf := false))
    case NextOf(wanted) =>
      (match Next(m.st, wanted)
       case Resumed(st, e, c) => m.(st := st, eptr := e, cptr := c, resumf := true, goflag := true)
       case Finished(st) => m.(st := st)
       case Ignored(st) => m.(st := st))
    case Gosub(num) =>
      if |m.calls| >= MAX_CALLS then m.(running := false, goflag := false, resumf := false)
      else
        var li, calls := LineNumbered(p, num), m.calls + [Ret(m.eptr, behind)];
        if li == |p.lines| then m.(running := false, calls := calls)
        else m.(eptr := p.lines[li].at, goflag := true, calls := calls)
    case Return =>
      if m.calls == [] then m
      else
        var c := m.calls[|m.calls| - 1];
        m.(eptr := c.eptr, cptr := c.cptr, resumf := true, goflag := true, calls := m.calls[..|m.calls| - 1])
    case End => m.(running := false)
  }

  /** One turn of the statement chain, together with what `run_loop` does before the next one: an ended run stays put, a jump
      goes to the header, a colon goes on in the line, and the end of the text goes on to the next record. */
  function Turn(p: Program, m: Machine): (r: Machine)
    requires LaidOut(p) && Good(m.st)
    ensures Good(r.st)
  {
    var li := LineAt(p, m.eptr);
    if !m.running || li == |p.lines| then m
    else
      var l := p.lines[li];
      var si := StmtAt(l, m.cptr);
      var r := if si < |l.stmts| then Do(p, l.stmts[si], m, l.marks[si + 1]) else m;
      if !r.running then r
      else if r.goflag then Header(p, r)
      else if si + 1 < |l.stmts| then r.(cptr := l.marks[si + 1])
      else Header(p, r.(eptr := ToWord(r.eptr + l.len)))
  }

  function Turns(p: Program, m: Machine, n: nat): (r: Machine)
    requires LaidOut(p) && Good(m.st)
    ensures Good(r.st)
    decreases n
  {
    if n == 0 then m else Turns(p, Turn(p, m), n - 1)
  }

  /** `cmd_RUN`. */
  function Started(p: Program, st: St): Machine {
    Header(p, Machine(PROG, PROG, false, false, true, st, []))
  }

  lemma {:induction false} TurnsAdd(p: Program, m: Machine, a: nat, b: nat)
    requires LaidOut(p) && Good(m.st)
    ensures Turns(p, m, a + b) == Turns(p, Turns(p, m, a), b)
    decreases a
  {
    hide Turn;
    if a > 0 {
      TurnsAdd(p, Turn(p, m), a - 1, b);
    }
  }

  lemma OneTurn(p: Program, m: Machine)
    requires LaidOut(p) && Good(m.st)
    ensures Turns(p, m, 1) == Turn(p, m)
  {
    hide Turn;
    assert Turns(p, m, 1) == Turns(p, Turn(p, m), 0);
  }

  // ---- the program as one list of statements ----

  /** The statements of the first `n` lines. */
  function Upto(p: Program, n: nat): seq<Stmt>
    requires n <= |p.lines|
  {
    if n == 0 then [] else Upto(p, n - 1) + p.lines[n - 1].stmts
  }

  function Code(p: Program): seq<Stmt> { Upto(p, |p.lines|) }

  /** The number of the statement at place (`li`, `si`). */
  function Index(p: Program, li: nat, si: nat): nat
    requires li <= |p.lines|
  {
    |Upto(p, li)| + si
  }

  lemma {:induction false} UptoPrefix(p: Program, i: nat, j: nat)
    requires i <= j <= |p.lines|
    ensures Upto(p, i) <= Upto(p, j)
    decreases j
  {
    if i < j {
      UptoPrefix(p, i, j - 1);
    }
  }

  lemma CodeAt(p: Program, li: nat, si: nat)
    requires li < |p.lines| && si < |p.lines[li].stmts|
    ensures Index(p, li, si) < |Upto(p, li + 1)| <= |Code(p)| && Code(p)[Index(p, li, si)] == p.lines[li].stmts[si]
  {
    UptoPrefix(p, li + 1, |p.lines|);
    assert Upto(p, li + 1) == Upto(p, li) + p.lines[li].stmts;
  }

  /** A statement has one place. */
  lemma OnePlace(p: Program, li: nat, si: nat, li': nat, si': nat)
    requires li < |p.lines| && si < |p.lines[li].stmts| && li' < |p.lines| && si' < |p.lines[li'].stmts|
    requires Index(p, li, si) == Index(p, li', si')
    ensures li == li' && si == si'
  {
    CodeAt(p, li, si);
    CodeAt(p, li', si');
    if li < li' {
      UptoPrefix(p, li + 1, li');
    } else if li' < li {
      UptoPrefix(p, li' + 1, li);
    }
  }

  /** The machine is about to execute at place (`li`, `si`), with no flag pending; `si` may be the end of the text. */
  predicate AtPlace(p: Program, m: Machine, li: nat, si: nat) {
    && m.running && !m.resumf && !m.goflag
    && li < |p.lines| && si < |p.lines[li].marks|
    && m.eptr == p.lines[li].at && m.cptr == p.lines[li].marks[si]
  }

  /** Everything before statement `g` is done and nothing from it on; at the end of the program the run may be over. */
  ghost predicate Here(p: Program, m: Machine, g: nat) {
    && Good(m.st) && !m.resumf && !m.goflag
    && (m.running ==> exists li, si :: AtPlace(p, m, li, si) && Index(p, li, si) == g)
    && (!m.running ==> g == |Code(p)|)
  }

  lemma PlaceFound(p: Program, m: Machine, li: nat, si: nat)
    requires LaidOut(p) && AtPlace(p, m, li, si)
    ensures LineAt(p, m.eptr) == li && StmtAt(p.lines[li], m.cptr) == si && m.eptr < p.pend
  {
    var i := LineAt(p, m.eptr);
    if i < li { StartsRise(p, i, li); }
    StartsRise(p, li, |p.lines|);
    assert LineOk(p.lines[li]);
  }

  /** Falling off the end of a line. */
  lemma NextLine(p: Program, m: Machine, li: nat)
    requires LaidOut(p) && li < |p.lines| && Good(m.st)
    requires m.running && !m.resumf && !m.goflag && m.eptr == p.lines[li].at
    ensures var r := Header(p, m.(eptr := ToWord(m.eptr + p.lines[li].len)));
            && Here(p, r, Index(p, li + 1, 0)) && r.st == m.st && r.calls == m.calls
            && (if li + 1 < |p.lines| then AtPlace(p, r, li + 1, 0) else !r.running)
  {
    var r := Header(p, m.(eptr := ToWord(m.eptr + p.lines[li].len)));
    assert StartOf(p, li + 1) == StartOf(p, li) + p.lines[li].len;
    ModUnique(StartOf(p, li + 1), TWO16, 0, StartOf(p, li + 1));
    if li + 1 < |p.lines| {
      var l := p.lines[li + 1];
      assert LineOk(l);
      StartsRise(p, li + 1, |p.lines|);
      ModUnique(l.at + 3, TWO16, 0, l.marks[0]);
      assert AtPlace(p, r, li + 1, 0);
    }
  }

  /** A turn at the end of a line. */
  lemma FallsOff(p: Program, m: Machine, li: nat, si: nat)
    requires LaidOut(p) && Good(m.st) && AtPlace(p, m, li, si) && si == |p.lines[li].stmts|
    ensures var r := Turn(p, m);
            && r.st == m.st && r.calls == m.calls && Index(p, li + 1, 0) == Index(p, li, si)
            && (if li + 1 < |p.lines| then AtPlace(p, r, li + 1, 0) else !r.running)
  {
    hide Header, LineAt, StmtAt;
    PlaceFound(p, m, li, si);
    NextLine(p, m, li);
    assert Upto(p, li + 1) == Upto(p, li) + p.lines[li].stmts;
  }

  /** From the end of a line the run moves on to the next statement there is, through empty lines. */
  lemma {:induction false} Settle(p: Program, m: Machine, li: nat, si: nat) returns (n: nat, li': nat, si': nat)
    requires LaidOut(p) && Good(m.st) && AtPlace(p, m, li, si) && Index(p, li, si) < |Code(p)|
    ensures var r := Turns(p, m, n);
            && AtPlace(p, r, li', si') && si' < |p.lines[li'].stmts| && r.st == m.st && r.calls == m.calls
            && Index(p, li', si') == Index(p, li, si)
    decreases |p.lines| - li
  {
    assert LineOk(p.lines[li]);
    if si < |p.lines[li].stmts| {
      return 0, li, si;
    }
    hide Turn, Code, Upto;
    FallsOff(p, m, li, si);
    SettleNext(p, m, li);
    n, li', si' := Settle(p, Turn(p, m), li + 1, 0);
    n := n + 1;
  }

  lemma SettleNext(p: Program, m: Machine, li: nat)
    requires li < |p.lines| && Index(p, li + 1, 0) < |Code(p)|
    ensures li + 1 < |p.lines|
  {
  }

  /** What one statement does to the run: the state it leaves, and the statement that comes next. */
  lemma TurnDoes(p: Program, m: Machine, li: nat, si: nat)
    requires LaidOut(p) && Good(m.st) && AtPlace(p, m, li, si) && si < |p.lines[li].stmts|
    ensures var r := Do(p, p.lines[li].stmts[si], m, p.lines[li].marks[si + 1]);
            && (r.running && !r.goflag && !r.resumf && r.eptr == m.eptr ==>
                  Here(p, Turn(p, m), Index(p, li, si) + 1) && Turn(p, m).st == r.st && Turn(p, m).calls == r.calls)
            && (r.running && r.goflag ==> Turn(p, m) == Header(p, r))
            && (!r.running ==> Turn(p, m) == r)
  {
    hide Do, Header, LineAt, StmtAt;
    assert LineOk(p.lines[li]);
    PlaceFound(p, m, li, si);
    var l := p.lines[li];
    var r := Do(p, l.stmts[si], m, l.marks[si + 1]);
    if r.running && !r.goflag && !r.resumf && r.eptr == m.eptr {
      if si + 1 < |l.stmts| {
        assert AtPlace(p, Turn(p, m), li, si + 1);
      } else {
        NextLine(p, r, li);
        assert Upto(p, li + 1) == Upto(p, li) + l.stmts;
      }
    }
  }

  // ---- structured programs ----

  /** The number of statements of an item. */
  function Len(l: Item): nat {
    if l.Loop? then 2 + LenAll(l.body) else 1
  }

  function LenAll(ls: seq<Item>): nat {
    if ls == [] then 0 else Len(ls[0]) + LenAll(ls[1..])
  }

  /** The pointers `cmd_FOR` saves at statement `g`: its record, and the cursor behind it and its colon. */
  ghost predicate SavedAt(p: Program, eptr: word, cptr: word, g: nat) {
    exists li, si :: 0 <= li < |p.lines| && 0 <= si < |p.lines[li].stmts| && Index(p, li, si) == g && BehindIt(p, li, si, eptr, cptr)
  }

  predicate BehindIt(p: Program, li: nat, si: nat, eptr: word, cptr: word) {
    && li < |p.lines| && si + 1 < |p.lines[li].marks|
    && eptr == p.lines[li].at && cptr == p.lines[li].marks[si + 1]
  }

  /** The program's statements from `g` on are the item's, however they are spread over lines. */
  ghost predicate Placed(p: Program, l: Item, g: nat) {
    && g + Len(l) <= |Code(p)|
    && match l
       case Set(v, x) => Code(p)[g] == Assign(v, x)
       case Loop(v, start, limit, step, eptr, cptr, body) =>
         && Code(p)[g] == ForTo(v, start, limit, step) && SavedAt(p, eptr, cptr, g)
         && PlacedAll(p, body, g + 1)
         && Code(p)[g + 1 + LenAll(body)] == NextOf(Some(v))
       case Call(num, eptr, cptr, body) =>
         && Code(p)[g] == Gosub(num) && SavedAt(p, eptr, cptr, g)
         && LineNumbered(p, num) < |p.lines|
         && var h := Index(p, LineNumbered(p, num), 0);
         && PlacedAll(p, body, h) && h + LenAll(body) < |Code(p)| && Code(p)[h + LenAll(body)] == Return
  }

  ghost predicate PlacedAll(p: Program, ls: seq<Item>, g: nat) {
    g + LenAll(ls) <= |Code(p)| && (ls == [] || (Placed(p, ls[0], g) && PlacedAll(p, ls[1..], g + Len(ls[0]))))
  }

  /** The next statement is executed. */
  lemma Execute(p: Program, m: Machine, g: nat) returns (n: nat, li: nat, si: nat, r: Machine)
    requires LaidOut(p) && Here(p, m, g) && g < |Code(p)|
    ensures li < |p.lines| && si < |p.lines[li].stmts| && si + 1 < |p.lines[li].marks| && Index(p, li, si) == g
    ensures Code(p)[g] == p.lines[li].stmts[si] && StmtOk(Code(p)[g])
    ensures r == Machine(p.lines[li].at, p.lines[li].marks[si], false, false, true, m.st, m.calls)
    ensures var d, t := Do(p, Code(p)[g], r, p.lines[li].marks[si + 1]), Turns(p, m, n);
            && (d.running && !d.goflag && !d.resumf && d.eptr == r.eptr ==> Here(p, t, g + 1) && t.st == d.st && t.calls == d.calls)
            && (d.running && d.goflag ==> t == Header(p, d))
            && (!d.running ==> t == d)
  {
    hide Do, Header, Turn, Turns, Code, LineAt, StmtAt, Upto;
    var li0, si0 :| AtPlace(p, m, li0, si0) && Index(p, li0, si0) == g;
    n, li, si := Settle(p, m, li0, si0);
    r := Turns(p, m, n);
    CodeAt(p, li, si);
    assert LineOk(p.lines[li]);
    TurnDoes(p, r, li, si);
    TurnsAdd(p, m, n, 1);
    OneTurn(p, r);
    n := n + 1;
  }

  /** Resuming at a saved pointer pair goes on behind its FOR. */
  lemma ResumesBehind(p: Program, g: nat, m: Machine)
    requires LaidOut(p) && SavedAt(p, m.eptr, m.cptr, g) && Good(m.st)
    requires m.running && m.resumf && m.goflag
    ensures Here(p, Header(p, m), g + 1) && Header(p, m).st == m.st && Header(p, m).calls == m.calls
  {
    var li, si :| 0 <= li < |p.lines| && 0 <= si < |p.lines[li].stmts| && Index(p, li, si) == g && BehindIt(p, li, si, m.eptr, m.cptr);
    StartsRise(p, li, |p.lines|);
    assert AtPlace(p, Header(p, m), li, si + 1);
    assert Index(p, li, si + 1) == g + 1;
  }

  lemma SavedHere(p: Program, eptr: word, cptr: word, g: nat, li: nat, si: nat)
    requires SavedAt(p, eptr, cptr, g) && li < |p.lines| && si < |p.lines[li].stmts| && Index(p, li, si) == g
    ensures BehindIt(p, li, si, eptr, cptr)
  {
    var i, j :| 0 <= i < |p.lines| && 0 <= j < |p.lines[i].stmts| && Index(p, i, j) == g && BehindIt(p, i, j, eptr, cptr);
    OnePlace(p, i, j, li, si);
  }

  /** A jump to a line goes on with its first statement. */
  lemma JumpsTo(p: Program, li: nat, m: Machine)
    requires LaidOut(p) && li < |p.lines| && Good(m.st)
    requires m.running && !m.resumf && m.goflag && m.eptr == p.lines[li].at
    ensures Here(p, Header(p, m), Index(p, li, 0)) && Header(p, m).st == m.st && Header(p, m).calls == m.calls
  {
    var l := p.lines[li];
    assert LineOk(l);
    StartsRise(p, li, |p.lines|);
    ModUnique(l.at + 3, TWO16, 0, l.marks[0]);
    assert AtPlace(p, Header(p, m), li, 0);
  }

  /** The deepest nesting of calls. */
  function Calls(l: Item): nat {
    match l
    case Set(_, _) => 0
    case Loop(_, _, _, _, _, _, body) => CallsAll(body)
    case Call(_, _, _, body) => 1 + CallsAll(body)
  }

  function CallsAll(ls: seq<Item>): nat {
    if ls == [] then 0
    else
      var a, b := Calls(ls[0]), CallsAll(ls[1..]);
      if a >= b then a else b
  }

  /** The machine stands behind statement `g` with this state and this GOSUB stack. */
  ghost predicate Arrived(p: Program, r: Machine, g: nat, st: St, calls: seq<Ret>) {
    Here(p, r, g) && r.st == st && r.calls == calls
  }

  /** The run loop executes an item: whatever `Run` makes of it, some number of turns brings the machine behind it with that
      state and the GOSUB stack it had. */
  lemma {:induction false} ItemRuns(p: Program, l: Item, g: nat, m: Machine) returns (n: nat)
    requires LaidOut(p) && Placed(p, l, g) && Good(m.st) && Here(p, m, g) && Run(l, m.st).Some?
    requires |m.calls| + Calls(l) <= MAX_CALLS
    ensures Arrived(p, Turns(p, m, n), g + Len(l), Run(l, m.st).value, m.calls)
    decreases l, 2, 0
  {
    hide Turns, Here, SavedAt, Code, LaidOut, Upto, RunPasses, RunAll, PlacedAll;
    match l
    case Set(_, _) =>
      var k, li, si, r := Execute(p, m, g);
      n := k;
    case Loop(_, _, _, _, _, _, _) => n := LoopRuns(p, l, g, m);
    case Call(_, _, _, _) => n := CallRuns(p, l, g, m);
  }

  lemma {:induction false} LoopRuns(p: Program, l: Item, g: nat, m: Machine) returns (n: nat)
    requires LaidOut(p) && l.Loop? && Placed(p, l, g) && Good(m.st) && Here(p, m, g) && Run(l, m.st).Some?
    requires |m.calls| + Calls(l) <= MAX_CALLS
    ensures Arrived(p, Turns(p, m, n), g + Len(l), Run(l, m.st).value, m.calls)
    decreases l, 1, 0
  {
    hide Turns, Here, SavedAt;
    var k, li, si, r := Execute(p, m, g);
    SavedHere(p, l.eptr, l.cptr, g, li, si);
    var f, start := Entry(l, m.st.vars), l.start(m.st.vars);
    assert f.eptr == r.eptr && f.cptr == p.lines[li].marks[si + 1];
    var m1 := Turns(p, m, k);
    assert m1.st == For(m.st, f, start).value;
    var j := PassesRun(p, l, f, g, m1, Count(f, start));
    TurnsAdd(p, m, k, j);
    n := k + j;
  }

  /** The passes of a loop, from behind its FOR. */
  lemma {:induction false} PassesRun(p: Program, l: Item, f: Frame, g: nat, m: Machine, c: nat) returns (n: nat)
    requires LaidOut(p) && l.Loop? && Placed(p, l, g) && Good(m.st) && Here(p, m, g + 1) && RunPasses(l, f, m.st, c).Some?
    requires f.v == l.v && f.eptr == l.eptr && f.cptr == l.cptr && |m.calls| + Calls(l) <= MAX_CALLS
    ensures Arrived(p, Turns(p, m, n), g + Len(l), RunPasses(l, f, m.st, c).value, m.calls)
    decreases l, 0, c
  {
    hide Turns, Here, SavedAt, Header, Code, PlacedAll, LaidOut, Upto;
    var i := AllRun(p, l.body, g + 1, m);
    var m1 := Turns(p, m, i);
    var k, li, si, r := Execute(p, m1, g + 1 + LenAll(l.body));
    TurnsAdd(p, m, i, k);
    n := i + k;
    var w := Next(m1.st, Some(l.v));
    var m2 := Turns(p, m, n);
    if w.Resumed? {
      ResumesBehind(p, g, r.(st := w.st, eptr := w.eptr, cptr := w.cptr, resumf := true, goflag := true));
      var j := PassesRun(p, l, f, g, m2, c - 1);
      TurnsAdd(p, m, n, j);
      n := n + j;
    }
  }

  /** GOSUB to the line, its body, and RETURN to behind the GOSUB. */
  lemma {:induction false} CallRuns(p: Program, l: Item, g: nat, m: Machine) returns (n: nat)
    requires LaidOut(p) && l.Call? && Placed(p, l, g) && Good(m.st) && Here(p, m, g) && Run(l, m.st).Some?
    requires |m.calls| + Calls(l) <= MAX_CALLS
    ensures Arrived(p, Turns(p, m, n), g + Len(l), Run(l, m.st).value, m.calls)
    decreases l, 1, 0
  {
    hide Turns, Here, SavedAt, Header, Code, PlacedAll, LaidOut, Upto;
    var k, li, si, r := Execute(p, m, g);
    SavedHere(p, l.eptr, l.cptr, g, li, si);
    var t := LineNumbered(p, l.line);
    var inner := m.calls + [Ret(l.eptr, l.cptr)];
    JumpsTo(p, t, r.(eptr := p.lines[t].at, goflag := true, calls := inner));
    var m1 := Turns(p, m, k);
    assert m1.calls == inner;
    var i := AllRun(p, l.body, Index(p, t, 0), m1);
    TurnsAdd(p, m, k, i);
    var m2 := Turns(p, m, k + i);
    var k', li', si', r' := Execute(p, m2, Index(p, t, 0) + LenAll(l.body));
    assert inner[..|inner| - 1] == m.calls;
    ResumesBehind(p, g, r'.(eptr := l.eptr, cptr := l.cptr, resumf := true, goflag := true, calls := m.calls));
    TurnsAdd(p, m, k + i, k');
    n := k + i + k';
  }

  lemma {:induction false} AllRun(p: Program, ls: seq<Item>, g: nat, m: Machine) returns (n: nat)
    requires LaidOut(p) && PlacedAll(p, ls, g) && Good(m.st) && Here(p, m, g) && RunAll(ls, m.st).Some?
    requires |m.calls| + CallsAll(ls) <= MAX_CALLS
    ensures Arrived(p, Turns(p, m, n), g + LenAll(ls), RunAll(ls, m.st).value, m.calls)
    decreases ls, 3
  {
    hide Turns, Here, SavedAt, Placed, Code, LaidOut, Run, Good, Turn;
    if ls == [] {
      n := 0;
      NoTurns(p, m);
    } else {
      n := ItemRuns(p, ls[0], g, m);
      var m1 := Turns(p, m, n);
      var j := AllRun(p, ls[1..], g + Len(ls[0]), m1);
      TurnsAdd(p, m, n, j);
      n := n + j;
    }
  }

  lemma NoTurns(p: Program, m: Machine)
    requires LaidOut(p) && Good(m.st)
    ensures Turns(p, m, 0) == m
  {
  }

  /** Nested loops in a program text: the run loop takes every loop through exactly its passes and goes on behind it, with the
      frame stack as before, its variable at start plus passes times step, and no variable changed that it does not write. */
  lemma LoopsRun(p: Program, l: Item, g: nat, m: Machine) returns (n: nat)
    requires LaidOut(p) && Placed(p, l, g) && Good(m.st) && Here(p, m, g)
    requires Apart(l) && EndsIn(l, m.st) && |m.st.frames| + Depth(l) <= 27 && |m.calls| + Calls(l) <= MAX_CALLS
    ensures var r := Turns(p, m, n);
            && Here(p, r, g + Len(l)) && Restores(m.st, Some(r.st), Writes(l)) && r.calls == m.calls
            && (l.Loop? ==> Stepped(l, m.st, r.st))
  {
    hide Turns, Here, SavedAt, Placed, LaidOut, Run, Apart, EndsIn;
    RunRestores(l, m.st);
    n := ItemRuns(p, l, g, m);
  }

  /** RUN begins at the first statement. */
  lemma StartsHere(p: Program, st: St)
    requires LaidOut(p) && Good(st)
    ensures Here(p, Started(p, st), 0) && Started(p, st).st == st && Started(p, st).calls == []
  {
    if p.lines == [] {
    } else {
      assert LineOk(p.lines[0]);
      StartsRise(p, 0, |p.lines|);
      ModUnique(PROG + 3, TWO16, 0, PROG + 3);
      assert AtPlace(p, Started(p, st), 0, 0) && Index(p, 0, 0) == 0;
    }
  }

  /** Behind the last statement nothing is left but ends of lines, and then the run is over. */
  lemma {:induction false} Ending(p: Program, m: Machine, li: nat, si: nat) returns (n: nat)
    requires LaidOut(p) && Good(m.st) && AtPlace(p, m, li, si) && Index(p, li, si) == |Code(p)|
    ensures var r := Turns(p, m, n); !r.running && r.st == m.st && r.calls == m.calls
    decreases |p.lines| - li
  {
    hide Turn, Code, Header, LineAt, StmtAt;
    LastPlace(p, m, li, si);
    FallsOff(p, m, li, si);
    var r := Turn(p, m);
    OneTurn(p, m);
    n := 1;
    if li + 1 < |p.lines| {
      var k := Ending(p, r, li + 1, 0);
      TurnsAdd(p, m, 1, k);
      n := 1 + k;
    }
  }

  lemma LastPlace(p: Program, m: Machine, li: nat, si: nat)
    requires LaidOut(p) && AtPlace(p, m, li, si) && Index(p, li, si) == |Code(p)|
    ensures si == |p.lines[li].stmts|
  {
    assert LineOk(p.lines[li]);
    if si < |p.lines[li].stmts| {
      CodeAt(p, li, si);
    }
  }

  /** A program made of loops, assignments and subroutine calls, laid out over lines in any way and closed by END or by the end
      of the text: RUN ends, with no frame left on either stack and the variables as `RunAll` computes them. */
  lemma ProgramRuns(p: Program, items: seq<Item>, st: St) returns (n: nat)
    requires LaidOut(p) && PlacedAll(p, items, 0) && (LenAll(items) == |Code(p)| || Code(p)[LenAll(items)] == End)
    requires Good(st) && st.frames == [] && ApartAll(items) && EndsAllIn(items, st) && DepthAll(items) <= 27 && CallsAll(items) <= MAX_CALLS
    ensures var r := Turns(p, Started(p, st), n);
            && !r.running && RunAll(items, st) == Some(r.st) && Restores(st, Some(r.st), WritesAll(items)) && r.calls == []
  {
    hide Turns, Here, SavedAt, LaidOut, Run, RunAll, ApartAll, EndsAllIn, Started, Code;
    StartsHere(p, st);
    AllRestore(items, st);
    var m := Started(p, st);
    n := AllRun(p, items, 0, m);
    var k := RunsOut(p, LenAll(items), Turns(p, m, n));
    TurnsAdd(p, m, n, k);
    n := n + k;
  }

  lemma RunsOut(p: Program, g: nat, m: Machine) returns (n: nat)
    requires LaidOut(p) && Good(m.st) && Here(p, m, g) && (g == |Code(p)| || (g < |Code(p)| && Code(p)[g] == End))
    ensures var r := Turns(p, m, n); !r.running && r.st == m.st && r.calls == m.calls
  {
    n := 0;
    if g < |Code(p)| {
      var k, li, si, r := Execute(p, m, g);
      n := k;
    } else if m.running {
      var li, si :| AtPlace(p, m, li, si) && Index(p, li, si) == |Code(p)|;
      n := Ending(p, m, li, si);
    }
  }
}
