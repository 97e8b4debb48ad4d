/** The two passes of the assembler over parsed lines, and when they agree. */
module AsmPasses {
  import opened Bits
  import opened Text
  import opened Opcodes
  import opened AsmExpr
  import opened AsmPrint

  /** What `classify_operand` reports. */
  datatype Hint = HImp | HAcc | HImm | HIndx | HIndy | HInd | HX | HY | HPlain

  datatype Body =
    | Nothing
    | Org(at: string)
    | Bytes(args: seq<string>)
    | Words(args: seq<string>)
    | Asc(text: string)
    | Fill(count: string, val: Option<string>)
    | Ins(mn: Mnemonic, hint: Hint, operand: string)

  datatype Line = Equ(name: string, expr: string) | Stmt(lbl: Option<string>, body: Body)

  predicate IsAccOp(mn: Mnemonic) { mn == ASL || mn == LSR || mn == ROL || mn == ROR }

  predicate Has(mn: Mnemonic, mode: Mode) { Opcode(mn, mode).Some? }

  predicate ZeroPage(v: int) { 0 <= v <= 255 }

  /** The short and the long form of an operand written with or without an index. */
  function ShortForm(hint: Hint): Mode {
    if hint.HX? then Zpx else if hint.HY? then Zpy else Zp
  }

  function LongForm(hint: Hint): Mode {
    if hint.HX? then Absx else if hint.HY? then Absy else Abso
  }

  /** Operands whose size depends on their value. */
  predicate Sized(mn: Mnemonic, hint: Hint) {
    hint.HX? || hint.HY? || (hint.HPlain? && !IsBranch(mn))
  }

  // ---- pass 1 ----

  datatype State1 = State1(pc: int, syms: map<string, int>, origin: Option<int>)

  /** `_size`: an operand not yet known counts as long. */
  function Size(mn: Mnemonic, hint: Hint, o: Outcome): Option<nat> {
    if hint.HImp? || hint.HAcc? then Some(1)
    else if hint.HImm? || hint.HIndx? || hint.HIndy? then Some(2)
    else if hint.HInd? then Some(3)
    else if IsBranch(mn) then Some(2)
    else if o.Failed? then None
    else if o.Value? && ZeroPage(o.v) && Has(mn, ShortForm(hint)) then Some(2)
    else Some(3)
  }

  function Advance1(body: Body, st: State1): Option<State1> {
    var env := Env(st.syms, st.pc);
    match body
    case Nothing => Some(st)
    case Org(at) =>
      (match Eval(at, env)
       case Value(v) => Some(st.(pc := v, origin := if st.origin.None? then Some(v) else st.origin))
       case _ => None)
    case Bytes(args) => Some(st.(pc := st.pc + |args|))
    case Words(args) => Some(st.(pc := st.pc + 2 * |args|))
    case Asc(text) => Some(st.(pc := st.pc + |text|))
    case Fill(count, _) =>
      (match Eval(count, env)
       case Value(n) => Some(st.(pc := st.pc + n))
       case _ => None)
    case Ins(mn, hint, operand) =>
      match Size(mn, hint, Eval(operand, env))
      case Some(n) => Some(st.(pc := st.pc + n))
      case None => None
  }

  function Step1(l: Line, st: State1): Option<State1> {
    match l
    case Equ(name, expr) =>
      (match Eval(expr, Env(st.syms, st.pc))
       case Value(v) => Some(st.(syms := st.syms[name := v]))
       case _ => None)
    case Stmt(_, body) => Advance1(body, Labelled(l, st))
  }

  /** A label is the address pass 1 has reached. */
  function Labelled(l: Line, st: State1): State1 {
    if l.Stmt? && l.lbl.Some? then st.(syms := st.syms[l.lbl.value := st.pc]) else st
  }

  const START1 := State1(0, map[], None)

  /** Pass 1 after `k` lines; None once a line is in error. */
  function After1(lines: seq<Line>, k: nat): Option<State1>
    requires k <= |lines|
  {
    if k == 0 then Some(START1)
    else
      match After1(lines, k - 1)
      case Some(st) => Step1(lines[k - 1], st)
      case None => None
  }

  // ---- pass 2 ----

  datatype State2 = State2(pc: int, memory: map<int, byte>, origin: Option<int>)

  function Poke(memory: map<int, byte>, at: int, bytes: seq<byte>): map<int, byte>
    decreases |bytes|
  {
    if bytes == [] then memory else Poke(memory[at := bytes[0]], at + 1, bytes[1..])
  }

  /** `emit`, byte by byte. */
  function Emit(st: State2, bytes: seq<byte>): State2 {
    State2(st.pc + |bytes|, Poke(st.memory, st.pc, bytes),
           if st.origin.None? && bytes != [] then Some(st.pc) else st.origin)
  }

  function Low(v: int): byte { v % 256 }

  function High(v: int): byte { v / 256 % 256 }

  /** The data bytes of `.byte` and `.word`, each argument evaluated where it stands. */
  function DataBytes(args: seq<string>, pc: int, syms: map<string, int>, wide: bool): Option<seq<byte>>
    decreases |args|
  {
    if args == [] then Some([])
    else
      match Eval(args[0], Env(syms, pc))
      case Value(v) =>
        (match DataBytes(args[1..], pc + (if wide then 2 else 1), syms, wide)
         case Some(rest) => Some((if wide then [Low(v), High(v)] else [Low(v)]) + rest)
         case None => None)
      case _ => None
  }

  function Copies(n: int, b: byte): seq<byte>
    decreases n
  {
    if n <= 0 then [] else [b] + Copies(n - 1, b)
  }

  function TextBytes(t: string): (r: seq<byte>)
    ensures |r| == |t|
  {
    if t == "" then [] else [Low(t[0] as int)] + TextBytes(t[1..])
  }

  /** The addressing mode pass 2 settles on. */
  function ModeOf(mn: Mnemonic, hint: Hint, v: int): Mode {
    match hint
    case HImp => if IsAccOp(mn) && Has(mn, Acc) then Acc else Imp
    case HAcc => Acc
    case HImm => Imm
    case HIndx => Indx
    case HIndy => Indy
    case HInd => Ind
    case _ =>
      if hint.HPlain? && IsBranch(mn) then Rel
      else if ZeroPage(v) && Has(mn, ShortForm(hint)) then ShortForm(hint)
      else LongForm(hint)
  }

  predicate Operandless(hint: Hint) { hint.HImp? || hint.HAcc? }

  /** The bytes of one instruction whose operand is `v`, at `pc`. */
  function Encode(mn: Mnemonic, hint: Hint, v: int, pc: int): Option<seq<byte>> {
    var mode := ModeOf(mn, hint, v);
    if mode.Rel? && !(-128 <= v - (pc + 2) <= 127) then None
    else
      match Opcode(mn, mode)
      case None => None
      case Some(op) =>
        if Operandless(hint) then Some([op])
        else if mode.Rel? then Some([op, Low(v - (pc + 2))])
        else if Length(mode) == 3 then Some([op, Low(v), High(v)])
        else Some([op, Low(v)])
  }

  function Bytes2(body: Body, pc: int, syms: map<string, int>): Option<seq<byte>> {
    var env := Env(syms, pc);
    match body
    case Nothing => Some([])
    case Org(_) => Some([])
    case Bytes(args) => DataBytes(args, pc, syms, false)
    case Words(args) => DataBytes(args, pc, syms, true)
    case Asc(text) => Some(TextBytes(text))
    case Fill(count, val) =>
      (match Eval(count, env)
       case Value(n) =>
         if val.None? then Some(Copies(n, 0))
         else
           (match Eval(val.value, env)
            case Value(v) => Some(Copies(n, Low(v)))
            case _ => None)
       case _ => None)
    case Ins(mn, hint, operand) =>
      if Operandless(hint) then Encode(mn, hint, 0, pc)
      else
        match Eval(operand, env)
        case Value(v) => Encode(mn, hint, v, pc)
        case _ => None
  }

  function Step2(l: Line, st: State2, syms: map<string, int>): Option<State2> {
    if l.Equ? then Some(st)
    else if l.body.Org? then
      match Eval(l.body.at, Env(syms, st.pc))
      case Value(v) => Some(st.(pc := v))
      case _ => None
    else
      match Bytes2(l.body, st.pc, syms)
      case Some(bytes) => Some(Emit(st, bytes))
      case None => None
  }

  function After2(lines: seq<Line>, k: nat, syms: map<string, int>, origin: Option<int>): Option<State2>
    requires k <= |lines|
  {
    if k == 0 then Some(State2(0, map[], origin))
    else
      match After2(lines, k - 1, syms, origin)
      case Some(st) => Step2(lines[k - 1], st, syms)
      case None => None
  }

  // ---- agreement ----

  predicate Defines(l: Line, name: string) {
    match l
    case Equ(n, _) => n == name
    case Stmt(lbl, _) => lbl == Some(name)
  }

  ghost predicate NoDuplicates(lines: seq<Line>) {
    forall j, k, name :: 0 <= j < k < |lines| && Defines(lines[j], name) ==> !Defines(lines[k], name)
  }

  /** A line that takes the same space in both passes: a fill count that is not negative, and no operand with a short
      form that was unknown in pass 1 and turns out to lie in page zero. */
  predicate Steady(l: Line, pc: int, known: map<string, int>, final: map<string, int>) {
    l.Equ? || match l.body
              case Fill(count, _) => (match Eval(count, Env(final, pc)) case Value(n) => n >= 0 case _ => true)
              case Ins(mn, hint, operand) =>
                !(Sized(mn, hint) && Has(mn, ShortForm(hint)) && Eval(operand, Env(known, pc)).Undefined?
                  && match Eval(operand, Env(final, pc)) case Value(v) => ZeroPage(v) case _ => false)
              case _ => true
  }

  lemma {:induction false} DataLength(args: seq<string>, pc: int, syms: map<string, int>, wide: bool)
    requires DataBytes(args, pc, syms, wide).Some?
    ensures |DataBytes(args, pc, syms, wide).value| == if wide then 2 * |args| else |args|
    decreases |args|
  {
    hide Eval;
    if args != [] { DataLength(args[1..], pc + (if wide then 2 else 1), syms, wide); }
  }

  lemma {:induction false} CopiesLength(n: int, b: byte)
    ensures |Copies(n, b)| == if n <= 0 then 0 else n
    decreases n
  {
    if n > 0 { CopiesLength(n - 1, b); }
  }

  lemma BranchesRelative(mn: Mnemonic, mode: Mode)
    requires IsBranch(mn) && Has(mn, mode)
    ensures mode == Rel
  {
    hide AsmName, AsmMode, IsBranch, LastBelow, Length;
    LastBelowIs(mn, mode, 256);
    BranchMode(Opcode(mn, mode).value);
  }

  /** The size of an instruction is the length of its mode, when the operand is known in pass 1. */
  lemma InsSize(mn: Mnemonic, hint: Hint, o: Outcome, v: int, pc: int)
    requires Encode(mn, hint, v, pc).Some? && Size(mn, hint, o).Some?
    requires Operandless(hint) || o.Undefined? || o == Value(v)
    ensures Size(mn, hint, o).value == |Encode(mn, hint, v, pc).value|
            <==> !(Sized(mn, hint) && Has(mn, ShortForm(hint)) && o.Undefined? && ZeroPage(v))
    ensures |Encode(mn, hint, v, pc).value| == Length(ModeOf(mn, hint, v))
  {
    hide Opcode, IsBranch;
    if IsBranch(mn) && (hint.HX? || hint.HY?) { BranchesRelative(mn, ModeOf(mn, hint, v)); }
  }

  lemma BodySteady(l: Line, st: State1, st2: State2, final: map<string, int>)
    requires l.Stmt? && st.pc == st2.pc && Extends(Env(st.syms, st.pc), Env(final, st.pc))
    requires Advance1(l.body, st).Some? && Step2(l, st2, final).Some?
    ensures Advance1(l.body, st).value.pc == Step2(l, st2, final).value.pc <==> Steady(l, st.pc, st.syms, final)
  {
    hide Eval, Has, Encode, Size, IsBranch, Extends, Poke;
    var env, env' := Env(st.syms, st.pc), Env(final, st.pc);
    match l.body
    case Nothing =>
    case Org(at) => EvalSettles(at, env, env');
    case Bytes(args) => DataLength(args, st.pc, final, false);
    case Words(args) => DataLength(args, st.pc, final, true);
    case Asc(text) =>
    case Fill(count, val) =>
      EvalSettles(count, env, env');
      var n := Eval(count, env').v;
      CopiesLength(n, 0);
      if val.Some? { CopiesLength(n, Low(Eval(val.value, env').v)); }
    case Ins(mn, hint, operand) =>
      EvalSettles(operand, env, env');
      if Operandless(hint) {
        InsSize(mn, hint, Eval(operand, env), 0, st.pc);
      } else {
        KnownOperand(mn, hint, operand, env, env');
        InsSize(mn, hint, Eval(operand, env), Eval(operand, env').v, st.pc);
      }
  }

  /** A size was found, so the operand had not failed; pass 2 evaluated it. */
  lemma KnownOperand(mn: Mnemonic, hint: Hint, operand: string, env: Env, env': Env)
    requires Eval(operand, env).Undefined? || Eval(operand, env') == Eval(operand, env)
    requires Eval(operand, env').Value?
    ensures Eval(operand, env).Undefined? || Eval(operand, env) == Value(Eval(operand, env').v)
  {
  }

  // ---- whole programs ----

  lemma StepGrows(l: Line, st: State1)
    requires Step1(l, st).Some?
    ensures var syms, syms' := st.syms, Step1(l, st).value.syms;
            && (forall n :: n in syms' <==> n in syms || Defines(l, n))
            && (forall n :: n in syms && !Defines(l, n) ==> syms'[n] == syms[n])
  {
    hide Eval, Size;
  }

  /** The symbols known after `k` lines are the ones those lines define. */
  lemma {:induction false} Known(lines: seq<Line>, k: nat, n: string)
    requires k <= |lines| && After1(lines, k).Some?
    ensures n in After1(lines, k).value.syms <==> exists j :: 0 <= j < k && Defines(lines[j], n)
  {
    hide Step1;
    if k > 0 {
      Known(lines, k - 1, n);
      StepGrows(lines[k - 1], After1(lines, k - 1).value);
    }
  }

  /** Pass 1 reached line `k` if it reached a later one. */
  lemma {:induction false} Reached1(lines: seq<Line>, j: nat, k: nat)
    requires j <= k <= |lines| && After1(lines, k).Some?
    ensures After1(lines, j).Some?
    decreases k
  {
    hide Step1;
    if j < k { Reached1(lines, j, k - 1); }
  }

  lemma {:induction false} Reached2(lines: seq<Line>, j: nat, k: nat, syms: map<string, int>, origin: Option<int>)
    requires j <= k <= |lines| && After2(lines, k, syms, origin).Some?
    ensures After2(lines, j, syms, origin).Some?
    decreases k
  {
    hide Step2;
    if j < k { Reached2(lines, j, k - 1, syms, origin); }
  }

  /** Without duplicates a symbol keeps its first value. */
  lemma {:induction false} SymbolKept(lines: seq<Line>, j: nat, k: nat, n: string)
    requires NoDuplicates(lines) && j <= k <= |lines| && After1(lines, k).Some?
    ensures After1(lines, j).Some?
    ensures n in After1(lines, j).value.syms
            ==> n in After1(lines, k).value.syms && After1(lines, k).value.syms[n] == After1(lines, j).value.syms[n]
    decreases k
  {
    hide Step1;
    Reached1(lines, j, k);
    if j < k {
      SymbolKept(lines, j, k - 1, n);
      StepGrows(lines[k - 1], After1(lines, k - 1).value);
      Known(lines, j, n);
    }
  }

  ghost predicate Assembles(lines: seq<Line>) {
    && After1(lines, |lines|).Some?
    && After2(lines, |lines|, After1(lines, |lines|).value.syms, After1(lines, |lines|).value.origin).Some?
  }

  function Final(lines: seq<Line>): State1
    requires After1(lines, |lines|).Some?
  {
    After1(lines, |lines|).value
  }

  /** Pass 2 before line `k`, with what pass 1 left. */
  ghost function At2(lines: seq<Line>, k: nat): State2
    requires k <= |lines| && Assembles(lines)
  {
    Reached2(lines, k, |lines|, Final(lines).syms, Final(lines).origin);
    After2(lines, k, Final(lines).syms, Final(lines).origin).value
  }

  ghost function At1(lines: seq<Line>, k: nat): State1
    requires k <= |lines| && Assembles(lines)
  {
    Reached1(lines, k, |lines|);
    After1(lines, k).value
  }

  ghost predicate SteadyAt(lines: seq<Line>, k: nat)
    requires k < |lines| && Assembles(lines)
  {
    Steady(lines[k], At1(lines, k).pc, Labelled(lines[k], At1(lines, k)).syms, Final(lines).syms)
  }

  lemma At1Step(lines: seq<Line>, k: nat)
    requires k < |lines| && Assembles(lines)
    ensures Step1(lines[k], At1(lines, k)) == Some(At1(lines, k + 1))
  {
    hide Step1;
    Reached1(lines, k + 1, |lines|);
    Reached1(lines, k, k + 1);
  }

  lemma At2Step(lines: seq<Line>, k: nat)
    requires k < |lines| && Assembles(lines)
    ensures Step2(lines[k], At2(lines, k), Final(lines).syms) == Some(At2(lines, k + 1))
  {
    hide Step2;
    Reached2(lines, k + 1, |lines|, Final(lines).syms, Final(lines).origin);
    Reached2(lines, k, k + 1, Final(lines).syms, Final(lines).origin);
  }

  /** What a statement's operand is evaluated against in pass 1 only grows until pass 2. */
  lemma KnownExtends(lines: seq<Line>, k: nat)
    requires k < |lines| && Assembles(lines) && NoDuplicates(lines) && lines[k].Stmt?
    ensures var st := Labelled(lines[k], At1(lines, k));
            Extends(Env(st.syms, st.pc), Env(Final(lines).syms, st.pc))
  {
    hide Advance1;
    At1Step(lines, k);
    var st := Labelled(lines[k], At1(lines, k));
    AdvanceKeeps(lines[k].body, st);
    forall n | n in st.syms ensures n in Final(lines).syms && Final(lines).syms[n] == st.syms[n] {
      SymbolKept(lines, k + 1, |lines|, n);
    }
  }

  lemma AdvanceKeeps(body: Body, st: State1)
    requires Advance1(body, st).Some?
    ensures Advance1(body, st).value.syms == st.syms
  {
    hide Eval, Size;
  }

  /** One line: from equal addresses, equal addresses again exactly when the line is steady. */
  lemma LineSteady(lines: seq<Line>, k: nat)
    requires k < |lines| && Assembles(lines) && NoDuplicates(lines) && At1(lines, k).pc == At2(lines, k).pc
    ensures At1(lines, k + 1).pc == At2(lines, k + 1).pc <==> SteadyAt(lines, k)
  {
    At1Step(lines, k);
    At2Step(lines, k);
    hide Advance1, Step2, Eval, Steady, At1, At2;
    if lines[k].Stmt? {
      KnownExtends(lines, k);
      BodySteady(lines[k], Labelled(lines[k], At1(lines, k)), At2(lines, k), Final(lines).syms);
    } else {
      EquStays(lines[k], At1(lines, k), At2(lines, k), Final(lines).syms);
    }
  }

  lemma EquStays(l: Line, st: State1, st2: State2, final: map<string, int>)
    requires l.Equ? && Step1(l, st).Some?
    ensures Step1(l, st).value.pc == st.pc && Step2(l, st2, final) == Some(st2) && Steady(l, st.pc, st.syms, final)
  {
    hide Eval;
  }

  lemma {:induction false} PrefixAgrees(lines: seq<Line>, k: nat)
    requires k <= |lines| && Assembles(lines) && NoDuplicates(lines)
    ensures (forall j :: 0 <= j <= k ==> At1(lines, j).pc == At2(lines, j).pc)
            <==> (forall j :: 0 <= j < k ==> SteadyAt(lines, j))
  {
    hide SteadyAt, NoDuplicates, Assembles;
    if k > 0 {
      PrefixAgrees(lines, k - 1);
      if At1(lines, k - 1).pc == At2(lines, k - 1).pc {
        LineSteady(lines, k - 1);
      }
    } else {
      assert At1(lines, 0).pc == 0 == At2(lines, 0).pc;
    }
  }

  /** The two passes agree on the address of every line (and of the end) exactly when every line is steady. */
  lemma PassesAgree(lines: seq<Line>)
    requires Assembles(lines) && NoDuplicates(lines)
    ensures (forall k :: 0 <= k <= |lines| ==> At1(lines, k).pc == At2(lines, k).pc)
            <==> (forall k :: 0 <= k < |lines| ==> SteadyAt(lines, k))
  {
    PrefixAgrees(lines, |lines|);
  }

  /** When they do, every label is the address at which pass 2 emits what follows it. */
  lemma LabelsLand(lines: seq<Line>, k: nat)
    requires Assembles(lines) && NoDuplicates(lines)
    requires forall j :: 0 <= j < |lines| ==> SteadyAt(lines, j)
    requires k < |lines| && lines[k].Stmt? && lines[k].lbl.Some?
    ensures lines[k].lbl.value in Final(lines).syms
    ensures Final(lines).syms[lines[k].lbl.value] == At2(lines, k).pc
  {
    hide SteadyAt;
    PassesAgree(lines);
    KnownExtends(lines, k);
  }

  // ---- a phase error ----

  /** `lda v` / `here:` / `v = 5`: the operand is unknown in pass 1 and in page zero in pass 2. */
  const PHASE_ERROR := [
    Stmt(None, Ins(LDA, HPlain, Print(Sym("v")))),
    Stmt(Some("here"), Nothing),
    Equ("v", Print(Lit(5, Plain)))
  ]

  lemma LoadZeroPage()
    ensures Names(0xA5, LDA, Zp)
  {
  }

  lemma LoadHasZeroPage()
    ensures Has(LDA, Zp)
  {
    hide LastBelow, AsmName, AsmMode;
    LastBelowIs(LDA, Zp, 256);
    LoadZeroPage();
  }

  lemma PhaseRuns()
    ensures var l := PHASE_ERROR;
            && After1(l, 1) == Some(State1(3, map[], None))
            && After1(l, 2) == Some(State1(3, map["here" := 3], None))
            && After1(l, 3) == Some(State1(3, map["here" := 3, "v" := 5], None))
  {
    hide Eval, Opcode;
    EvalPrinted(Sym("v"), Env(map[], 0));
    EvalPrinted(Lit(5, Plain), Env(map["here" := 3], 3));
    assert After1(PHASE_ERROR, 0) == Some(START1);
  }

  lemma PhaseBytes()
    ensures After2(PHASE_ERROR, 1, map["here" := 3, "v" := 5], None).Some?
    ensures After2(PHASE_ERROR, 1, map["here" := 3, "v" := 5], None).value.pc == 2
  {
    hide Eval, Opcode;
    var syms := map["here" := 3, "v" := 5];
    EvalPrinted(Sym("v"), Env(syms, 0));
    LoadHasZeroPage();
    assert After2(PHASE_ERROR, 0, syms, None) == Some(State2(0, map[], None));
  }

  /** Without the hypothesis a label lands elsewhere: it is 3, and pass 2 reaches it at 2. */
  lemma PhaseError()
    ensures NoDuplicates(PHASE_ERROR) && Assembles(PHASE_ERROR) && PHASE_ERROR[1].lbl == Some("here")
    ensures Final(PHASE_ERROR).syms == map["here" := 3, "v" := 5] && At2(PHASE_ERROR, 1).pc == 2
  {
    hide Eval, Step1, Bytes2;
    PhaseRuns();
    PhaseBytes();
    var syms := map["here" := 3, "v" := 5];
    var s1 := After2(PHASE_ERROR, 1, syms, None).value;
    assert After2(PHASE_ERROR, 2, syms, None) == Step2(PHASE_ERROR[1], s1, syms);
    NothingEmitted(PHASE_ERROR[1], s1, syms);
  }

  lemma NothingEmitted(l: Line, st: State2, syms: map<string, int>)
    requires l.Stmt? && l.body.Nothing?
    ensures Step2(l, st, syms) == Some(st)
  {
  }
}
