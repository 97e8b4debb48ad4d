/** The assembler as it runs: two loops over the parsed lines, updating the address, the symbols and the memory. */
module Asm {
  import opened Bits
  import opened Text
  import opened Opcodes
  import opened AsmExpr
  import opened AsmEval
  import opened AsmPasses

  /** `_size`. */
  method SizeOf(mn: Mnemonic, hint: Hint, operand: string, env: Env) returns (r: Option<nat>)
    ensures r == Size(mn, hint, Eval(operand, env))
  {
    hide Eval, Has, IsBranch;
    if hint.HImp? || hint.HAcc? { return Some(1); }
    if hint.HImm? || hint.HIndx? || hint.HIndy? { return Some(2); }
    if hint.HInd? { return Some(3); }
    if IsBranch(mn) { return Some(2); }
    var o := Evaluate(operand, env);
    if o.Failed? { return None; }
    var zp := o.Value? && ZeroPage(o.v);
    if zp && Has(mn, ShortForm(hint)) { return Some(2); }
    return Some(3);
  }

  /** One line of pass 1. */
  method Line1(l: Line, st: State1) returns (r: Option<State1>)
    ensures r == Step1(l, st)
  {
    hide Eval, Size;
    var pc, syms, origin := st.pc, st.syms, st.origin;
    match l {
      case Equ(name, expr) =>
        var o := Evaluate(expr, Env(syms, pc));
        if !o.Value? { return None; }
        syms := syms[name := o.v];
      case Stmt(lbl, body) =>
        if lbl.Some? { syms := syms[lbl.value := pc]; }
        match body {
          case Nothing =>
          case Org(at) =>
            var o := Evaluate(at, Env(syms, pc));
            if !o.Value? { return None; }
            pc := o.v;
            if origin.None? { origin := Some(pc); }
          case Bytes(args) => pc := pc + |args|;
          case Words(args) => pc := pc + |args| * 2;
          case Asc(text) => pc := pc + |text|;
          case Fill(count, _) =>
            var o := Evaluate(count, Env(syms, pc));
            if !o.Value? { return None; }
            pc := pc + o.v;
          case Ins(mn, hint, operand) =>
            var size := SizeOf(mn, hint, operand, Env(syms, pc));
            if size.None? { return None; }
            pc := pc + size.value;
        }
    }
    r := Some(State1(pc, syms, origin));
  }

  function Behind(out: seq<byte>, rest: Option<seq<byte>>): Option<seq<byte>> {
    match rest
    case Some(b) => Some(out + b)
    case None => None
  }

  lemma BehindNothing(rest: Option<seq<byte>>)
    ensures Behind([], rest) == rest
  {
    if rest.Some? { assert [] + rest.value == rest.value; }
  }

  lemma BehindMore(out: seq<byte>, b: seq<byte>, rest: Option<seq<byte>>)
    ensures Behind(out, Behind(b, rest)) == Behind(out + b, rest)
  {
    if rest.Some? { assert out + (b + rest.value) == (out + b) + rest.value; }
  }

  /** The data of `.byte` and `.word`, argument by argument. */
  method Data(args: seq<string>, pc0: int, syms: map<string, int>, wide: bool) returns (r: Option<seq<byte>>)
    ensures r == DataBytes(args, pc0, syms, wide)
  {
    hide Eval;
    var out: seq<byte>, pc, k := [], pc0, 0;
    assert args[0..] == args;
    BehindNothing(DataBytes(args, pc0, syms, wide));
    while k < |args|
      invariant 0 <= k <= |args|
      invariant DataBytes(args, pc0, syms, wide) == Behind(out, DataBytes(args[k..], pc, syms, wide))
    {
      var o := Evaluate(args[k], Env(syms, pc));
      if !o.Value? { return None; }
      assert args[k..][1..] == args[k + 1..];
      var b := if wide then [Low(o.v), High(o.v)] else [Low(o.v)];
      BehindMore(out, b, DataBytes(args[k + 1..], pc + |b|, syms, wide));
      out, pc := out + b, pc + |b|;
      k := k + 1;
    }
    assert args[k..] == [];
    assert out + [] == out;
    r := Some(out);
  }

  /** `n` copies of a byte, or none. */
  method Repeat(n: int, b: byte) returns (out: seq<byte>)
    ensures out == Copies(n, b)
  {
    out := [];
    var k := n;
    while k > 0
      invariant out + Copies(k, b) == Copies(n, b)
    {
      out := out + [b];
      k := k - 1;
    }
  }

  method Characters(t: string) returns (out: seq<byte>)
    ensures out == TextBytes(t)
  {
    out := [];
    for k := 0 to |t|
      invariant out + TextBytes(t[k..]) == TextBytes(t)
    {
      assert t[k..][1..] == t[k + 1..];
      out := out + [Low(t[k] as int)];
    }
    assert t[|t|..] == "";
  }

  /** The bytes of one line in pass 2. */
  method BodyBytes(body: Body, pc: int, syms: map<string, int>) returns (r: Option<seq<byte>>)
    ensures r == Bytes2(body, pc, syms)
  {
    hide Eval, Encode;
    var env := Env(syms, pc);
    match body {
      case Nothing => r := Some([]);
      case Org(_) => r := Some([]);
      case Bytes(args) => r := Data(args, pc, syms, false);
      case Words(args) => r := Data(args, pc, syms, true);
      case Asc(text) =>
        var out := Characters(text);
        r := Some(out);
      case Fill(count, val) =>
        var n := Evaluate(count, env);
        if !n.Value? { return None; }
        var b: byte := 0;
        if val.Some? {
          var o := Evaluate(val.value, env);
          if !o.Value? { return None; }
          b := Low(o.v);
        }
        var out := Repeat(n.v, b);
        r := Some(out);
      case Ins(mn, hint, operand) =>
        if Operandless(hint) {
          r := Encode(mn, hint, 0, pc);
        } else {
          var o := Evaluate(operand, env);
          if !o.Value? { return None; }
          r := Encode(mn, hint, o.v, pc);
        }
    }
  }

  /** `emit`, once per byte. */
  method EmitAll(st: State2, bytes: seq<byte>) returns (r: State2)
    ensures r == Emit(st, bytes)
  {
    var memory: map<int, byte>, pc, origin := st.memory, st.pc, st.origin;
    for k := 0 to |bytes|
      invariant pc == st.pc + k
      invariant Poke(memory, pc, bytes[k..]) == Poke(st.memory, st.pc, bytes)
      invariant origin == if st.origin.None? && k > 0 then Some(st.pc) else st.origin
    {
      assert bytes[k..][1..] == bytes[k + 1..];
      if origin.None? { origin := Some(pc); }
      memory := memory[pc := bytes[k]];
      pc := pc + 1;
    }
    assert bytes[|bytes|..] == [];
    r := State2(pc, memory, origin);
  }

  /** `assemble`: both passes; None when a line is in error. */
  method Assemble(lines: seq<Line>) returns (r: Option<State2>)
    ensures r.Some? <==> Assembles(lines)
    ensures r.Some? ==> r == Some(At2(lines, |lines|))
  {
    hide Step1, Step2;
    var st := START1;
    var k := 0;
    while k < |lines|
      invariant k <= |lines| && After1(lines, k) == Some(st)
    {
      var next := Line1(lines[k], st);
      if next.None? {
        if Assembles(lines) { Reached1(lines, k + 1, |lines|); }
        return None;
      }
      st := next.value;
      k := k + 1;
    }
    var st2 := State2(0, map[], st.origin);
    k := 0;
    while k < |lines|
      invariant k <= |lines| && After2(lines, k, st.syms, st.origin) == Some(st2)
    {
      var next := Line2(lines[k], st2, st.syms);
      if next.None? {
        if Assembles(lines) { Reached2(lines, k + 1, |lines|, st.syms, st.origin); }
        return None;
      }
      st2 := next.value;
      k := k + 1;
    }
    r := Some(st2);
  }

  /** One line of pass 2. */
  method Line2(l: Line, st: State2, syms: map<string, int>) returns (r: Option<State2>)
    ensures r == Step2(l, st, syms)
  {
    hide Eval, Bytes2, Emit;
    if l.Equ? { return Some(st); }
    if l.body.Org? {
      var o := Evaluate(l.body.at, Env(syms, st.pc));
      return if o.Value? then Some(st.(pc := o.v)) else None;
    }
    var bytes := BodyBytes(l.body, st.pc, syms);
    if bytes.None? { return None; }
    var next := EmitAll(st, bytes.value);
    r := Some(next);
  }
}
