/** The disassembler, and the proof that a linear sweep reads assembled instructions back. */
module AsmDisasm {
  import opened Bits
  import opened Alu
  import opened Text
  import opened Opcodes
  import opened AsmExpr
  import opened AsmPasses

  /** What the disassembler shows of one instruction: for a branch the operand is the resolved target. */
  datatype Decoded = Decoded(mn: Mnemonic, mode: Mode, operand: nat)

  /** A memory read; addresses wrap at 64K. */
  function Read(mem: seq<byte>, a: int): byte
    requires |mem| == 0x1_0000
  {
    mem[a % 0x1_0000]
  }

  /** `m6502_disasm`: the instruction at `addr`, and its length. */
  function Disassemble(mem: seq<byte>, addr: word): (Decoded, nat)
    requires |mem| == 0x1_0000
  {
    var op := Read(mem, addr);
    var mode := DisMode(op);
    var b1, b2: int := Read(mem, addr + 1), Read(mem, addr + 2);
    var operand :=
      if mode.Imp? || mode.Acc? then 0
      else if mode.Rel? then (addr + 2 + SignedByte(b1)) % 0x1_0000
      else if Length(mode) == 3 then b1 + 0x100 * b2
      else b1;
    (Decoded(DisName(op), mode, operand), Length(mode))
  }

  /** Disassembling one instruction after another. */
  function Sweep(mem: seq<byte>, addr: int, n: nat): (seq<Decoded>, int)
    requires |mem| == 0x1_0000
    decreases n
  {
    if n == 0 then ([], addr)
    else
      var (d, len) := Disassemble(mem, addr % 0x1_0000);
      var (rest, end) := Sweep(mem, addr + len, n - 1);
      ([d] + rest, end)
  }

  /** An instruction with its operand evaluated. */
  datatype Item = Item(mn: Mnemonic, hint: Hint, v: int)

  function EncodeItem(it: Item, pc: int): Option<seq<byte>> { Encode(it.mn, it.hint, it.v, pc) }

  function EncodeAll(items: seq<Item>, pc: int): Option<seq<byte>>
    decreases |items|
  {
    if items == [] then Some([])
    else
      match EncodeItem(items[0], pc)
      case Some(b) =>
        (match EncodeAll(items[1..], pc + |b|)
         case Some(rest) => Some(b + rest)
         case None => None)
      case None => None
  }

  /** The instruction as written, its operand in the width its mode gives it. */
  function Written(it: Item): Decoded {
    var mode := ModeOf(it.mn, it.hint, it.v);
    Decoded(it.mn, mode,
            if mode.Imp? || mode.Acc? then 0
            else if mode.Rel? || Length(mode) == 3 then it.v % 0x1_0000
            else it.v % 0x100)
  }

  function WrittenAll(items: seq<Item>): (r: seq<Decoded>)
    ensures |r| == |items|
  {
    if items == [] then [] else [Written(items[0])] + WrittenAll(items[1..])
  }

  predicate LiesAt(mem: seq<byte>, at: int, bytes: seq<byte>) {
    && |mem| == 0x1_0000 && 0 <= at && at + |bytes| <= 0x1_0000
    && forall i :: 0 <= i < |bytes| ==> mem[at + i] == bytes[i]
  }

  lemma OffsetBack(v: int, pc: int)
    requires -128 <= v - (pc + 2) <= 127
    ensures SignedByte(Low(v - (pc + 2))) == v - (pc + 2)
  {
  }

  lemma WideBack(v: int)
    ensures Low(v) + 0x100 * (0 + High(v)) == v % 0x1_0000
  {
    var q, h: int := v / 256 / 256, High(v);
    assert v == 256 * (v / 256) + v % 256 && v / 256 == 256 * q + h;
    ModUnique(v, 0x1_0000, q, v % 256 + 256 * h);
  }

  /** One instruction read back, its length the number of bytes emitted. */
  lemma OneBack(it: Item, pc: int, mem: seq<byte>)
    requires EncodeItem(it, pc).Some? && LiesAt(mem, pc, EncodeItem(it, pc).value)
    ensures 0 <= pc < 0x1_0000
    ensures Disassemble(mem, pc) == (Written(it), |EncodeItem(it, pc).value|)
  {
    hide Opcode, DisName, DisMode;
    var mode, bytes := ModeOf(it.mn, it.hint, it.v), EncodeItem(it, pc).value;
    OpcodeReadsBack(it.mn, mode);
    InsLength(it, pc);
    assert mem[pc + 0] == bytes[0];
    if |bytes| > 1 { assert Read(mem, pc + 1) == bytes[1]; }
    if |bytes| > 2 { assert Read(mem, pc + 2) == bytes[2]; }
    if mode.Rel? { OffsetBack(it.v, pc); }
    if |bytes| == 3 { WideBack(it.v); }
  }

  lemma InsLength(it: Item, pc: int)
    requires EncodeItem(it, pc).Some?
    ensures var mode := ModeOf(it.mn, it.hint, it.v);
            && |EncodeItem(it, pc).value| == Length(mode)
            && (mode.Imp? || mode.Acc? <==> Operandless(it.hint))
  {
    hide Opcode, IsBranch;
  }

  /** Disassembly undoes assembly: a sweep over an encoded instruction sequence recovers every mnemonic, mode, operand
      and branch target, and ends exactly behind the emitted bytes. */
  lemma {:induction false} SweepReadsBack(items: seq<Item>, pc: int, mem: seq<byte>)
    requires EncodeAll(items, pc).Some? && LiesAt(mem, pc, EncodeAll(items, pc).value)
    ensures Sweep(mem, pc, |items|) == (WrittenAll(items), pc + |EncodeAll(items, pc).value|)
    decreases |items|
  {
    hide Encode, Written, Disassemble;
    if items != [] {
      var b := EncodeItem(items[0], pc).value;
      var all := EncodeAll(items, pc).value;
      var rest := EncodeAll(items[1..], pc + |b|).value;
      assert all == b + rest;
      forall i | 0 <= i < |b| ensures mem[pc + i] == b[i] { assert mem[pc + i] == all[i]; }
      forall i | 0 <= i < |rest| ensures mem[pc + |b| + i] == rest[i] { assert mem[pc + (|b| + i)] == all[|b| + i]; }
      OneBack(items[0], pc, mem);
      SweepReadsBack(items[1..], pc + |b|, mem);
    }
  }

  // ---- from source lines to the sweep ----

  /** Lines that emit instructions or nothing: no data, no `.org`. */
  predicate IsCode(l: Line) { l.Equ? || l.body.Nothing? || l.body.Ins? }

  /** The instructions of lines `a..k`, operands evaluated as in pass 2. */
  ghost function ItemsOf(lines: seq<Line>, a: nat, k: nat): seq<Item>
    requires a <= k <= |lines| && Assembles(lines)
  {
    if k == a then []
    else
      var l := lines[k - 1];
      ItemsOf(lines, a, k - 1) +
      if l.Equ? || !l.body.Ins? then []
      else [Item(l.body.mn, l.body.hint,
                 match Eval(l.body.operand, Env(Final(lines).syms, At2(lines, k - 1).pc))
                 case Value(v) => if Operandless(l.body.hint) then 0 else v
                 case _ => 0)]
  }

  lemma {:induction false} EncodeAppend(items: seq<Item>, it: Item, pc: int)
    requires EncodeAll(items, pc).Some?
    requires EncodeItem(it, pc + |EncodeAll(items, pc).value|).Some?
    ensures var all := EncodeAll(items, pc).value;
            EncodeAll(items + [it], pc) == Some(all + EncodeItem(it, pc + |all|).value)
    decreases |items|
  {
    hide Encode;
    if items == [] {
      var b := EncodeItem(it, pc).value;
      assert items + [it] == [it] && [it][1..] == [];
      assert EncodeAll([it], pc) == Some(b) by {
        assert EncodeAll([it][1..], pc + |b|) == Some([]);
        assert b + [] == b;
      }
      assert [] + b == b;
    } else {
      var b := EncodeItem(items[0], pc).value;
      var rest := EncodeAll(items[1..], pc + |b|).value;
      EncodeAppend(items[1..], it, pc + |b|);
      assert (items + [it])[1..] == items[1..] + [it] && (items + [it])[0] == items[0];
      var last := EncodeItem(it, pc + |b + rest|).value;
      assert b + (rest + last) == (b + rest) + last;
    }
  }

  lemma {:induction false} PokeAt(memory: map<int, byte>, at: int, bytes: seq<byte>, a: int)
    ensures a in Poke(memory, at, bytes) <==> a in memory || at <= a < at + |bytes|
    ensures at <= a < at + |bytes| ==> Poke(memory, at, bytes)[a] == bytes[a - at]
    ensures !(at <= a < at + |bytes|) && a in memory ==> Poke(memory, at, bytes)[a] == memory[a]
    decreases |bytes|
  {
    if bytes != [] { PokeAt(memory[at := bytes[0]], at + 1, bytes[1..], a); }
  }

  ghost predicate MemoryHolds(memory: map<int, byte>, at: int, bytes: seq<byte>) {
    forall a :: at <= a < at + |bytes| ==> a in memory && memory[a] == bytes[a - at]
  }

  /** Lines `a..k` have left their instructions' encoding in memory, from the address of line `a` to that of line `k`. */
  ghost predicate Encoded(lines: seq<Line>, a: nat, k: nat)
    requires a <= k <= |lines| && Assembles(lines)
  {
    var items, pc := ItemsOf(lines, a, k), At2(lines, a).pc;
    && EncodeAll(items, pc).Some? && At2(lines, k).pc == pc + |EncodeAll(items, pc).value|
    && MemoryHolds(At2(lines, k).memory, pc, EncodeAll(items, pc).value)
  }

  /** One code line appends its encoding. */
  lemma CodeLine(lines: seq<Line>, a: nat, k: nat)
    requires a <= k < |lines| && Assembles(lines) && IsCode(lines[k]) && Encoded(lines, a, k)
    ensures Encoded(lines, a, k + 1)
  {
    hide Encode, Eval, At2, Poke;
    var items, pc := ItemsOf(lines, a, k), At2(lines, a).pc;
    var st, st' := At2(lines, k), At2(lines, k + 1);
    At2Step(lines, k);
    if lines[k].Equ? || !lines[k].body.Ins? {
      assert ItemsOf(lines, a, k + 1) == items;
      StepIdle(lines[k], st, Final(lines).syms);
    } else {
      var it := ItemsOf(lines, a, k + 1)[|items|];
      assert ItemsOf(lines, a, k + 1) == items + [it];
      assert EncodeItem(it, st.pc).Some? && st' == Emit(st, EncodeItem(it, st.pc).value);
      EncodeAppend(items, it, pc);
      var b := EncodeItem(it, st.pc).value;
      forall x | pc <= x < st'.pc
        ensures x in st'.memory && st'.memory[x] == EncodeAll(items + [it], pc).value[x - pc]
      {
        PokeAt(st.memory, st.pc, b, x);
      }
    }
  }

  lemma StepIdle(l: Line, st: State2, syms: map<string, int>)
    requires l.Equ? || l.body.Nothing?
    ensures Step2(l, st, syms) == Some(st)
  {
  }

  lemma {:induction false} CodeRun(lines: seq<Line>, a: nat, k: nat)
    requires a <= k <= |lines| && Assembles(lines) && forall j :: a <= j < k ==> IsCode(lines[j])
    ensures Encoded(lines, a, k)
    decreases k
  {
    if a < k {
      hide Encoded, IsCode, Assembles;
      CodeRun(lines, a, k - 1);
      CodeLine(lines, a, k - 1);
    } else {
      hide Encoded;
      NothingEncoded(lines, a);
    }
  }

  lemma NothingEncoded(lines: seq<Line>, a: nat)
    requires a <= |lines| && Assembles(lines)
    ensures Encoded(lines, a, a)
  {
    hide At2, Assembles;
    assert ItemsOf(lines, a, a) == [];
    assert EncodeAll([], At2(lines, a).pc) == Some([]);
  }

  /** A program whose lines from `a` on are instructions: sweeping the assembled memory from there recovers them all and
      ends where assembly ended. */
  lemma ProgramReadsBack(lines: seq<Line>, a: nat, mem: seq<byte>)
    requires a <= |lines| && Assembles(lines) && forall j :: a <= j < |lines| ==> IsCode(lines[j])
    requires var from, st := At2(lines, a).pc, At2(lines, |lines|);
             && |mem| == 0x1_0000 && 0 <= from && st.pc <= 0x1_0000
             && forall x :: from <= x < st.pc && x in st.memory ==> mem[x] == st.memory[x]
    ensures var from, items := At2(lines, a).pc, ItemsOf(lines, a, |lines|);
            Sweep(mem, from, |items|) == (WrittenAll(items), At2(lines, |lines|).pc)
  {
    hide At2, ItemsOf, Assembles, Sweep, EncodeAll, WrittenAll;
    CodeRun(lines, a, |lines|);
    var from, items := At2(lines, a).pc, ItemsOf(lines, a, |lines|);
    var bytes := EncodeAll(items, from).value;
    forall i | 0 <= i < |bytes| ensures mem[from + i] == bytes[i] {
      assert from + i in At2(lines, |lines|).memory;
    }
    SweepReadsBack(items, from, mem);
  }
}
