/** FOR and NEXT: a stack of nine-byte frames, and how many passes a loop makes. */
module BasicLoops {
  import opened Bits
  import opened Alu
  import opened Text
  import opened BasicCells

  /** A FOR frame: the variable's index, limit, step, and where NEXT resumes. */
  datatype Frame = Frame(v: nat, limit: word, step: word, eptr: word, cptr: word)

  datatype St = St(vars: seq<word>, frames: seq<Frame>)

  /** What NEXT did: nothing, resumed behind the FOR, or finished the loop. */
  datatype Went = Ignored(st: St) | Resumed(st: St, eptr: word, cptr: word) | Finished(st: St)

  predicate Good(st: St) {
    |st.vars| == 26 && |st.frames| <= 27 && forall k :: 0 <= k < |st.frames| ==> st.frames[k].v < 26
  }

  /** `cmd_FOR` once its expressions are evaluated; None is the overflow error at 27 frames. */
  function For(st: St, f: Frame, start: word): (r: Option<St>)
    requires Good(st) && f.v < 26
    ensures r.Some? ==> Good(r.value)
  {
    if |st.frames| == 27 then None else Some(St(st.vars[f.v := start], st.frames + [f]))
  }

  /** The loop test on the updated variable, by the sign of the step. */
  predicate Continues(f: Frame, x: word) {
    if f.step < 0x8000 then S16(f.limit) >= S16(x) else S16(x) >= S16(f.limit)
  }

  /** `cmd_NEXT`: frames of other variables are abandoned when one is named. */
  function Next(st: St, wanted: Option<nat>): (r: Went)
    requires Good(st)
    ensures Good(r.st)
    decreases |st.frames|
  {
    if st.frames == [] then Ignored(st)
    else
      var f := st.frames[|st.frames| - 1];
      var below := st.(frames := st.frames[..|st.frames| - 1]);
      if wanted.Some? && wanted.value != f.v then Next(below, wanted)
      else
        var x := ToWord(st.vars[f.v] + f.step);
        if Continues(f, x) then Resumed(st.(vars := st.vars[f.v := x]), f.eptr, f.cptr)
        else Finished(below.(vars := st.vars[f.v := x]))
  }

  // ---- the passes of one loop ----

  /** How many passes a loop should make: one, or as many steps as fit between start and limit. */
  function Passes(start: int, limit: int, step: int): (n: int)
    requires step != 0
    ensures n >= 1
  {
    var span := if step > 0 then limit - start else start - limit;
    var size := if step > 0 then step else -step;
    if span < 0 then 1 else span / size + 1
  }

  predicate Fits16(v: int) { -0x8000 <= v < 0x8000 }

  lemma S16Wrap(v: int)
    requires -0x1_8000 <= v < 0x1_8000
    ensures Fits16(v) ==> S16(ToWord(v)) == v
    ensures v >= 0x8000 ==> S16(ToWord(v)) == v - TWO16
    ensures v < -0x8000 ==> S16(ToWord(v)) == v + TWO16
  {
    if Fits16(v) {
      ModUnique(v, TWO16, if v < 0 then -1 else 0, if v < 0 then v + TWO16 else v);
    } else if v >= 0x8000 {
      if v >= TWO16 {
        ModUnique(v, TWO16, 1, v - TWO16);
      } else {
        ModUnique(v, TWO16, 0, v);
      }
    } else if v + TWO16 < 0 {
      ModUnique(v, TWO16, -2, v + 2 * TWO16);
    } else {
      ModUnique(v, TWO16, -1, v + TWO16);
    }
  }

  /** The loop variable, in whole numbers, after `k` steps. */
  function After(start: int, step: int, k: int): int { start + k * step }

  lemma AfterBounds(start: int, limit: int, step: int, k: int)
    requires step != 0 && 0 <= k <= Passes(start, limit, step)
    ensures var v, n := After(start, step, k), Passes(start, limit, step);
            && (step > 0 && k < n ==> start <= v && (k > 0 ==> v <= limit))
            && (step < 0 && k < n ==> v <= start && (k > 0 ==> limit <= v))
            && (step > 0 && k == n ==> v > limit && (start <= limit ==> v <= limit + step) && (start > limit ==> v == start + step))
            && (step < 0 && k == n ==> v < limit && (start >= limit ==> v >= limit + step) && (start < limit ==> v == start + step))
  {
    var span := if step > 0 then limit - start else start - limit;
    var size := if step > 0 then step else -step;
    if span >= 0 {
      DivSplit(span, size);
      var q := span / size;
      assert size * (q + 1) == size * q + size;
      MulMono(size, 0, k);
      if k <= q { MulMono(size, k, q); }
      assert k * step == if step > 0 then size * k else -(size * k);
    } else {
      assert k == 0 || k == 1;
    }
  }

  /** The variable's word after `k` NEXTs. */
  function WordAfter(start: word, f: Frame, k: int): word { ToWord(After(S16(start), S16(f.step), k)) }

  lemma StepWord(start: word, f: Frame, k: int)
    ensures WordAfter(start, f, k + 1) == ToWord(WordAfter(start, f, k) + f.step)
    ensures WordAfter(start, f, 0) == start
  {
    var v, s := After(S16(start), S16(f.step), k), S16(f.step);
    assert After(S16(start), s, k + 1) == v + s;
    DivSplitInt(v, TWO16);
    DivSplitInt(v + s, TWO16);
    var t := WordAfter(start, f, k) + f.step;
    DivSplitInt(t, TWO16);
    var carry := if s < 0 then 1 else 0;
    ModUnique(v + s, TWO16, v / TWO16 + t / TWO16 - carry, t % TWO16);
    assert After(S16(start), s, 0) == S16(start);
    S16Wrap(S16(start));
    if S16(start) < 0 { ModUnique(S16(start), TWO16, -1, start); } else { ModUnique(S16(start), TWO16, 0, start); }
  }

  lemma DivSplitInt(x: int, d: int)
    requires d > 0
    ensures x == d * (x / d) + x % d && 0 <= x % d < d
  {
  }

  predicate Beyond(x: int, limit: int, step: int) { if step > 0 then x > limit else x < limit }

  /** A sum of two 16-bit numbers as 16 bits show it. */
  function Wrapped(v: int): int { if v >= 0x8000 then v - TWO16 else if v < -0x8000 then v + TWO16 else v }

  /** Does the NEXT after the passes a loop should make end it?  Yes if the variable stays in 16 bits; and if it does not, only
      in a loop that started beyond its limit and whose wrapped variable is beyond it too. */
  predicate Ends(start: int, limit: int, step: int)
    requires step != 0
  {
    || Fits16(After(start, step, Passes(start, limit, step)))
    || (Beyond(start, limit, step) && Beyond(Wrapped(start + step), limit, step))
  }

  /** A loop with a non-zero step: every NEXT before the due number of passes resumes, and the one after them finishes exactly
      when `Ends` says so. */
  lemma ForPasses(f: Frame, start: word)
    requires f.step != 0
    ensures var a, l, s := S16(start), S16(f.limit), S16(f.step); var n := Passes(a, l, s);
            && (forall k :: 0 < k < n ==> Continues(f, WordAfter(start, f, k)))
            && (!Continues(f, WordAfter(start, f, n)) <==> Ends(a, l, s))
  {
    var a, l, s := S16(start), S16(f.limit), S16(f.step);
    var n := Passes(a, l, s);
    forall k | 0 < k < n ensures Continues(f, WordAfter(start, f, k)) {
      AfterBounds(a, l, s, k);
      S16Wrap(After(a, s, k));
    }
    AfterBounds(a, l, s, n);
    S16Wrap(After(a, s, n));
  }

  /** Where the loop test goes wrong and where it does not, at the edge of 16 bits: a loop up to 32767 makes its pass and goes on;
      so does one that starts beyond its limit and wraps to below it; one that wraps and is still beyond its limit stops. */
  lemma EdgeLoops()
    ensures Passes(32767, 32767, 1) == 1 && !Ends(32767, 32767, 1)
    ensures Continues(Frame(0, 0x7fff, 1, 0, 0), WordAfter(0x7fff, Frame(0, 0x7fff, 1, 0, 0), 1))
    ensures Passes(32767, 0, 1) == 1 && !Ends(32767, 0, 1)
    ensures Passes(32767, -32768, 2) == 1 && !Fits16(After(32767, 2, 1)) && Ends(32767, -32768, 2)
    ensures !Continues(Frame(0, 0x8000, 2, 0, 0), WordAfter(0x7fff, Frame(0, 0x8000, 2, 0, 0), 1))
  {
    ForPasses(Frame(0, 0x7fff, 1, 0, 0), 0x7fff);
    ForPasses(Frame(0, 0x8000, 2, 0, 0), 0x7fff);
  }

  // ---- nested loops ----

  /** An expression, as a function of the variables. */
  type Expr = seq<word> -> word

  /** A statement that assigns a variable; a loop around the items of its body, with the place its NEXT resumes at; a call of the
      subroutine at a line, with the place its RETURN resumes at. */
  datatype Item =
    | Set(v: nat, x: Expr)
    | Loop(v: nat, start: Expr, limit: Expr, step: Expr, eptr: word, cptr: word, body: seq<Item>)
    | Call(line: word, eptr: word, cptr: word, body: seq<Item>)

  /** The variables once FOR has assigned its start value; limit and step are evaluated on them. */
  function Entered(v: nat, start: Expr, vars: seq<word>): (r: seq<word>)
    requires v < |vars|
    ensures |r| == |vars|
  {
    vars[v := start(vars)]
  }

  function Entry(l: Item, vars: seq<word>): Frame
    requires l.Loop? && l.v < |vars|
  {
    var vars' := Entered(l.v, l.start, vars);
    Frame(l.v, l.limit(vars'), l.step(vars'), l.eptr, l.cptr)
  }

  /** How many passes a loop makes. */
  function Count(f: Frame, start: word): (n: nat)
    ensures n >= 1
  {
    var s := S16(f.step);
    if s == 0 then 1 else Passes(S16(start), S16(f.limit), s)
  }

  /** The deepest nesting of loops. */
  function Depth(l: Item): nat {
    match l
    case Set(_, _) => 0
    case Loop(_, _, _, _, _, _, body) => 1 + DepthAll(body)
    case Call(_, _, _, body) => DepthAll(body)
  }

  function DepthAll(ls: seq<Item>): nat {
    if ls == [] then 0
    else
      var a, b := Depth(ls[0]), DepthAll(ls[1..]);
      if a >= b then a else b
  }

  /** The variables an item writes. */
  function Writes(l: Item): set<nat> {
    match l
    case Set(v, _) => {v}
    case Loop(v, _, _, _, _, _, body) => {v} + WritesAll(body)
    case Call(_, _, _, body) => WritesAll(body)
  }

  function WritesAll(ls: seq<Item>): set<nat> {
    if ls == [] then {} else Writes(ls[0]) + WritesAll(ls[1..])
  }

  /** Does a loop end after the passes it should make?  With a zero step that is one pass, if it starts beyond its limit. */
  predicate EndsFrom(f: Frame, start: word) {
    if f.step == 0 then S16(start) > S16(f.limit) else Ends(S16(start), S16(f.limit), S16(f.step))
  }

  /** Only the 26 variables are used, and no loop writes its own variable in its body. */
  predicate Apart(l: Item) {
    match l
    case Set(v, _) => v < 26
    case Loop(v, _, _, _, _, _, body) => v < 26 && v !in WritesAll(body) && ApartAll(body)
    case Call(_, _, _, body) => ApartAll(body)
  }

  predicate ApartAll(ls: seq<Item>) {
    ls == [] || (Apart(ls[0]) && ApartAll(ls[1..]))
  }

  /** Running an item.  A call is the body of its subroutine; a loop is FOR, then the body and a NEXT naming the variable, as often as NEXT resumes; None on an error,
      on a NEXT that goes elsewhere, or when `Count` passes do not end it. */
  function Run(l: Item, st: St): Option<St>
    requires Good(st)
    decreases l, 1, 0
  {
    match l
    case Set(v, x) => if v < 26 then Some(st.(vars := st.vars[v := x(st.vars)])) else None
    case Call(_, _, _, body) => RunAll(body, st)
    case Loop(v, start, _, _, _, _, _) =>
      if v >= 26 then None
      else
        var f := Entry(l, st.vars);
        match For(st, f, start(st.vars))
        case Some(s) => RunPasses(l, f, s, Count(f, start(st.vars)))
        case None => None
  }

  function RunPasses(l: Item, f: Frame, st: St, n: nat): Option<St>
    requires Good(st) && l.Loop?
    decreases l, 0, n
  {
    if n == 0 then None
    else
      match RunAll(l.body, st)
      case None => None
      case Some(s) =>
        if !Good(s) then None
        else
          match Next(s, Some(f.v))
          case Resumed(s', e, c) => if e == f.eptr && c == f.cptr then RunPasses(l, f, s', n - 1) else None
          case Finished(s') => if n == 1 then Some(s') else None
          case Ignored(_) => None
  }

  function RunAll(ls: seq<Item>, st: St): Option<St>
    requires Good(st)
    decreases ls, 1
  {
    if ls == [] then Some(st)
    else
      match Run(ls[0], st)
      case Some(s) => if Good(s) then RunAll(ls[1..], s) else None
      case None => None
  }

  /** Every loop that is entered on this run, from this state, ends after the passes it should make. */
  predicate EndsIn(l: Item, st: St)
    requires Good(st)
    decreases l, 1, 0
  {
    match l
    case Set(_, _) => true
    case Call(_, _, _, body) => EndsAllIn(body, st)
    case Loop(v, start, _, _, _, _, _) =>
      v < 26 ==>
        var f := Entry(l, st.vars);
        && EndsFrom(f, start(st.vars))
        && match For(st, f, start(st.vars))
           case Some(s) => EndPasses(l, f, s, Count(f, start(st.vars)))
           case None => true
  }

  /** From pass to pass. */
  predicate EndPasses(l: Item, f: Frame, st: St, n: nat)
    requires Good(st) && l.Loop?
    decreases l, 0, n
  {
    n > 0 ==>
      && EndsAllIn(l.body, st)
      && match RunAll(l.body, st)
         case Some(s) => Good(s) && Next(s, Some(f.v)).Resumed? ==> EndPasses(l, f, Next(s, Some(f.v)).st, n - 1)
         case None => true
  }

  /** From item to item. */
  predicate EndsAllIn(ls: seq<Item>, st: St)
    requires Good(st)
    decreases ls, 1
  {
    ls != [] ==>
      && EndsIn(ls[0], st)
      && match Run(ls[0], st)
         case Some(s) => Good(s) ==> EndsAllIn(ls[1..], s)
         case None => true
  }

  /** A run's effect: the frame stack is back, and only the written variables have changed. */
  ghost predicate Restores(st: St, r: Option<St>, written: set<nat>)
    requires Good(st)
  {
    && r.Some? && Good(r.value) && r.value.frames == st.frames
    && forall v :: 0 <= v < 26 && v !in written ==> r.value.vars[v] == st.vars[v]
  }

  /** The loop's variable has made its steps. */
  ghost predicate Stepped(l: Item, st: St, r: St)
    requires Good(st) && Good(r) && l.Loop? && l.v < 26
  {
    var f, start := Entry(l, st.vars), l.start(st.vars);
    r.vars[l.v] == WordAfter(start, f, Count(f, start))
  }

  /** Loops that end on this run, within the depth the guard admits: each makes exactly its `Count` passes, the frame stack is given
      back, and the variable is left at start plus passes times step, all as evaluated on entry. */
  lemma {:induction false} RunRestores(l: Item, st: St)
    requires Good(st) && Apart(l) && EndsIn(l, st) && |st.frames| + Depth(l) <= 27
    ensures Restores(st, Run(l, st), Writes(l))
    ensures l.Loop? ==> Stepped(l, st, Run(l, st).value)
    decreases l, 1, 0
  {
    hide Passes, After, WordAfter, Ends, EndsFrom, Count, Entry, RunPasses, EndPasses;
    if l.Loop? {
      EntryParts(l, st.vars);
      var f, start := Entry(l, st.vars), l.start(st.vars);
      var s := For(st, f, start).value;
      StepWord(start, f, 0);
      PassesRestore(l, f, start, s, 0);
      assert s.frames[..|s.frames| - 1] == st.frames;
    } else if l.Call? {
      AllRestore(l.body, st);
    }
  }

  lemma EntryParts(l: Item, vars: seq<word>)
    requires l.Loop? && l.v < |vars|
    ensures Entry(l, vars).v == l.v && Entry(l, vars).eptr == l.eptr && Entry(l, vars).cptr == l.cptr
  {
  }

  /** The loop is inside: its frame on top, its variable `k` steps from the start. */
  predicate Inside(l: Item, f: Frame, start: word, st: St, k: nat) {
    && Good(st) && l.Loop? && l.v == f.v < 26 && l.v !in WritesAll(l.body) && ApartAll(l.body)
    && st.frames != [] && st.frames[|st.frames| - 1] == f
    && |st.frames| + DepthAll(l.body) <= 27 && k < Count(f, start)
    && st.vars[f.v] == WordAfter(start, f, k)
  }

  /** From the `k`th pass on. */
  lemma {:induction false} PassesRestore(l: Item, f: Frame, start: word, st: St, k: nat)
    requires Inside(l, f, start, st, k) && EndsFrom(f, start) && EndPasses(l, f, st, Count(f, start) - k)
    ensures var below := st.(frames := st.frames[..|st.frames| - 1]);
            Restores(below, RunPasses(l, f, st, Count(f, start) - k), Writes(l))
    ensures RunPasses(l, f, st, Count(f, start) - k).value.vars[f.v] == WordAfter(start, f, Count(f, start))
    decreases l, 0, Count(f, start) - k
  {
    hide Passes, After, WordAfter, Continues, S16, ToWord, Ends, EndsFrom, Count;
    AllRestore(l.body, st);
    var s := RunAll(l.body, st).value;
    StepWord(start, f, k);
    LastPass(f, start, k + 1);
    if k + 1 < Count(f, start) {
      var s' := s.(vars := s.vars[f.v := WordAfter(start, f, k + 1)]);
      assert Next(s, Some(f.v)) == Resumed(s', f.eptr, f.cptr);
      PassesRestore(l, f, start, s', k + 1);
    }
  }

  /** NEXT resumes before the last pass; after it, it resumes unless the loop ends there. */
  lemma LastPass(f: Frame, start: word, k: nat)
    requires 0 < k <= Count(f, start)
    ensures Continues(f, WordAfter(start, f, k)) <==> k < Count(f, start) || !EndsFrom(f, start)
  {
    hide Passes, After, WordAfter, Continues, Ends;
    StepNonzero(f.step);
    if f.step == 0 {
      ZeroStep(f, start);
    } else {
      ForPasses(f, start);
    }
  }

  lemma ZeroStep(f: Frame, start: word)
    requires f.step == 0
    ensures WordAfter(start, f, 1) == start && (Continues(f, start) <==> S16(f.limit) >= S16(start))
  {
    StepWord(start, f, 0);
    ModUnique(start, TWO16, 0, start);
  }

  lemma StepNonzero(x: word)
    ensures S16(x) == 0 <==> x == 0
  {
  }

  lemma {:induction false} AllRestore(ls: seq<Item>, st: St)
    requires Good(st) && ApartAll(ls) && EndsAllIn(ls, st) && |st.frames| + DepthAll(ls) <= 27
    ensures Restores(st, RunAll(ls, st), WritesAll(ls))
    decreases ls, 1
  {
    if ls != [] {
      RunRestores(ls[0], st);
      AllRestore(ls[1..], Run(ls[0], st).value);
    }
  }

  // ---- and only then ----

  /** A run comes to its end exactly when every loop it enters ends. */
  lemma RunEnds(l: Item, st: St)
    requires Good(st) && Apart(l) && |st.frames| + Depth(l) <= 27
    ensures Run(l, st).Some? <==> EndsIn(l, st)
  {
    if EndsIn(l, st) {
      RunRestores(l, st);
    } else if Run(l, st).Some? {
      RunNeeds(l, st);
    }
  }

  lemma {:induction false} RunNeeds(l: Item, st: St)
    requires Good(st) && Apart(l) && |st.frames| + Depth(l) <= 27 && Run(l, st).Some?
    ensures EndsIn(l, st)
    decreases l, 1, 0
  {
    hide Passes, After, WordAfter, Ends, EndsFrom, Count, Entry, RunPasses, EndPasses;
    if l.Loop? {
      EntryParts(l, st.vars);
      var f, start := Entry(l, st.vars), l.start(st.vars);
      var s := For(st, f, start).value;
      StepWord(start, f, 0);
      PassesNeed(l, f, start, s, 0);
    } else if l.Call? {
      AllNeed(l.body, st);
    }
  }

  lemma {:induction false} PassesNeed(l: Item, f: Frame, start: word, st: St, k: nat)
    requires Inside(l, f, start, st, k) && RunPasses(l, f, st, Count(f, start) - k).Some?
    ensures EndsFrom(f, start) && EndPasses(l, f, st, Count(f, start) - k)
    decreases l, 0, Count(f, start) - k
  {
    hide Passes, After, WordAfter, Continues, S16, ToWord, Ends, EndsFrom, Count;
    AllNeed(l.body, st);
    AllRestore(l.body, st);
    var s := RunAll(l.body, st).value;
    StepWord(start, f, k);
    LastPass(f, start, k + 1);
    var w := Next(s, Some(f.v));
    var s' := s.(vars := s.vars[f.v := WordAfter(start, f, k + 1)]);
    assert w.Resumed? ==> w == Resumed(s', f.eptr, f.cptr);
    if k + 1 < Count(f, start) {
      PassesNeed(l, f, start, s', k + 1);
    }
  }

  lemma {:induction false} AllNeed(ls: seq<Item>, st: St)
    requires Good(st) && ApartAll(ls) && |st.frames| + DepthAll(ls) <= 27 && RunAll(ls, st).Some?
    ensures EndsAllIn(ls, st)
    decreases ls, 1
  {
    if ls != [] {
      RunNeeds(ls[0], st);
      RunRestores(ls[0], st);
      AllNeed(ls[1..], Run(ls[0], st).value);
    }
  }

  // ---- the frames in memory ----

  const FSTKO := 0x79

  /** The frame stored at an offset of the frame page: variable offset, limit, step, resume pointers. */
  function FrameAt(fstk: array<byte>, x: nat): Frame
    requires x + 9 <= fstk.Length
    reads fstk
  {
    Frame(Half(fstk[x]), Pair(fstk, x + 1), Pair(fstk, x + 3), Pair(fstk, x + 5), Pair(fstk, x + 7))
  }

  function Half(b: byte): nat { b / 2 }

  /** A variable's offset among the variable cells, and the bytes `n` frames take. */
  function Offset(v: nat): nat { 2 * v }

  function FrameSize(n: nat): nat { 9 * n }

  /** The zero page and the frame page hold this state. */
  ghost predicate Shows(zp: array<byte>, fstk: array<byte>, st: St)
    reads zp, fstk
  {
    && zp.Length == 256 && fstk.Length == 256 && zp != fstk && Good(st)
    && zp[FSTKO] == FrameSize(|st.frames|)
    && (forall v :: 0 <= v < 26 ==> Pair(zp, VARS + 2 * v) == st.vars[v])
    && (forall k :: 0 <= k < |st.frames| ==> FrameAt(fstk, 9 * k) == st.frames[k] && fstk[9 * k] % 2 == 0)
  }

  method SetCells(a: array<byte>, at: nat, x: word)
    requires at + 2 <= a.Length
    modifies a
    ensures Pair(a, at) == x
    ensures forall i :: 0 <= i < a.Length && i != at && i != at + 1 ==> a[i] == old(a[i])
  {
    a[at] := x % 256;
    a[at + 1] := x / 256;
  }

  /** The stores of `cmd_FOR` into the uncommitted frame. */
  method PutFrame(fstk: array<byte>, x: nat, f: Frame)
    requires x + 9 <= fstk.Length && f.v < 26
    modifies fstk
    ensures FrameAt(fstk, x) == f && fstk[x] % 2 == 0
    ensures forall i :: 0 <= i < fstk.Length && (i < x || x + 9 <= i) ==> fstk[i] == old(fstk[i])
  {
    hide Wide;
    fstk[x] := 2 * f.v;
    SetCells(fstk, x + 1, f.limit);
    SetCells(fstk, x + 3, f.step);
    SetCells(fstk, x + 5, f.eptr);
    SetCells(fstk, x + 7, f.cptr);
  }

  /** `cmd_FOR` from the evaluated start value on; an error when the frame page is full. */
  method ForCells(zp: array<byte>, fstk: array<byte>, f: Frame, start: word, ghost st: St) returns (ok: bool)
    requires Shows(zp, fstk, st) && f.v < 26
    modifies zp, fstk
    ensures ok == For(st, f, start).Some?
    ensures Shows(zp, fstk, if ok then For(st, f, start).value else st)
  {
    hide Wide;
    if zp[FSTKO] >= 243 { return false; }
    var x: nat := zp[FSTKO];
    ghost var n := |st.frames|;
    SetCells(zp, VARS + 2 * f.v, start);
    PutFrame(fstk, x, f);
    zp[FSTKO] := Add8(zp[FSTKO], 9, false).val;
    ok := true;
    ghost var st' := For(st, f, start).value;
    forall v | 0 <= v < 26 ensures Pair(zp, VARS + 2 * v) == st'.vars[v] {
      assert v != f.v ==> Pair(zp, VARS + 2 * v) == old(Pair(zp, VARS + 2 * v));
    }
    forall k | 0 <= k < n + 1 ensures FrameAt(fstk, 9 * k) == st'.frames[k] && fstk[9 * k] % 2 == 0 {
      assert k < n ==> FrameAt(fstk, 9 * k) == old(FrameAt(fstk, 9 * k)) && fstk[9 * k] == old(fstk[9 * k]);
    }
  }

  /** `sec / sbc / sbc / bvc / eor #$80 / bpl`: the corrected sign of a 16-bit difference. */
  function SignedLess(xl: byte, xh: byte, yl: byte, yh: byte): bool {
    var low := Sub8(xl, yl, true);
    var f := Sbc(xh, yh, low.carry, false);
    f.n != f.v
  }

  lemma SignOfByte(b: byte)
    ensures Bit7(b) <==> SignedByte(b) < 0
  {
  }

  lemma HighDifference(xh: byte, yh: byte, c: bool)
    ensures var f, d := Sbc(xh, yh, c, false), SignedByte(xh) - SignedByte(yh) - (1 - Bit(c));
            (f.n != f.v) <==> d < 0
  {
    hide Bit7, Overflowed;
    AdcByte(xh, 255 - yh, c);
    assert Sbc(xh, yh, c, false) == Adc(xh, 255 - yh, c, false);
    var f := Sbc(xh, yh, c, false);
    SignOfByte(f.a);
    SignBit(xh + (255 - yh) + Bit(c));
  }

  lemma SignedLessIs(xl: byte, xh: byte, yl: byte, yh: byte)
    ensures SignedLess(xl, xh, yl, yh) <==> S16(Wide(xl, xh)) < S16(Wide(yl, yh))
  {
    hide Sbc, Sub8;
    HighDifference(xh, yh, Sub8(xl, yl, true).carry);
    assert S16(Wide(xl, xh)) == xl + 256 * SignedByte(xh) && S16(Wide(yl, yh)) == yl + 256 * SignedByte(yh);
  }

  /** `nx_do` up to the branch: the variable stepped and tested. */
  method StepVar(zp: array<byte>, fstk: array<byte>, y: nat) returns (more: bool)
    requires zp != fstk && zp.Length == 256 && y + 9 <= fstk.Length && fstk[y] < 52 && fstk[y] % 2 == 0
    modifies zp
    ensures var f := FrameAt(fstk, y);
            var x := ToWord(old(Pair(zp, VARS + 2 * f.v)) + f.step);
            more == Continues(f, x) && Pair(zp, VARS + 2 * f.v) == x
    ensures forall i :: 0 <= i < 256 && i != VARS + 2 * Half(fstk[y]) && i != VARS + 2 * Half(fstk[y]) + 1 ==> zp[i] == old(zp[i])
  {
    hide S16, SignedLess;
    var x: nat := VARS + fstk[y];
    assert x == VARS + 2 * Half(fstk[y]);
    ghost var v: int, step: int := Pair(zp, x), Pair(fstk, y + 3);
    var lo := Add8(zp[x], fstk[y + 3], false);
    zp[x] := lo.val;
    var hi := Add8(zp[x + 1], fstk[y + 4], lo.carry);
    zp[x + 1] := hi.val;
    ModUnique(v + step, TWO16, Bit(hi.carry), Pair(zp, x));
    StepSign(fstk[y + 3], fstk[y + 4]);
    hide Wide;
    if fstk[y + 4] < 128 {
      SignedLessIs(fstk[y + 1], fstk[y + 2], zp[x], zp[x + 1]);
      more := !SignedLess(fstk[y + 1], fstk[y + 2], zp[x], zp[x + 1]);
    } else {
      SignedLessIs(zp[x], zp[x + 1], fstk[y + 1], fstk[y + 2]);
      more := !SignedLess(zp[x], zp[x + 1], fstk[y + 1], fstk[y + 2]);
    }
  }

  lemma StepSign(lo: byte, hi: byte)
    ensures hi < 128 <==> Wide(lo, hi) < 0x8000
  {
  }

  /** Abandoning a frame. */
  method Abandon(zp: array<byte>, fstk: array<byte>, ghost st: St)
    requires Shows(zp, fstk, st) && st.frames != []
    modifies zp
    ensures Shows(zp, fstk, st.(frames := st.frames[..|st.frames| - 1]))
  {
    hide Wide;
    zp[FSTKO] := Sub8(zp[FSTKO], 9, true).val;
    assert forall v :: 0 <= v < 26 ==> Pair(zp, VARS + 2 * v) == old(Pair(zp, VARS + 2 * v));
  }

  /** The top frame's cells. */
  lemma TopFrame(zp: array<byte>, fstk: array<byte>, st: St)
    requires Shows(zp, fstk, st) && st.frames != []
    ensures var x := 9 * (|st.frames| - 1);
            && zp[FSTKO] == x + 9 && x + 9 <= 243
            && FrameAt(fstk, x) == st.frames[|st.frames| - 1] && fstk[x] == 2 * st.frames[|st.frames| - 1].v
  {
    hide Wide;
    var k := |st.frames| - 1;
    assert FrameAt(fstk, 9 * k) == st.frames[k];
  }

  /** `cmd_NEXT`: the frame index never leaves the page, and the state moves as `Next` says. */
  method NextCells(zp: array<byte>, fstk: array<byte>, wanted: Option<nat>, ghost st: St)
    returns (resumed: bool, eptr: word, cptr: word, ghost went: Went)
    requires Shows(zp, fstk, st)
    modifies zp
    ensures went == Next(st, wanted) && Shows(zp, fstk, went.st)
    ensures resumed == went.Resumed? && (resumed ==> eptr == went.eptr && cptr == went.cptr)
  {
    hide Wide, Continues, FrameAt;
    ghost var now := st;
    eptr, cptr := 0, 0;
    while true
      invariant Shows(zp, fstk, now) && Next(now, wanted) == Next(st, wanted)
      decreases |now.frames|
    {
      if zp[FSTKO] == 0 {
        return false, 0, 0, Ignored(now);
      }
      TopFrame(zp, fstk, now);
      var x: nat := Sub8(zp[FSTKO], 9, true).val;
      if wanted.None? || fstk[x] == Offset(wanted.value) {
        resumed, eptr, cptr, went := NextTop(zp, fstk, x, now);
        return;
      }
      Abandon(zp, fstk, now);
      now := now.(frames := now.frames[..|now.frames| - 1]);
    }
  }

  /** `nx_do` to the end, on the top frame. */
  method NextTop(zp: array<byte>, fstk: array<byte>, x: nat, ghost st: St)
    returns (resumed: bool, eptr: word, cptr: word, ghost went: Went)
    requires Shows(zp, fstk, st) && st.frames != [] && x == 9 * (|st.frames| - 1)
    modifies zp
    ensures went == Next(st, None) && Shows(zp, fstk, went.st)
    ensures resumed == went.Resumed? && (resumed ==> eptr == went.eptr && cptr == went.cptr)
  {
    hide Wide, Continues;
    TopFrame(zp, fstk, st);
    ghost var f := st.frames[|st.frames| - 1];
    went := Next(st, None);
    var more := StepVar(zp, fstk, x);
    forall v | 0 <= v < 26 ensures Pair(zp, VARS + 2 * v) == went.st.vars[v] {
      assert v != f.v ==> Pair(zp, VARS + 2 * v) == old(Pair(zp, VARS + 2 * v));
    }
    if more {
      return true, Pair(fstk, x + 5), Pair(fstk, x + 7), went;
    }
    zp[FSTKO] := x;
    assert forall v :: 0 <= v < 26 ==> Pair(zp, VARS + 2 * v) == went.st.vars[v] by {
      hide Shows;
    }
    return false, 0, 0, went;
  }
}
