/** A loop whose bound is another loop's variable: `FOR I=1 TO n`, `FOR J=1 TO I`, `K=K+1`, `NEXT J`, `NEXT I`. */
module BasicTriangle {
  import opened Bits
  import opened Text
  import opened BasicCells
  import opened BasicLoops
  import opened BasicRun

  const VAR_I := 8
  const VAR_J := 9
  const VAR_K := 10

  /** The 16-bit sum. */
  function Plus(a: int, b: int): word { ToWord(a + b) }

  function Constant(x: word): Expr { _ => x }

  function Var(v: nat): Expr { vars => if v < |vars| then vars[v] else 0 }

  function OneMore(v: nat): Expr { vars => if v < |vars| then Plus(vars[v], 1) else 0 }

  /** Where the two NEXTs resume. */
  datatype Spots = Spots(eptr: word, cptr: word, eptr': word, cptr': word)

  function Bump(): Item { Set(VAR_K, OneMore(VAR_K)) }

  function Inner(q: Spots): Item { Loop(VAR_J, Constant(1), Var(VAR_I), Constant(1), q.eptr', q.cptr', [Bump()]) }

  function Triangle(n: word, q: Spots): Item { Loop(VAR_I, Constant(1), Constant(n), Constant(1), q.eptr, q.cptr, [Inner(q)]) }

  lemma AddOn(a: int, b: int, c: int)
    ensures Plus(Plus(a, b), c) == Plus(a, b + c)
  {
    var x := a + b;
    DivSplitInt(x, TWO16);
    DivSplitInt(x % TWO16 + c, TWO16);
    ModUnique(x + c, TWO16, x / TWO16 + (x % TWO16 + c) / TWO16, (x % TWO16 + c) % TWO16);
  }

  /** One pass at least. */
  function AtLeastOne(x: int): nat { if x < 1 then 1 else x }

  /** Counting from 1 in ones. */
  lemma CountsUp(f: Frame, k: nat)
    requires f.step == 1
    ensures Count(f, 1) == AtLeastOne(S16(f.limit)) && WordAfter(1, f, k) == ToWord(1 + k)
    ensures EndsFrom(f, 1) <==> S16(f.limit) < 0x7fff
  {
  }

  /** The inner loop from pass `k` on adds one for every pass left. */
  lemma {:induction false} InnerPasses(q: Spots, f: Frame, st: St, k: nat)
    requires Inside(Inner(q), f, 1, st, k) && f.step == 1 && 1 <= S16(f.limit) < 0x7fff
    requires f.eptr == q.eptr' && f.cptr == q.cptr'
    ensures EndPasses(Inner(q), f, st, Count(f, 1) - k)
    ensures var r := RunPasses(Inner(q), f, st, Count(f, 1) - k);
            r.Some? && Good(r.value) && r.value.vars[VAR_K] == Plus(st.vars[VAR_K], Count(f, 1) - k)
    decreases Count(f, 1) - k
  {
    hide Count, WordAfter, EndsFrom, Continues, EndPasses, RunPasses, RunAll, EndsAllIn, S16, Plus;
    var n := Count(f, 1);
    CountsUp(f, k);
    BodyBumps(q, st);
    var s := st.(vars := st.vars[VAR_K := Plus(st.vars[VAR_K], 1)]);
    StepWord(1, f, k);
    LastPass(f, 1, k + 1);
    PassUnfolds(Inner(q), f, st, s, n - k);
    AddOn(st.vars[VAR_K], 1, n - k - 1);
    if k + 1 < n {
      var s' := s.(vars := s.vars[VAR_J := WordAfter(1, f, k + 1)]);
      assert Next(s, Some(f.v)) == Resumed(s', f.eptr, f.cptr);
      InnerInside(q, f, s', k + 1);
      InnerPasses(q, f, s', k + 1);
    }
  }

  /** A body of one item. */
  lemma OneItem(l: Item, st: St)
    requires Good(st) && Run(l, st).Some? && Good(Run(l, st).value)
    ensures RunAll([l], st) == Run(l, st) && (EndsAllIn([l], st) <==> EndsIn(l, st))
  {
    hide Run, EndsIn;
    var s := Run(l, st).value;
    assert [l][1..] == [] && RunAll([], s) == Some(s) && EndsAllIn([], s);
  }

  lemma BodyBumps(q: Spots, st: St)
    requires Good(st)
    ensures Inner(q).body == [Bump()] && Inner(q).v == VAR_J && EndsAllIn(Inner(q).body, st)
    ensures RunAll(Inner(q).body, st) == Some(st.(vars := st.vars[VAR_K := Plus(st.vars[VAR_K], 1)]))
  {
    hide RunAll, EndsAllIn;
    assert Run(Bump(), st) == Some(st.(vars := st.vars[VAR_K := Plus(st.vars[VAR_K], 1)]));
    OneItem(Bump(), st);
  }

  /** One pass whose body runs to `s`. */
  lemma PassUnfolds(l: Item, f: Frame, st: St, s: St, n: nat)
    requires Good(st) && Good(s) && l.Loop? && n > 0 && RunAll(l.body, st) == Some(s) && EndsAllIn(l.body, st)
    ensures var w := Next(s, Some(f.v));
            && (EndPasses(l, f, st, n) <==> (w.Resumed? ==> EndPasses(l, f, w.st, n - 1)))
            && (w.Finished? && n == 1 ==> RunPasses(l, f, st, n) == Some(w.st))
            && (w.Resumed? && w.eptr == f.eptr && w.cptr == f.cptr ==> RunPasses(l, f, st, n) == RunPasses(l, f, w.st, n - 1))
  {
  }

  lemma InnerInside(q: Spots, f: Frame, st: St, k: nat)
    requires Good(st) && f.v == VAR_J && st.frames != [] && st.frames[|st.frames| - 1] == f && |st.frames| <= 27
    requires k < Count(f, 1) && st.vars[VAR_J] == WordAfter(1, f, k)
    ensures Inside(Inner(q), f, 1, st, k)
  {
    hide Count, WordAfter;
    assert [Bump()][1..] == [];
    assert ApartAll([Bump()][1..]) && DepthAll([Bump()][1..]) == 0;
    assert WritesAll([Bump()]) == {VAR_K};
  }

  /** `FOR J=1 TO I` ends and adds I to K, for every I in 1..32766. */
  lemma InnerAdds(q: Spots, st: St)
    requires Good(st) && |st.frames| < 27 && 1 <= S16(st.vars[VAR_I]) < 0x7fff
    ensures EndsIn(Inner(q), st)
    ensures var r := Run(Inner(q), st);
            r.Some? && Good(r.value) && r.value.vars[VAR_K] == Plus(st.vars[VAR_K], st.vars[VAR_I])
  {
    hide Count, WordAfter, EndsFrom, EndPasses, RunPasses;
    var f := Entry(Inner(q), st.vars);
    assert f == Frame(VAR_J, st.vars[VAR_I], 1, q.eptr', q.cptr');
    var s := For(st, f, 1).value;
    CountsUp(f, 0);
    StepWord(1, f, 0);
    InnerInside(q, f, s, 0);
    InnerPasses(q, f, s, 0);
  }

  lemma InnerShape(q: Spots)
    ensures Apart(Inner(q)) && Depth(Inner(q)) == 1 && Writes(Inner(q)) == {VAR_J, VAR_K}
  {
    assert [Bump()][1..] == [];
    assert ApartAll([Bump()][1..]) && DepthAll([Bump()][1..]) == 0;
    assert WritesAll([Bump()]) == {VAR_K};
  }

  lemma TriangleShape(n: word, q: Spots)
    ensures var l := Triangle(n, q);
            Apart(l) && Depth(l) == 2 && DepthAll(l.body) == 1 && VAR_I !in WritesAll(l.body) && ApartAll(l.body)
  {
    InnerShape(q);
    hide Inner;
    var ls := [Inner(q)];
    assert ls[1..] == [] && ApartAll(ls[1..]) && DepthAll(ls[1..]) == 0 && WritesAll(ls[1..]) == {};
    assert ApartAll(ls) && DepthAll(ls) == 1 && WritesAll(ls) == {VAR_J, VAR_K};
  }

  /** What the passes from `k` on add. */
  function Rest(k: nat, m: nat): nat
    decreases m - k
  {
    if k >= m then 0 else k + 1 + Rest(k + 1, m)
  }

  lemma {:induction false} RestIs(k: nat, m: nat)
    requires k <= m
    ensures 2 * Rest(k, m) == m * (m + 1) - k * (k + 1)
    decreases m - k
  {
    if k < m { RestIs(k + 1, m); }
  }

  lemma WholeRest(m: nat)
    ensures Rest(0, m) == m * (m + 1) / 2
  {
    RestIs(0, m);
  }

  lemma OuterBody(n: word, q: Spots, st: St)
    requires Good(st) && |st.frames| < 27 && 1 <= S16(st.vars[VAR_I]) < 0x7fff
    ensures EndsAllIn(Triangle(n, q).body, st)
    ensures var r := RunAll(Triangle(n, q).body, st);
            && r.Some? && Good(r.value) && r.value.frames == st.frames && r.value.vars[VAR_I] == st.vars[VAR_I]
            && r.value.vars[VAR_K] == Plus(st.vars[VAR_K], st.vars[VAR_I])
  {
    InnerAdds(q, st);
    InnerShape(q);
    RunRestores(Inner(q), st);
    hide Inner, Run, RunAll, EndsAllIn, EndsIn;
    OneItem(Inner(q), st);
  }

  /** The outer loop from pass `k` on. */
  lemma {:induction false} OuterPasses(n: word, q: Spots, f: Frame, st: St, k: nat)
    requires Inside(Triangle(n, q), f, 1, st, k) && f.step == 1 && S16(f.limit) < 0x7fff
    requires f.eptr == q.eptr && f.cptr == q.cptr
    ensures EndPasses(Triangle(n, q), f, st, Count(f, 1) - k)
    ensures var r := RunPasses(Triangle(n, q), f, st, Count(f, 1) - k);
            r.Some? && Good(r.value) && r.value.vars[VAR_K] == Plus(st.vars[VAR_K], Rest(k, Count(f, 1)))
    decreases Count(f, 1) - k
  {
    hide Count, WordAfter, EndsFrom, Continues, EndPasses, RunPasses, RunAll, EndsAllIn;
    var l, c := Triangle(n, q), Count(f, 1);
    CountsUp(f, k);
    SmallWord(1 + k);
    TriangleShape(n, q);
    OuterBody(n, q, st);
    var s := RunAll(l.body, st).value;
    StepWord(1, f, k);
    LastPass(f, 1, k + 1);
    PassUnfolds(l, f, st, s, c - k);
    AddOn(st.vars[VAR_K], k + 1, Rest(k + 1, c));
    if k + 1 < c {
      var s' := s.(vars := s.vars[VAR_I := WordAfter(1, f, k + 1)]);
      assert Next(s, Some(f.v)) == Resumed(s', f.eptr, f.cptr);
      OuterPasses(n, q, f, s', k + 1);
    }
  }

  lemma SmallWord(x: nat)
    requires x < 0x8000
    ensures ToWord(x) == x && S16(x) == x
  {
  }

  lemma OuterRuns(n: word, q: Spots, st: St)
    requires Good(st) && |st.frames| + 2 <= 27 && S16(n) < 0x7fff
    ensures EndsIn(Triangle(n, q), st)
    ensures var r := Run(Triangle(n, q), st);
            r.Some? && Good(r.value) && r.value.vars[VAR_K] == Plus(st.vars[VAR_K], Rest(0, AtLeastOne(S16(n))))
  {
    hide Count, WordAfter, EndsFrom, EndPasses, RunPasses, Inner, Rest, Plus, AtLeastOne, S16;
    var l := Triangle(n, q);
    var f := Entry(l, st.vars);
    assert f == Frame(VAR_I, n, 1, q.eptr, q.cptr);
    CountsUp(f, 0);
    var s := For(st, f, 1).value;
    StepWord(1, f, 0);
    TriangleShape(n, q);
    OuterPasses(n, q, f, s, 0);
  }

  /** The nested loops end exactly when n is not 32767, and then K has grown by 1 + 2 + ... + n, modulo 2^16; with n below 1 the
      outer loop still makes its one pass. */
  lemma TriangleRuns(n: word, q: Spots, st: St)
    requires Good(st) && |st.frames| + 2 <= 27
    ensures EndsIn(Triangle(n, q), st) <==> S16(n) < 0x7fff
    ensures S16(n) < 0x7fff ==>
      var r, c := Run(Triangle(n, q), st), AtLeastOne(S16(n));
      r.Some? && Good(r.value) && r.value.vars[VAR_K] == Plus(st.vars[VAR_K], c * (c + 1) / 2)
  {
    WholeRest(AtLeastOne(S16(n)));
    hide Count, WordAfter, EndsFrom, EndPasses, RunPasses, Inner, Rest, Plus, AtLeastOne, Run;
    if S16(n) < 0x7fff {
      OuterRuns(n, q, st);
    } else {
      var f := Entry(Triangle(n, q), st.vars);
      assert f == Frame(VAR_I, n, 1, q.eptr, q.cptr);
      CountsUp(f, 0);
    }
  }

  /** The same in a program text, on the run loop. */
  lemma TriangleInText(p: Program, n: word, q: Spots, g: nat, m: Machine) returns (t: nat)
    requires LaidOut(p) && Placed(p, Triangle(n, q), g) && Good(m.st) && Here(p, m, g)
    requires |m.st.frames| + 2 <= 27 && |m.calls| <= MAX_CALLS && S16(n) < 0x7fff
    ensures var r, c := Turns(p, m, t), AtLeastOne(S16(n));
            && Here(p, r, g + 5) && Good(r.st) && r.st.frames == m.st.frames
            && r.st.vars[VAR_I] == c + 1 && r.st.vars[VAR_K] == Plus(m.st.vars[VAR_K], c * (c + 1) / 2)
  {
    hide LaidOut, Placed, Here, Turns, Run, EndsIn, Apart;
    var l := Triangle(n, q);
    TriangleRuns(n, q, m.st);
    TriangleShape(n, q);
    TriangleSize(n, q);
    RunRestores(l, m.st);
    t := ItemRuns(p, l, g, m);
    var f := Entry(l, m.st.vars);
    assert f == Frame(VAR_I, n, 1, q.eptr, q.cptr);
    CountsUp(f, Count(f, 1));
    SmallWord(AtLeastOne(S16(n)) + 1);
  }

  lemma TriangleSize(n: word, q: Spots)
    ensures Len(Triangle(n, q)) == 5 && Calls(Triangle(n, q)) == 0
  {
    assert [Bump()][1..] == [] && LenAll([Bump()]) == 1 && CallsAll([Bump()]) == 0;
    assert [Inner(q)][1..] == [] && LenAll([Inner(q)]) == 3 && CallsAll([Inner(q)]) == 0;
  }
}
