/** Snooping on the split machine: which stores it makes visible to the fetch side, and which it does not. */
module MemSnoop {
  import opened Bits
  import opened Geometry
  import opened CacheModel
  import opened CacheTheory
  import opened MemModel
  import opened MemTheory
  import opened MemRuns
  import opened MemCoherence

  /** Lines of the coarser cache are unions of lines of the finer one. */
  lemma LinesNest(fine: Config, coarse: Config, a: nat, b: nat)
    requires Valid(fine) && Valid(coarse) && fine.lineBytes <= coarse.lineBytes
    requires BaseOf(fine, a) == BaseOf(fine, b)
    ensures BaseOf(coarse, a) == BaseOf(coarse, b)
  {
    var n := Log2(coarse.lineBytes);
    PowerLog(coarse.lineBytes);
    PowerDivides(fine.lineBytes, n);
    Exact(Pow2(n), fine.lineBytes);
    var k := Pow2(n) / fine.lineBytes;
    DivDiv(a, fine.lineBytes, k);
    DivDiv(b, fine.lineBytes, k);
    SameBlock(fine, a, b);
    SameBlock(coarse, a, b);
  }

  /** A store kept off the device page on the split machine, seen from `a`, before any snooping. */
  lemma SplitStorePoint(cs: Configs, y: System, b: nat, v: byte, rnd: nat, a: nat)
    requires SysShaped(cs, y) && b < SPACE && a < SPACE && PointOk(At(cs, y, a), IsIo(a)) && y.mode == Modified
    ensures var p, q := At(cs, y, a), At(cs, WriteD(cs, y, b, v, rnd), a);
            && StoredSpot(cs.d, KeptBack(cs.d, DView(y), b), b, v, a, p.d, q.d)
            && q == p.(d := q.d, memI := q.d.mem, i := Rebase(p.i, q.d.mem), u := Rebase(p.u, q.d.mem))
  {
    WriteSpot(cs.d, DView(y), b, v, rnd, a);
    PutDPoint(cs, y, Write(cs.d, DView(y), b, v, rnd), a);
  }

  /** Counting and stale-store bookkeeping do not touch the store itself. */
  lemma StoreReduces(cs: Configs, y: System, k: Kind, b: nat, v: byte, rnd: nat, a: nat)
    requires SysShaped(cs, y) && b < SPACE && a < SPACE && Split(y) && y.snoop && !IsIo(b) && SideOf(k) == DataSide
    ensures var y1 := Counting(cs, y, k);
            && At(cs, y1, a) == At(cs, y, a) && y1.mode == Modified && DView(y1) == DView(y) && IView(y1) == IView(y)
            && MsWrite(cs, y, k, b, v, rnd) ==
                 if Held(cs.i, IView(y), b) then SnoopAfter(cs, WriteD(cs, y1, b, v, rnd), b) else WriteD(cs, y1, b, v, rnd)
  {
    var y1 := Counting(cs, y, k);
    CensusPoint(cs, y, y1, a);
    assert IView(y1) == IView(y) && DView(y1) == DView(y);
    assert StoreVia(cs, y1, DataSide, b, v, rnd) ==
      if Held(cs.i, IView(y), b) then SnoopAfter(cs, WriteD(cs, y1, b, v, rnd), b) else WriteD(cs, y1, b, v, rnd);
  }

  /** A store to a line the instruction cache holds: that line leaves I$, and on every byte of it the two sides
      agree exactly where D$ agrees with memory, which they certainly do on the bytes D$ cleaned. */
  lemma SnoopedStore(cs: Configs, y: System, k: Kind, b: nat, v: byte, rnd: nat, a: nat)
    requires SysShaped(cs, y) && b < SPACE && a < SPACE && PointOk(At(cs, y, a), IsIo(a))
    requires Split(y) && y.snoop && !IsIo(b) && SideOf(k) == DataSide && Held(cs.i, IView(y), b)
    ensures var p, q := At(cs, y, a), At(cs, MsWrite(cs, y, k, b, v, rnd), a);
            && q.d.seen == (if a == b then v else p.d.seen)
            && (BaseOf(cs.i, a) == BaseOf(cs.i, b) ==> !q.i.held && (Agree(q) <==> q.d.seen == q.memI))
            && (BaseOf(cs.i, a) == BaseOf(cs.i, b) && BaseOf(cs.d, a) == BaseOf(cs.d, b) ==> Agree(q))
            && (BaseOf(cs.i, a) != BaseOf(cs.i, b) ==> q.i.seen == (if q.i.held then p.i.seen else q.memI) && q.i.held == p.i.held)
            && (q.memI == p.memI || q.memI == q.d.seen)
  {
    StoreReduces(cs, y, k, b, v, rnd, a);
    var y1 := Counting(cs, y, k);
    SplitStorePoint(cs, y1, b, v, rnd, a);
    WriteDStores(cs, y1, b, v, rnd, a);
    SnoopAfterPoint(cs, WriteD(cs, y1, b, v, rnd), b, a);
    PointShape(cs, y, a);
    PointShape(cs, WriteD(cs, y1, b, v, rnd), a);
  }

  /** When I$ lines are no longer than D$ lines, a snooped store makes the whole I$ line agree, whatever was
      dirty or stale before. */
  lemma SnoopedLineAgrees(cs: Configs, y: System, f: Flat, w: Writer, b: nat, v: byte, rnd: nat, a: nat)
    requires Represents(cs, y, f) && b < SPACE && a < SPACE
    requires Split(y) && y.snoop && !IsIo(b) && Held(cs.i, IView(y), b)
    requires cs.i.lineBytes <= cs.d.lineBytes && BaseOf(cs.i, a) == BaseOf(cs.i, b)
    ensures var q := At(cs, MsWrite(cs, y, KindOf(w), b, v, rnd), a);
            Agree(q) && q.memI == FlatStep(f, CpuWrite(w, b, v, rnd)).code[a]
  {
    hide SetOf, TagOf, OffOf, SetOk, FindWay, SpotAt;
    assert PointOk(At(cs, y, a), IsIo(a)) && CodeByte(At(cs, y, a)) == f.code[a];
    LinesNest(cs.i, cs.d, a, b);
    SnoopedStore(cs, y, KindOf(w), b, v, rnd, a);
  }

  /** With I$ lines longer than D$ lines the whole-line claim can fail, and exactly this decides it, for every snooped store:
      a byte of the I$ line agrees afterwards if it lies in the stored-to D$ line, or if D$ and memory agreed on it before,
      or if the store's own miss pushes its D$ line out.  Any other dirty D$ neighbour inside the I$ line is left stale. */
  lemma SnoopedExact(cs: Configs, y: System, k: Kind, b: nat, v: byte, rnd: nat, a: nat)
    requires SysShaped(cs, y) && b < SPACE && a < SPACE && PointOk(At(cs, y, a), IsIo(a))
    requires Split(y) && y.snoop && !IsIo(b) && SideOf(k) == DataSide && Held(cs.i, IView(y), b)
    requires BaseOf(cs.i, a) == BaseOf(cs.i, b)
    ensures var p, q := At(cs, y, a), At(cs, MsWrite(cs, y, k, b, v, rnd), a);
            Agree(q) <==> || BaseOf(cs.d, a) == BaseOf(cs.d, b)
                          || p.d.seen == p.memI
                          || (cs.d.writeAlloc && PushedOut(cs.d, DView(y), b, rnd, a))
  {
    hide SetOf, TagOf, OffOf, SetOk, FindWay, SpotAt, PushedOut, Covers;
    SnoopedStore(cs, y, k, b, v, rnd, a);
    if BaseOf(cs.d, a) != BaseOf(cs.d, b) {
      StoreReduces(cs, y, k, b, v, rnd, a);
      var y1 := Counting(cs, y, k);
      WriteElsewhere(cs.d, DView(y1), b, v, rnd, a);
      PutDPoint(cs, y1, Write(cs.d, DView(y1), b, v, rnd), a);
      WriteDStores(cs, y1, b, v, rnd, a);
      SnoopAfterPoint(cs, WriteD(cs, y1, b, v, rnd), b, a);
      PointShape(cs, y, a);
      PointShape(cs, y1, a);
    }
  }

  /** A store that stays in D$ although I$ does not hold its line: snooping never sees it. */
  predicate Escapes(cs: Configs, y: System, b: nat)
    requires SysShaped(cs, y) && b < SPACE
  {
    !IsIo(b) && !Held(cs.i, IView(y), b) && KeptBack(cs.d, DView(y), b)
  }

  /** With snooping on, a store never breaks agreement anywhere, except an escaping store at its own address,
      and that one exactly when it changes the byte. */
  lemma StoreKeepsAgreement(cs: Configs, y: System, k: Kind, b: nat, v: byte, rnd: nat, a: nat)
    requires SysShaped(cs, y) && b < SPACE && a < SPACE && PointOk(At(cs, y, a), IsIo(a))
    requires Split(y) && y.snoop && SideOf(k) == DataSide && Agree(At(cs, y, a))
    ensures var p, q := At(cs, y, a), At(cs, MsWrite(cs, y, k, b, v, rnd), a);
            if a == b && Escapes(cs, y, b) then Agree(q) <==> v == p.d.seen else Agree(q)
  {
    if IsIo(b) {
      IoStoreKeepsAgreement(cs, y, k, b, v, rnd, a);
    } else if Held(cs.i, IView(y), b) {
      SnoopedStore(cs, y, k, b, v, rnd, a);
    } else {
      StoreReduces(cs, y, k, b, v, rnd, a);
      SplitStorePoint(cs, Counting(cs, y, k), b, v, rnd, a);
      PointShape(cs, y, a);
    }
  }

  lemma IoStoreKeepsAgreement(cs: Configs, y: System, k: Kind, b: nat, v: byte, rnd: nat, a: nat)
    requires SysShaped(cs, y) && b < SPACE && a < SPACE && PointOk(At(cs, y, a), IsIo(a)) && IsIo(b)
    requires Split(y) && SideOf(k) == DataSide && Agree(At(cs, y, a))
    ensures Agree(At(cs, MsWrite(cs, y, k, b, v, rnd), a))
  {
    hide SetOf, TagOf, OffOf, BaseOf, SetOk, FindWay, Valid, Shaped, SpotAt;
    var y1 := Counting(cs, y, k);
    var y2 := Uncached(cs, y1);
    CensusPoint(cs, y, y1, a);
    CensusPoint(cs, y1, y2, a);
    PointShape(cs, y2, a);
    if b == 0xF0FC {
      SweepDKeeps(cs, y2, Cleaning, a);
      PointShape(cs, SweepD(cs, y2, Cleaning), a);
    } else if b == 0xF0FD {
      SweepIKeeps(cs, y2, a);
    } else if b == 0xF0FE {
      ResetPoint(cs, y2, a);
    } else if b != 0xF001 && b != 0xF0FF {
      PokePoint(cs, y2, DataSide, b, v, a);
    }
  }

  predicate CpuOnly(es: seq<Event>) {
    EventsOk(es) && forall i :: 0 <= i < |es| ==> es[i].CpuRead? || es[i].CpuWrite?
  }

  /** No store of the run escapes at `a`. */
  predicate NoneEscapes(cs: Configs, y: System, es: seq<Event>, a: nat)
    requires SysShaped(cs, y) && EventsOk(es) && a < SPACE
    decreases |es|
  {
    es == [] ||
    (!(es[0].CpuWrite? && es[0].a == a && Escapes(cs, y, a)) && NoneEscapes(cs, Step(cs, y, es[0]), es[1..], a))
  }

  /** Agreement at an address survives any run of fetches, loads and stores none of which escapes there;
      then a fetch from it returns the last byte stored. */
  lemma {:induction false} AgreementSurvives(cs: Configs, y: System, f: Flat, es: seq<Event>, a: nat, k: Kind, rnd: nat, dev: byte)
    requires Represents(cs, y, f) && Split(y) && y.snoop && CpuOnly(es) && a < SPACE
    requires Agree(At(cs, y, a)) && NoneEscapes(cs, y, es, a)
    requires SideOf(k) == CodeSide && !DeviceReads(a)
    ensures Agree(At(cs, Run(cs, y, es), a))
    ensures MsRead(cs, Run(cs, y, es), k, a, rnd, dev).1 == FlatRun(f, es).code[a]
    decreases |es|
  {
    hide SetOf, TagOf, OffOf, BaseOf, SetOk, FindWay, Valid, Shaped, SpotAt, MsWrite;
    if es == [] {
      AgreeingFetch(cs, y, f, a, k, rnd, dev);
    } else {
      EventKeepsAgreement(cs, y, f, es[0], a);
      StepRefines(cs, y, f, es[0]);
      CpuKeepsMachine(cs, y, es[0]);
      AgreementSurvives(cs, Step(cs, y, es[0]), FlatStep(f, es[0]), es[1..], a, k, rnd, dev);
    }
  }

  lemma AgreeingFetch(cs: Configs, y: System, f: Flat, a: nat, k: Kind, rnd: nat, dev: byte)
    requires Represents(cs, y, f) && Split(y) && a < SPACE && Agree(At(cs, y, a))
    requires SideOf(k) == CodeSide && !DeviceReads(a)
    ensures MsRead(cs, y, k, a, rnd, dev).1 == f.code[a]
  {
    assert PointOk(At(cs, y, a), IsIo(a)) && CodeByte(At(cs, y, a)) == f.code[a];
    MsReadValue(cs, y, k, a, rnd, dev);
  }

  lemma EventKeepsAgreement(cs: Configs, y: System, f: Flat, e: Event, a: nat)
    requires Represents(cs, y, f) && Split(y) && y.snoop && EventOk(e) && (e.CpuRead? || e.CpuWrite?) && a < SPACE
    requires Agree(At(cs, y, a)) && !(e.CpuWrite? && e.a == a && Escapes(cs, y, a))
    ensures Agree(At(cs, Step(cs, y, e), a))
  {
    assert PointOk(At(cs, y, a), IsIo(a));
    if e.CpuRead? {
      ReadPoint(cs, y, e.k, e.a, e.rnd, e.dev, a);
    } else {
      StoreKeepsAgreement(cs, y, KindOf(e.w), e.a, e.v, e.rnd, a);
    }
  }

  /** The CPU cannot change the machine's shape or its switches. */
  lemma CpuKeepsMachine(cs: Configs, y: System, e: Event)
    requires SysShaped(cs, y) && EventOk(e) && (e.CpuRead? || e.CpuWrite?)
    ensures var r := Step(cs, y, e); r.mode == y.mode && r.cachesOn == y.cachesOn && r.snoop == y.snoop
  {
    hide SetOf, TagOf, OffOf, BaseOf, SetOk, FindWay, Shaped, Read, Write, SweepAll, Held, CleanAddr, Snoop, StoreVia, IoWrite;
    if e.CpuWrite? {
      var y1 := Counting(cs, y, KindOf(e.w));
      if IsIo(e.a) {
        IoWriteKeepsMachine(cs, Uncached(cs, y1), DataSide, e.a, e.v);
      } else {
        StoreKeepsMachine(cs, y1, DataSide, e.a, e.v, e.rnd);
      }
    }
  }

  lemma StoreKeepsMachine(cs: Configs, y: System, side: Side, a: nat, v: byte, rnd: nat)
    requires SysShaped(cs, y) && a < SPACE
    ensures var r := StoreVia(cs, y, side, a, v, rnd); r.mode == y.mode && r.cachesOn == y.cachesOn && r.snoop == y.snoop
  {
    hide SetOf, TagOf, OffOf, BaseOf, SetOk, FindWay, Shaped, Write, Held, CleanAddr, Snoop;
  }

  lemma IoWriteKeepsMachine(cs: Configs, y: System, side: Side, a: nat, v: byte)
    requires SysShaped(cs, y) && a < SPACE
    ensures var r := IoWrite(cs, y, side, a, v); r.mode == y.mode && r.cachesOn == y.cachesOn && r.snoop == y.snoop
  {
    hide SetOf, TagOf, OffOf, BaseOf, SetOk, FindWay, Shaped, SweepAll;
  }
}
