/** The split machine without snooping: what the clean-then-invalidate fence guarantees, and what the wrong order does. */
module MemCoherence {
  import opened Bits
  import opened Geometry
  import opened CacheModel
  import opened CacheTheory
  import opened MemModel
  import opened MemTheory
  import opened MemRuns

  /** Both caches and the memory give the same byte. */
  ghost predicate Agree(p: Point) {
    p.i.seen == p.d.seen && p.d.seen == p.memI
  }

  ghost predicate Split(y: System) {
    y.mode == Modified && y.cachesOn
  }

  /** A load or fetch leaves what the data side sees alone and moves the other two only towards it. */
  lemma ReadPoint(cs: Configs, y: System, k: Kind, b: nat, rnd: nat, dev: byte, a: nat)
    requires SysShaped(cs, y) && b < SPACE && a < SPACE && PointOk(At(cs, y, a), IsIo(a)) && Split(y)
    ensures var p, q := At(cs, y, a), At(cs, MsRead(cs, y, k, b, rnd, dev).0, a);
            && q.d.seen == p.d.seen
            && (q.memI == p.memI || q.memI == p.d.seen)
            && (q.i.seen == p.i.seen || q.i.seen == q.memI)
            && q.on == p.on
  {
    hide SetOf, TagOf, OffOf, BaseOf, SetOk, FindWay, Shaped, SpotAt;
    var y1 := Counting(cs, y, k);
    CensusPoint(cs, y, y1, a);
    PointShape(cs, y, a);
    if IsIo(b) {
      CensusPoint(cs, y1, Uncached(cs, y1), a);
    } else if SideOf(k) == CodeSide {
      ReadSpot(cs.i, IView(y1), b, rnd, a);
      PutIPoint(cs, y1, Read(cs.i, IView(y1), b, rnd).0, a);
    } else {
      ReadSpot(cs.d, DView(y1), b, rnd, a);
      PutDPoint(cs, y1, Read(cs.d, DView(y1), b, rnd).0, a);
    }
  }

  predicate Quiet(es: seq<Event>) {
    EventsOk(es) && forall i :: 0 <= i < |es| ==> es[i].CpuRead?
  }

  /** Loads and fetches never break agreement. */
  lemma {:induction false} QuietAgree(cs: Configs, y: System, f: Flat, es: seq<Event>)
    requires Represents(cs, y, f) && Split(y) && Quiet(es)
    ensures Represents(cs, Run(cs, y, es), f) && Split(Run(cs, y, es))
    ensures (forall a :: 0 <= a < SPACE ==> At(cs, y, a).d.seen == y.memI[a]) ==>
      forall a :: 0 <= a < SPACE ==> At(cs, Run(cs, y, es), a).d.seen == Run(cs, y, es).memI[a]
    ensures (forall a :: 0 <= a < SPACE ==> Agree(At(cs, y, a))) ==>
      forall a :: 0 <= a < SPACE ==> Agree(At(cs, Run(cs, y, es), a))
    decreases |es|
  {
    hide SetOf, TagOf, OffOf, BaseOf, SetOk, FindWay, SpotAt;
    if es != [] {
      var r := Step(cs, y, es[0]);
      StepRefines(cs, y, f, es[0]);
      forall a | 0 <= a < SPACE
        ensures At(cs, y, a).d.seen == y.memI[a] ==> At(cs, r, a).d.seen == r.memI[a]
        ensures Agree(At(cs, y, a)) ==> Agree(At(cs, r, a))
      {
        ReadPoint(cs, y, es[0].k, es[0].a, es[0].rnd, es[0].dev, a);
      }
      ReadPoint(cs, y, es[0].k, es[0].a, es[0].rnd, es[0].dev, 0);
      assert At(cs, r, 0).on == r.cachesOn && At(cs, r, 0).mode == r.mode;
      QuietAgree(cs, r, f, es[1..]);
    }
  }

  /** Once the data side agrees with memory, invalidating the instruction cache is enough: until the next store
      every fetch returns the last byte stored. */
  lemma InvalidateSuffices(cs: Configs, y: System, f: Flat, es: seq<Event>, k: Kind, a: nat, rnd: nat, dev: byte)
    requires Represents(cs, y, f) && Split(y) && Quiet(es)
    requires forall b :: 0 <= b < SPACE ==> At(cs, y, b).d.seen == y.memI[b]
    requires a < SPACE && !DeviceReads(a) && SideOf(k) == CodeSide
    ensures MsRead(cs, Run(cs, Step(cs, y, Flush(true, false)), es), k, a, rnd, dev).1 == f.code[a]
  {
    var r := Step(cs, y, Flush(true, false));
    StepRefines(cs, y, f, Flush(true, false));
    forall b | 0 <= b < SPACE
      ensures Agree(At(cs, r, b))
    {
      SweepIKeeps(cs, y, b);
      assert At(cs, y, b).d.seen == y.memI[b];
    }
    QuietAgree(cs, r, f, es);
    var z := Run(cs, r, es);
    MsReadValue(cs, z, k, a, rnd, dev);
    assert Agree(At(cs, z, a)) && CodeByte(At(cs, z, a)) == f.code[a];
  }

  /** The software fence: clean D$, then any loads and fetches, then invalidate I$.  From any reachable state,
      every fetch before the next store returns the last byte stored. */
  lemma Fence(cs: Configs, y: System, f: Flat, es: seq<Event>, es': seq<Event>, k: Kind, a: nat, rnd: nat, dev: byte)
    requires Represents(cs, y, f) && Split(y) && Quiet(es) && Quiet(es')
    requires a < SPACE && !DeviceReads(a) && SideOf(k) == CodeSide
    ensures var y2 := Run(cs, Step(cs, y, Clean), es);
            && SysShaped(cs, y2)
            && MsRead(cs, Run(cs, Step(cs, y2, Flush(true, false)), es'), k, a, rnd, dev).1 == f.code[a]
  {
    var y1 := Step(cs, y, Clean);
    StepRefines(cs, y, f, Clean);
    forall b | 0 <= b < SPACE
      ensures At(cs, y1, b).d.seen == y1.memI[b]
    {
      SweepDKeeps(cs, y, Cleaning, b);
      PointShape(cs, y1, b);
    }
    QuietAgree(cs, y1, f, es);
    InvalidateSuffices(cs, Run(cs, y1, es), f, es', k, a, rnd, dev);
  }

  /** A write-through data cache is never dirty. */
  lemma {:induction false} ThroughNeverDirty(cs: Configs, y: System, f: Flat, es: seq<Event>)
    requires Represents(cs, y, f) && EventsOk(es) && cs.d.wpol == Through
    requires forall a :: 0 <= a < SPACE ==> !At(cs, y, a).d.dirty
    ensures forall a :: 0 <= a < SPACE ==> !At(cs, Run(cs, y, es), a).d.dirty
    decreases |es|
  {
    if es != [] {
      forall a | 0 <= a < SPACE
        ensures !At(cs, Step(cs, y, es[0]), a).d.dirty
      {
        StepPoint(cs, y, f, es[0], a);
      }
      StepRefines(cs, y, f, es[0]);
      ThroughNeverDirty(cs, Step(cs, y, es[0]), FlatStep(f, es[0]), es[1..]);
    }
  }

  /** With a write-through data cache the invalidate alone is a fence, after any run from a clean start. */
  lemma ThroughFence(cs: Configs, y: System, f: Flat, es: seq<Event>, es': seq<Event>, k: Kind, a: nat, rnd: nat, dev: byte)
    requires Represents(cs, y, f) && cs.d.wpol == Through && EventsOk(es) && Quiet(es')
    requires forall b :: 0 <= b < SPACE ==> !At(cs, y, b).d.dirty
    requires Split(Run(cs, y, es))
    requires a < SPACE && !DeviceReads(a) && SideOf(k) == CodeSide
    ensures MsRead(cs, Run(cs, Step(cs, Run(cs, y, es), Flush(true, false)), es'), k, a, rnd, dev).1 == FlatRun(f, es).code[a]
  {
    var z := Run(cs, y, es);
    ThroughNeverDirty(cs, y, f, es);
    MachineRefinesMemory(cs, y, f, es);
    forall b | 0 <= b < SPACE
      ensures At(cs, z, b).d.seen == z.memI[b]
    {
      PointShape(cs, z, b);
      assert PointOk(At(cs, z, b), IsIo(b)) && !At(cs, z, b).d.dirty;
    }
    InvalidateSuffices(cs, z, FlatRun(f, es), es', k, a, rnd, dev);
  }

  /** A fetch that finds its line absent loads it from memory, and memory is not touched. */
  lemma FetchFills(cs: Configs, y: System, k: Kind, a: nat, rnd: nat, dev: byte)
    requires SysShaped(cs, y) && a < SPACE && !IsIo(a) && PointOk(At(cs, y, a), false)
    requires Split(y) && SideOf(k) == CodeSide && !At(cs, y, a).i.held
    ensures var r, v := MsRead(cs, y, k, a, rnd, dev).0, MsRead(cs, y, k, a, rnd, dev).1;
            && At(cs, r, a).i == Spot(true, false, y.memI[a], y.memI[a])
            && PointOk(At(cs, r, a), false) && Split(r)
  {
    var y1 := Counting(cs, y, k);
    CensusPoint(cs, y, y1, a);
    PointShape(cs, y, a);
    ReadSpot(cs.i, IView(y1), a, rnd, a);
    PutIPoint(cs, y1, Read(cs.i, IView(y1), a, rnd).0, a);
    MsReadKeeps(cs, y, k, a, rnd, dev, a);
  }

  /** The wrong order: invalidate, fetch, then clean.  The later fetch returns the byte memory held before the
      clean, so it is right exactly when memory already had the stored byte. */
  lemma ReversedFence(cs: Configs, y: System, f: Flat, k: Kind, a: nat, rnd: nat, rnd': nat, dev: byte)
    requires Represents(cs, y, f) && Split(y)
    requires a < SPACE && !IsIo(a) && SideOf(k) == CodeSide
    ensures var y1 := Step(cs, y, Flush(true, false));
            var y3 := Step(cs, MsRead(cs, y1, k, a, rnd, dev).0, Clean);
            var v := MsRead(cs, y3, k, a, rnd', dev).1;
            v == y.memI[a] && (v == f.code[a] <==> At(cs, y, a).d.seen == y.memI[a])
  {
    hide SetOf, TagOf, OffOf, BaseOf, SetOk, FindWay, Valid, Shaped, SpotAt;
    assert PointOk(At(cs, y, a), IsIo(a)) && CodeByte(At(cs, y, a)) == f.code[a];
    var y1 := Step(cs, y, Flush(true, false));
    SweepIKeeps(cs, y, a);
    FetchFills(cs, y1, k, a, rnd, dev);
    var y2 := MsRead(cs, y1, k, a, rnd, dev).0;
    SweepDKeeps(cs, y2, Cleaning, a);
    MsReadValue(cs, Step(cs, y2, Clean), k, a, rnd', dev);
  }

  /** A clean as a fetch sees it: what I$ holds stays, and behind everything else memory now has what was stored. */
  lemma CleanedFetch(cs: Configs, y: System, f: Flat, k: Kind, a: nat, rnd: nat, dev: byte)
    requires Represents(cs, y, f) && Split(y)
    requires a < SPACE && !IsIo(a) && SideOf(k) == CodeSide
    ensures var p := At(cs, y, a);
            MsRead(cs, Step(cs, y, Clean), k, a, rnd, dev).1 == if p.i.held then p.i.seen else f.code[a]
  {
    hide SetOf, TagOf, OffOf, BaseOf, SetOk, FindWay, Valid, Shaped, SpotAt, MsRead;
    assert PointOk(At(cs, y, a), IsIo(a)) && CodeByte(At(cs, y, a)) == f.code[a];
    var r := Step(cs, y, Clean);
    SweepDKeeps(cs, y, Cleaning, a);
    PointShape(cs, r, a);
    MsReadValue(cs, r, k, a, rnd, dev);
  }

  /** The wrong order with any loads and fetches in between: the fetch after the clean is wrong exactly when the line is still in
      I$, refilled before the clean, with another byte than the one stored. */
  lemma LateClean(cs: Configs, y: System, f: Flat, es: seq<Event>, k: Kind, a: nat, rnd: nat, dev: byte)
    requires Represents(cs, y, f) && Split(y) && Quiet(es)
    requires a < SPACE && !IsIo(a) && SideOf(k) == CodeSide
    ensures var y2 := Run(cs, Step(cs, y, Flush(true, false)), es);
            var p, v := At(cs, y2, a), MsRead(cs, Step(cs, y2, Clean), k, a, rnd, dev).1;
            && v == (if p.i.held then p.i.seen else f.code[a])
            && (v != f.code[a] <==> p.i.held && p.i.seen != f.code[a])
  {
    hide SetOf, TagOf, OffOf, BaseOf, SetOk, FindWay, Valid, Shaped, SpotAt, MsRead;
    var y1 := Step(cs, y, Flush(true, false));
    StepRefines(cs, y, f, Flush(true, false));
    QuietAgree(cs, y1, f, es);
    CleanedFetch(cs, Run(cs, y1, es), f, k, a, rnd, dev);
  }
}
