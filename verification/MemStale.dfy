/** Stale fetches are reachable: concrete runs of the freshly initialised machine after which a fetch returns a byte that a
    program has long since overwritten. */
module MemStale {
  import opened Bits
  import opened Geometry
  import opened CacheModel
  import opened CacheTheory
  import opened MemModel
  import opened MemTheory
  import opened MemRuns
  import opened MemCoherence
  import opened MemSnoop

  /** What `ms_init` leaves, whatever the two memories hold. */
  ghost predicate Booted(cs: Configs, y: System) {
    && SysShaped(cs, y)
    && y.mode == VonNeumann && y.cachesOn && !y.snoop
    && Empty(cs.i, IView(y)) && Empty(cs.d, DView(y)) && Empty(cs.u, UView(y))
  }

  /** The split machine with nothing cached yet and `m` in the shared memory. */
  ghost predicate Fresh(cs: Configs, y: System, m: seq<byte>) {
    && SysOk(cs, y) && Split(y) && |m| == SPACE
    && forall a :: 0 <= a < SPACE ==> Untouched(At(cs, y, a), m[a])
  }

  predicate Untouched(p: Point, m: byte) {
    !p.i.held && !p.d.held && p.memI == m
  }

  /** `D$` keeps every store to itself. */
  predicate Hoards(cfg: Config) {
    cfg.wpol == Back && cfg.writeAlloc
  }

  /** A byte stored, in D$ only, while memory still holds `m` and I$ does not hold the line. */
  predicate Hidden(p: Point, v: byte, m: byte) {
    !p.i.held && p.d.held && p.d.seen == v && p.memI == m
  }

  lemma RunStep(cs: Configs, y: System, e: Event, es: seq<Event>)
    requires SysShaped(cs, y) && EventsOk([e] + es)
    ensures EventOk(e) && EventsOk(es) && Run(cs, y, [e] + es) == Run(cs, Step(cs, y, e), es)
  {
    assert ([e] + es)[0] == e && ([e] + es)[1..] == es;
    assert forall i :: 0 <= i < |es| ==> es[i] == ([e] + es)[i + 1];
  }

  lemma RunThree(cs: Configs, y: System, e1: Event, e2: Event, e3: Event)
    requires SysShaped(cs, y) && EventOk(e1) && EventOk(e2) && EventOk(e3)
    ensures var es := [e1] + ([e2] + ([e3] + []));
            EventsOk(es) && Run(cs, y, es) == Step(cs, Step(cs, Step(cs, y, e1), e2), e3)
  {
    hide SysShaped, Step;
    var y1 := Step(cs, y, e1);
    RunStep(cs, y, e1, [e2] + ([e3] + []));
    RunStep(cs, y1, e2, [e3] + []);
    RunStep(cs, Step(cs, y1, e2), e3, []);
  }

  lemma RunFive(cs: Configs, y: System, e1: Event, e2: Event, e3: Event, e4: Event, e5: Event)
    requires SysShaped(cs, y) && EventOk(e1) && EventOk(e2) && EventOk(e3) && EventOk(e4) && EventOk(e5)
    ensures var es := [e1] + ([e2] + ([e3] + ([e4] + ([e5] + []))));
            EventsOk(es) && Run(cs, y, es) == Step(cs, Step(cs, Step(cs, Step(cs, Step(cs, y, e1), e2), e3), e4), e5)
  {
    hide SysShaped, Step;
    var y1 := Step(cs, y, e1);
    RunStep(cs, y, e1, [e2] + ([e3] + ([e4] + ([e5] + []))));
    RunStep(cs, y1, e2, [e3] + ([e4] + ([e5] + [])));
    RunThree(cs, Step(cs, y1, e2), e3, e4, e5);
  }

  lemma MemSizes(cs: Configs, y: System)
    requires SysShaped(cs, y)
    ensures |y.memI| == |y.memD| == SPACE
  {
  }

  lemma SwitchToSplit(cs: Configs, y: System)
    requires Booted(cs, y)
    ensures Fresh(cs, Step(cs, y, SetMode(Modified)), y.memI) && !Step(cs, y, SetMode(Modified)).snoop
  {
    hide SetOf, TagOf, OffOf, BaseOf, SetOk, FindWay, Valid, Shaped, SpotAt;
    ColdHolds(cs, y);
    MemSizes(cs, y);
    var r := Step(cs, y, SetMode(Modified));
    forall a | 0 <= a < SPACE
      ensures PointOk(At(cs, r, a), IsIo(a)) && Untouched(At(cs, r, a), y.memI[a])
    {
      assert PointOk(At(cs, y, a), IsIo(a)) && CodeByte(At(cs, y, a)) == y.memI[a];
      SetModeKeeps(cs, y, Modified, a);
      PointShape(cs, r, a);
    }
  }

  lemma SwitchSnoop(cs: Configs, y: System, m: seq<byte>)
    requires Fresh(cs, y, m)
    ensures var r := Step(cs, y, SetSnoop(true)); Fresh(cs, r, m) && r.snoop
  {
    hide SetOf, TagOf, OffOf, BaseOf, SetOk, FindWay, Valid, Shaped, SpotAt;
    var r := y.(snoop := true);
    assert Step(cs, y, SetSnoop(true)) == r;
    hide Step;
    CensusPoint(cs, y, r, 0);
    forall a | 0 <= a < SPACE
      ensures PointOk(At(cs, r, a), IsIo(a)) && Untouched(At(cs, r, a), m[a])
    {
      CensusPoint(cs, y, r, a);
      assert PointOk(At(cs, y, a), IsIo(a)) && Untouched(At(cs, y, a), m[a]);
    }
  }

  /** The first store of a fresh split machine: the byte is in D$, memory keeps the old one, and I$ still holds nothing. */
  lemma FirstStore(cs: Configs, y: System, m: seq<byte>, w: Writer, b: nat, v: byte, rnd: nat, a: nat)
    requires Fresh(cs, y, m) && Hoards(cs.d) && b < SPACE && a < SPACE && !IsIo(b)
    ensures var r := Step(cs, y, CpuWrite(w, b, v, rnd));
            && PointOk(At(cs, r, a), IsIo(a)) && Split(r) && r.snoop == y.snoop
            && !At(cs, r, a).i.held && At(cs, r, a).memI == m[a]
            && (a == b ==> Hidden(At(cs, r, a), v, m[a]))
  {
    hide SetOf, TagOf, OffOf, BaseOf, SetOk, FindWay, Valid, Shaped, SpotAt, Write;
    assert Untouched(At(cs, y, a), m[a]) && Untouched(At(cs, y, b), m[b]);
    FirstStoreIsPlain(cs, y, m, w, b, v, rnd);
    var y1 := Counting(cs, y, KindOf(w));
    CensusPoint(cs, y, y1, a);
    SplitStorePoint(cs, y1, b, v, rnd, a);
    WriteDStores(cs, y1, b, v, rnd, a);
    PointShape(cs, y1, a);
    PointShape(cs, WriteD(cs, y1, b, v, rnd), a);
  }

  /** With I$ empty there is nothing to snoop and nothing to count as stale. */
  lemma FirstStoreIsPlain(cs: Configs, y: System, m: seq<byte>, w: Writer, b: nat, v: byte, rnd: nat)
    requires Fresh(cs, y, m) && b < SPACE && !IsIo(b)
    ensures Step(cs, y, CpuWrite(w, b, v, rnd)) == WriteD(cs, Counting(cs, y, KindOf(w)), b, v, rnd)
  {
    hide SetOf, TagOf, OffOf, BaseOf, SetOk, FindWay, Valid, Shaped, Write;
    var y1 := Counting(cs, y, KindOf(w));
    assert Untouched(At(cs, y, b), m[b]);
    CensusPoint(cs, y, y1, b);
    NotHeld(cs, y1, b);
  }

  lemma NotHeld(cs: Configs, y: System, b: nat)
    requires SysShaped(cs, y) && b < SPACE
    ensures At(cs, y, b).i.held == Held(cs.i, IView(y), b) && At(cs, y, b).d.held == Held(cs.d, DView(y), b)
  {
  }

  /** A program's store to $F0FD: I$ is emptied and no other byte moves. */
  lemma InvalidateStore(cs: Configs, y: System, v: byte, rnd: nat, a: nat)
    requires SysShaped(cs, y) && Split(y) && a < SPACE && PointOk(At(cs, y, a), IsIo(a))
    ensures var r := Step(cs, y, CpuWrite(Wr, 0xF0FD, v, rnd)); var p, q := At(cs, y, a), At(cs, r, a);
            PointOk(q, IsIo(a)) && Split(r) && q == p.(i := Spot(false, false, p.memI, p.memI))
  {
    hide SetOf, TagOf, OffOf, BaseOf, SetOk, FindWay, Valid, Shaped, SpotAt;
    var y1 := Counting(cs, y, Data);
    var y2 := Uncached(cs, y1);
    CensusPoint(cs, y, y1, a);
    CensusPoint(cs, y1, y2, a);
    SweepIKeeps(cs, y2, a);
  }

  /** A program's store to $F0FC: what I$ holds stays as it is. */
  lemma CleanStore(cs: Configs, y: System, v: byte, rnd: nat, a: nat)
    requires SysShaped(cs, y) && Split(y) && a < SPACE && PointOk(At(cs, y, a), IsIo(a)) && At(cs, y, a).i.held
    ensures var r := Step(cs, y, CpuWrite(Wr, 0xF0FC, v, rnd)); var p, q := At(cs, y, a), At(cs, r, a);
            PointOk(q, IsIo(a)) && Split(r) && q.i.seen == p.i.seen && q.memI == p.d.seen
  {
    hide SetOf, TagOf, OffOf, BaseOf, SetOk, FindWay, Valid, Shaped, SpotAt;
    var y1 := Counting(cs, y, Data);
    var y2 := Uncached(cs, y1);
    CensusPoint(cs, y, y1, a);
    CensusPoint(cs, y1, y2, a);
    SweepDKeeps(cs, y2, Cleaning, a);
    PointShape(cs, SweepD(cs, y2, Cleaning), a);
  }

  /** The fence the wrong way round, as a program on the freshly booted machine: store, invalidate, fetch, clean. */
  function ReversedRun(a: nat, v: byte, rnd: nat, dev: byte): seq<Event> {
    [SetMode(Modified)] + ([CpuWrite(Wr, a, v, rnd)] + ([CpuWrite(Wr, 0xF0FD, 0, 0)]
      + ([CpuRead(Opcode, a, rnd, dev)] + ([CpuWrite(Wr, 0xF0FC, 0, 0)] + []))))
  }

  /** After it every fetch from `a` still returns the byte from before the store, although memory now has the new one. */
  lemma ReversedRunStale(cs: Configs, y: System, a: nat, v: byte, rnd: nat, dev: byte, rnd': nat, dev': byte)
    requires Booted(cs, y) && Hoards(cs.d) && a < SPACE && !IsIo(a)
    ensures EventsOk(ReversedRun(a, v, rnd, dev))
    ensures var z := Run(cs, y, ReversedRun(a, v, rnd, dev));
            MsRead(cs, z, Opcode, a, rnd', dev').1 == y.memI[a] && z.memI[a] == v
  {
    hide SetOf, TagOf, OffOf, BaseOf, SetOk, FindWay, Valid, Shaped, SpotAt, MsRead, MsWrite, Run, Step;
    var e1, e2, e3 := CpuWrite(Wr, a, v, rnd), CpuRead(Opcode, a, rnd, dev), CpuWrite(Wr, 0xF0FC, 0, 0);
    var y1 := Step(cs, y, SetMode(Modified));
    var y2 := Step(cs, y1, e1);
    var y3 := Step(cs, y2, CpuWrite(Wr, 0xF0FD, 0, 0));
    var y4 := Step(cs, y3, e2);
    var z := Step(cs, y4, e3);
    SwitchToSplit(cs, y);
    FirstStore(cs, y1, y.memI, Wr, a, v, rnd, a);
    InvalidateStore(cs, y2, 0, 0, a);
    FetchHere(cs, y3, Opcode, a, rnd, dev, a);
    CleanStore(cs, y4, 0, 0, a);
    MsReadValue(cs, z, Opcode, a, rnd', dev');
    RunFive(cs, y, SetMode(Modified), e1, CpuWrite(Wr, 0xF0FD, 0, 0), e2, e3);
  }

  /** A fetch seen from its own line: the line is now in I$, and neither memory nor what D$ shows has changed. */
  lemma FetchHere(cs: Configs, y: System, k: Kind, b: nat, rnd: nat, dev: byte, a: nat)
    requires SysShaped(cs, y) && b < SPACE && a < SPACE && PointOk(At(cs, y, a), IsIo(a)) && !IsIo(b)
    requires Split(y) && SideOf(k) == CodeSide && BaseOf(cs.i, a) == BaseOf(cs.i, b)
    ensures var r := Step(cs, y, CpuRead(k, b, rnd, dev)); var p, q := At(cs, y, a), At(cs, r, a);
            && PointOk(q, IsIo(a)) && Split(r) && r.snoop == y.snoop
            && q == p.(i := p.i.(held := true))
  {
    hide SetOf, TagOf, OffOf, SetOk, FindWay, Valid, Shaped, SpotAt;
    var y1 := Counting(cs, y, k);
    CensusPoint(cs, y, y1, a);
    PointShape(cs, y, a);
    ReadSpot(cs.i, IView(y1), b, rnd, a);
    PutIPoint(cs, y1, Read(cs.i, IView(y1), b, rnd).0, a);
    MsReadKeeps(cs, y, k, b, rnd, dev, a);
  }

  /** A store to a line I$ does not hold, with snooping on. */
  function EscapingRun(a: nat, v: byte, rnd: nat): seq<Event> {
    [SetMode(Modified)] + ([SetSnoop(true)] + ([CpuWrite(Wr, a, v, rnd)] + []))
  }

  /** Snooping never sees it: the very next fetch returns the old byte. */
  lemma EscapingRunStale(cs: Configs, y: System, a: nat, v: byte, rnd: nat, rnd': nat, dev: byte)
    requires Booted(cs, y) && Hoards(cs.d) && a < SPACE && !IsIo(a)
    ensures EventsOk(EscapingRun(a, v, rnd))
    ensures var z := Run(cs, y, EscapingRun(a, v, rnd));
            z.snoop && MsRead(cs, z, Opcode, a, rnd', dev).1 == y.memI[a] && CodeByte(At(cs, z, a)) == v
  {
    hide SetOf, TagOf, OffOf, BaseOf, SetOk, FindWay, Valid, Shaped, SpotAt, MsRead, MsWrite, Run, Step;
    var e := CpuWrite(Wr, a, v, rnd);
    var y1 := Step(cs, y, SetMode(Modified));
    var y2 := Step(cs, y1, SetSnoop(true));
    var z := Step(cs, y2, e);
    SwitchToSplit(cs, y);
    SwitchSnoop(cs, y1, y.memI);
    FirstStore(cs, y2, y.memI, Wr, a, v, rnd, a);
    PointShape(cs, z, a);
    MsReadValue(cs, z, Opcode, a, rnd', dev);
    RunThree(cs, y, SetMode(Modified), SetSnoop(true), e);
  }

  /** A dirty neighbour: store to `a`, fetch `b` of the same I$ line, store to `b`, which is snooped. */
  function NeighbourRun(a: nat, v: byte, b: nat, v': byte, rnd: nat, dev: byte): seq<Event> {
    [SetMode(Modified)] + ([SetSnoop(true)] + ([CpuWrite(Wr, a, v, rnd)]
      + ([CpuRead(Opcode, b, rnd, dev)] + ([CpuWrite(Wr, b, v', rnd)] + []))))
  }

  /** When `a` and `b` share an I$ line and fall into different D$ sets, the snooped store drops the I$ line but leaves the
      byte stored at `a` in D$: a fetch from `a` reloads the old one. */
  lemma NeighbourRunStale(cs: Configs, y: System, a: nat, v: byte, b: nat, v': byte, rnd: nat, dev: byte, rnd': nat, dev': byte)
    requires Booted(cs, y) && Hoards(cs.d) && a < SPACE && b < SPACE && !IsIo(a) && !IsIo(b)
    requires BaseOf(cs.i, a) == BaseOf(cs.i, b) && SetOf(cs.d, a) != SetOf(cs.d, b) && v != y.memI[a]
    ensures EventsOk(NeighbourRun(a, v, b, v', rnd, dev))
    ensures var z := Run(cs, y, NeighbourRun(a, v, b, v', rnd, dev));
            z.snoop && MsRead(cs, z, Opcode, a, rnd', dev').1 == y.memI[a] && CodeByte(At(cs, z, a)) == v
  {
    hide SetOf, TagOf, OffOf, BaseOf, SetOk, FindWay, Valid, Shaped, SpotAt, MsRead, MsWrite, Run, Step;
    var e1, e2, e3 := CpuWrite(Wr, a, v, rnd), CpuRead(Opcode, b, rnd, dev), CpuWrite(Wr, b, v', rnd);
    var y1 := Step(cs, y, SetMode(Modified));
    var y2 := Step(cs, y1, SetSnoop(true));
    var y3 := Step(cs, y2, e1);
    var y4 := Step(cs, y3, e2);
    var z := Step(cs, y4, e3);
    SwitchToSplit(cs, y);
    SwitchSnoop(cs, y1, y.memI);
    FirstStore(cs, y2, y.memI, Wr, a, v, rnd, a);
    FirstStore(cs, y2, y.memI, Wr, a, v, rnd, b);
    FetchHere(cs, y3, Opcode, b, rnd, dev, a);
    FetchHere(cs, y3, Opcode, b, rnd, dev, b);
    NeighbourStays(cs, y4, a, v, b, v', rnd);
    MsReadValue(cs, z, Opcode, a, rnd', dev');
    RunFive(cs, y, SetMode(Modified), SetSnoop(true), e1, e2, e3);
  }

  lemma NeighbourStays(cs: Configs, y: System, a: nat, v: byte, b: nat, v': byte, rnd: nat)
    requires SysShaped(cs, y) && Split(y) && y.snoop && a < SPACE && b < SPACE && !IsIo(a) && !IsIo(b)
    requires BaseOf(cs.i, a) == BaseOf(cs.i, b) && SetOf(cs.d, a) != SetOf(cs.d, b)
    requires PointOk(At(cs, y, a), false) && At(cs, y, b).i.held && At(cs, y, a).d.seen == v != At(cs, y, a).memI
    ensures var r := Step(cs, y, CpuWrite(Wr, b, v', rnd)); var q := At(cs, r, a);
            && PointOk(q, false) && Split(r) && r.snoop && CodeByte(q) == v
            && !q.i.held && q.i.seen == q.memI == At(cs, y, a).memI
  {
    hide SetOf, TagOf, OffOf, BaseOf, SetOk, FindWay, Valid, Shaped, SpotAt, MsWrite, PushedOut;
    NotHeld(cs, y, b);
    OtherSetStays(cs.d, DView(y), b, rnd, a);
    SnoopedStore(cs, y, Data, b, v', rnd, a);
    SnoopedExact(cs, y, Data, b, v', rnd, a);
    MsWriteStores(cs, y, Data, b, v', rnd, a);
    CpuKeepsMachine(cs, y, CpuWrite(Wr, b, v', rnd));
    PointShape(cs, Step(cs, y, CpuWrite(Wr, b, v', rnd)), a);
  }

  lemma OtherSetStays(cfg: Config, m: Cached, b: nat, rnd: nat, a: nat)
    requires Shaped(cfg, m) && b < SPACE && a < SPACE && SetOf(cfg, a) != SetOf(cfg, b)
    ensures !PushedOut(cfg, m, b, rnd, a) && BaseOf(cfg, a) != BaseOf(cfg, b)
  {
    hide OffOf, TagOf, FindWay, DistinctTags;
    SameLine(cfg, a, b);
    if PushedOut(cfg, m, b, rnd, a) {
      CoverFound(cfg, m, SetOf(cfg, b), PickVictim(cfg, m.sets[SetOf(cfg, b)], rnd), a);
    }
  }

  /** The machine as `ms_init` configures it goes stale both ways at any address off the device page: with the fence reversed,
      and with snooping on. */
  lemma DefaultsGoStale(y: System, a: nat, v: byte)
    requires Booted(Configs(DEFAULTS, DEFAULTS, DEFAULTS), y) && a < SPACE && !IsIo(a) && v != y.memI[a]
    ensures var cs := Configs(DEFAULTS, DEFAULTS, DEFAULTS);
            var es, es' := ReversedRun(a, v, 0, 0), EscapingRun(a, v, 0);
            && EventsOk(es) && EventsOk(es')
            && MsRead(cs, Run(cs, y, es), Opcode, a, 0, 0).1 != FlatRun(Flat(VonNeumann, y.memI, y.memD), es).code[a]
            && MsRead(cs, Run(cs, y, es'), Opcode, a, 0, 0).1 != FlatRun(Flat(VonNeumann, y.memI, y.memD), es').code[a]
  {
    hide SetOf, TagOf, OffOf, BaseOf, SetOk, FindWay, Valid, Shaped, SpotAt, MsRead, MsWrite, ReversedRun, EscapingRun;
    var cs := Configs(DEFAULTS, DEFAULTS, DEFAULTS);
    var f, es, es' := Flat(VonNeumann, y.memI, y.memD), ReversedRun(a, v, 0, 0), EscapingRun(a, v, 0);
    ReversedRunStale(cs, y, a, v, 0, 0, 0, 0);
    EscapingRunStale(cs, y, a, v, 0, 0, 0);
    MemSizes(cs, y);
    ReversedRunStores(f, a, v);
    EscapingRunStores(f, a, v);
  }

  /** With I$ lines of 32 bytes over D$ lines of 16 the snooped store misses the other half of the line. */
  lemma LongLinesGoStale(y: System, v: byte, v': byte)
    requires Booted(Configs(DEFAULTS.(lineBytes := 32), DEFAULTS, DEFAULTS), y)
    requires |y.memI| == SPACE && v != y.memI[0x0200]
    ensures var cs, es := Configs(DEFAULTS.(lineBytes := 32), DEFAULTS, DEFAULTS), NeighbourRun(0x0200, v, 0x0210, v', 0, 0);
            EventsOk(es) && MsRead(cs, Run(cs, y, es), Opcode, 0x0200, 0, 0).1 == y.memI[0x0200]
  {
    hide FindWay, Valid, Shaped, SpotAt, MsRead, MsWrite, Run, Step, NeighbourRun;
    NeighbourRunStale(Configs(DEFAULTS.(lineBytes := 32), DEFAULTS, DEFAULTS), y, 0x0200, v, 0x0210, v', 0, 0, 0, 0);
  }

  lemma FlatRunStep(f: Flat, e: Event, es: seq<Event>)
    requires |f.code| == SPACE && |f.data| == SPACE && EventsOk([e] + es)
    ensures EventOk(e) && EventsOk(es) && FlatRun(f, [e] + es) == FlatRun(FlatStep(f, e), es)
  {
    assert ([e] + es)[0] == e && ([e] + es)[1..] == es;
    assert forall i :: 0 <= i < |es| ==> es[i] == ([e] + es)[i + 1];
  }

  lemma ReversedRunStores(f: Flat, a: nat, v: byte)
    requires |f.code| == |f.data| == SPACE && a < SPACE && !IsIo(a)
    ensures EventsOk(ReversedRun(a, v, 0, 0)) && FlatRun(f, ReversedRun(a, v, 0, 0)).code[a] == v
  {
    var e1, e2, e3, e4 := CpuWrite(Wr, a, v, 0), CpuWrite(Wr, 0xF0FD, 0, 0), CpuRead(Opcode, a, 0, 0), CpuWrite(Wr, 0xF0FC, 0, 0);
    var f1 := f.(mode := Modified);
    var f2 := f1.(code := f.code[a := v]);
    FlatRunStep(f, SetMode(Modified), [e1] + ([e2] + ([e3] + ([e4] + []))));
    FlatRunStep(f1, e1, [e2] + ([e3] + ([e4] + [])));
    FlatRunStep(f2, e2, [e3] + ([e4] + []));
    FlatRunStep(f2, e3, [e4] + []);
    FlatRunStep(f2, e4, []);
  }

  lemma EscapingRunStores(f: Flat, a: nat, v: byte)
    requires |f.code| == |f.data| == SPACE && a < SPACE && !IsIo(a)
    ensures EventsOk(EscapingRun(a, v, 0)) && FlatRun(f, EscapingRun(a, v, 0)).code[a] == v
  {
    var e := CpuWrite(Wr, a, v, 0);
    var f1 := f.(mode := Modified);
    FlatRunStep(f, SetMode(Modified), [SetSnoop(true)] + ([e] + []));
    FlatRunStep(f1, SetSnoop(true), [e] + []);
    FlatRunStep(f1, e, []);
  }
}
