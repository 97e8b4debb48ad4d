/** The bus census: every access is counted once by kind, once by side, and once where it was served. */
module MemCensus {
  import opened Bits
  import opened Geometry
  import opened CacheModel
  import opened MemModel
  import opened MemRuns

  function AccessCount(t: Stats): nat {
    t.nReads + t.nWrites
  }

  function Served(y: System): nat {
    AccessCount(y.i.stats) + AccessCount(y.d.stats) + AccessCount(y.u.stats)
  }

  function Sum(xs: seq<nat>): nat {
    if xs == [] then 0 else xs[0] + Sum(xs[1..])
  }

  lemma {:induction false} SumBump(xs: seq<nat>, i: nat)
    requires i < |xs|
    ensures Sum(xs[i := xs[i] + 1]) == Sum(xs) + 1
  {
    if i == 0 {
      assert xs[0 := xs[0] + 1][1..] == xs[1..];
    } else {
      assert xs[i := xs[i] + 1][1..] == xs[1..][i - 1 := xs[1..][i - 1] + 1];
      SumBump(xs[1..], i - 1);
    }
  }

  ghost predicate KindsBalance(y: System) {
    Sum(y.census.kinds) == y.census.code + y.census.data
  }

  ghost predicate BusBalance(y: System) {
    KindsBalance(y) && y.census.code + y.census.data == y.census.uncached + Served(y)
  }

  lemma HandleMissAccesses(cfg: Config, m: Cached, a: nat, rnd: nat)
    requires Shaped(cfg, m) && a < SPACE && !Held(cfg, m, a)
    ensures AccessCount(HandleMiss(cfg, m, a, rnd).0.stats) == AccessCount(m.stats)
  {
    var s := SetOf(cfg, a);
    assert SetOk(cfg, s, m.sets[s]);
    var w := PickVictim(cfg, m.sets[s], rnd);
    assert AccessCount(Evict(cfg, m, s, w).stats) == AccessCount(m.stats);
  }

  lemma ReadAccesses(cfg: Config, m: Cached, a: nat, rnd: nat)
    requires Shaped(cfg, m) && a < SPACE
    ensures AccessCount(Read(cfg, m, a, rnd).0.stats) == AccessCount(m.stats) + 1
  {
    if !Held(cfg, m, a) {
      HandleMissAccesses(cfg, m.(stats := m.stats.(nReads := m.stats.nReads + 1, readMiss := m.stats.readMiss + 1)), a, rnd);
    }
  }

  lemma WriteAccesses(cfg: Config, m: Cached, a: nat, v: byte, rnd: nat)
    requires Shaped(cfg, m) && a < SPACE
    ensures AccessCount(Write(cfg, m, a, v, rnd).stats) == AccessCount(m.stats) + 1
  {
    var n := m.stats.nWrites + 1;
    if Held(cfg, m, a) {
    } else if cfg.writeAlloc {
      HandleMissAccesses(cfg, m.(stats := m.stats.(nWrites := n, writeMiss := m.stats.writeMiss + 1)), a, rnd);
    }
  }

  lemma {:induction false} SweepSetAccesses(cfg: Config, m: Cached, k: Sweep, s: nat, n: nat)
    requires Shaped(cfg, m) && s < cfg.sets && n <= cfg.ways
    ensures AccessCount(SweepSet(cfg, m, k, s, n).stats) == AccessCount(m.stats)
  {
    if n > 0 {
      SweepSetAccesses(cfg, m, k, s, n - 1);
    }
  }

  lemma {:induction false} SweepAccesses(cfg: Config, m: Cached, k: Sweep, n: nat)
    requires Shaped(cfg, m) && n <= cfg.sets
    ensures AccessCount(SweepSets(cfg, m, k, n).stats) == AccessCount(m.stats)
  {
    if n > 0 {
      SweepAccesses(cfg, m, k, n - 1);
      SweepSetAccesses(cfg, SweepSets(cfg, m, k, n - 1), k, n - 1, cfg.ways);
    }
  }

  lemma MaintenanceAccesses(cs: Configs, y: System, k: Sweep)
    requires SysShaped(cs, y)
    ensures Served(SweepI(cs, y, k)) == Served(y) && SweepI(cs, y, k).census == y.census
    ensures Served(SweepD(cs, y, k)) == Served(y) && SweepD(cs, y, k).census == y.census
    ensures Served(SweepU(cs, y, k)) == Served(y) && SweepU(cs, y, k).census == y.census
  {
    hide SetOk, FindWay, Placed, DistinctTags;
    SweepAccesses(cs.i, IView(y), k, cs.i.sets);
    SweepAccesses(cs.d, DView(y), k, cs.d.sets);
    SweepAccesses(cs.u, UView(y), k, cs.u.sets);
  }

  lemma FlushAccesses(cs: Configs, y: System, code: bool, data: bool)
    requires SysShaped(cs, y)
    ensures Served(MsFlush(cs, y, code, data)) == Served(y) && MsFlush(cs, y, code, data).census == y.census
  {
    MaintenanceAccesses(cs, y, Flushing);
    if y.mode != VonNeumann && code {
      MaintenanceAccesses(cs, SweepI(cs, y, Flushing), Flushing);
    }
  }

  lemma CountBalances(c: Census, k: Kind)
    requires |c.kinds| == 6
    ensures Sum(Count(c, k).kinds) == Sum(c.kinds) + 1
    ensures Count(c, k).code + Count(c, k).data == c.code + c.data + 1
    ensures Count(c, k).uncached == c.uncached
  {
    SumBump(c.kinds, Index(k));
  }

  lemma ReadBalances(cs: Configs, y: System, k: Kind, a: nat, rnd: nat, dev: byte)
    requires SysShaped(cs, y) && a < SPACE && y.cachesOn && BusBalance(y)
    ensures BusBalance(MsRead(cs, y, k, a, rnd, dev).0)
  {
    hide SetOf, TagOf, OffOf, BaseOf, SetOk, FindWay, Shaped;
    var y1 := Counting(cs, y, k);
    CountBalances(y.census, k);
    ReadAccesses(cs.u, UView(y1), a, rnd);
    ReadAccesses(cs.i, IView(y1), a, rnd);
    ReadAccesses(cs.d, DView(y1), a, rnd);
  }

  lemma SnoopAccesses(cs: Configs, y: System, a: nat)
    requires SysShaped(cs, y) && a < SPACE
    ensures Served(SnoopAfter(cs, y, a)) == Served(y) && SnoopAfter(cs, y, a).census == y.census
  {
    var c := CleanAddr(cs.d, DView(y), a);
    assert AccessCount(c.stats) == AccessCount(y.d.stats);
    var y1 := PutD(y, c);
    assert AccessCount(Snoop(cs.i, IView(y1), a).stats) == AccessCount(y1.i.stats);
  }

  lemma StoreViaServed(cs: Configs, y: System, a: nat, v: byte, rnd: nat)
    requires SysShaped(cs, y) && a < SPACE && y.cachesOn
    ensures var r := StoreVia(cs, y, DataSide, a, v, rnd);
            Served(r) == Served(y) + 1 && r.census == y.census.(stale := r.census.stale)
  {
    var y1 := if Coherence(cs, y, DataSide, a) && !y.snoop then Stale(cs, y) else y;
    WriteAccesses(cs.u, UView(y1), a, v, rnd);
    WriteAccesses(cs.d, DView(y1), a, v, rnd);
    if y1.mode != VonNeumann {
      SnoopAccesses(cs, WriteD(cs, y1, a, v, rnd), a);
    }
  }

  lemma WriteBalances(cs: Configs, y: System, k: Kind, a: nat, v: byte, rnd: nat)
    requires SysShaped(cs, y) && a < SPACE && y.cachesOn && BusBalance(y) && SideOf(k) == DataSide
    ensures BusBalance(MsWrite(cs, y, k, a, v, rnd))
  {
    var y1 := Counting(cs, y, k);
    CountBalances(y.census, k);
    if IsIo(a) {
      IoWriteBalances(cs, Uncached(cs, y1), a, v);
    } else {
      StoreViaServed(cs, y1, a, v, rnd);
    }
  }

  lemma IoWriteBalances(cs: Configs, y: System, a: nat, v: byte)
    requires SysShaped(cs, y) && a < SPACE && BusBalance(y)
    ensures BusBalance(IoWrite(cs, y, DataSide, a, v))
  {
    if a == 0xF0FC {
      MaintenanceAccesses(cs, y, Cleaning);
    } else if a == 0xF0FD {
      FlushAccesses(cs, y, true, false);
    } else if a == 0xF0FE {
      ResetBalances(cs, y);
    } else if a != 0xF001 && a != 0xF0FF {
      var r := Poke(y, DataSide, a, v);
      assert r.census == y.census && Served(r) == Served(y);
    }
  }

  /** Zeroing the statistics zeroes both sides of the balance. */
  lemma ResetBalances(cs: Configs, y: System)
    requires SysShaped(cs, y)
    ensures BusBalance(MsResetStats(cs, y))
  {
    SumZeros([0, 0, 0, 0, 0, 0]);
  }

  lemma {:induction false} SumZeros(xs: seq<nat>)
    requires forall i :: 0 <= i < |xs| ==> xs[i] == 0
    ensures Sum(xs) == 0
  {
    if xs != [] {
      SumZeros(xs[1..]);
    }
  }

  lemma SetModeBalances(cs: Configs, y: System, m: Mode)
    requires SysShaped(cs, y)
    ensures Served(MsSetMode(cs, y, m)) == Served(y) && MsSetMode(cs, y, m).census == y.census
  {
    var y1 := SweepI(cs, y, Flushing);
    var y2 := SweepD(cs, y1, Flushing);
    MaintenanceAccesses(cs, y, Flushing);
    MaintenanceAccesses(cs, y1, Flushing);
    MaintenanceAccesses(cs, y2, Flushing);
  }

  lemma StepBalances(cs: Configs, y: System, e: Event)
    requires SysShaped(cs, y) && EventOk(e) && y.cachesOn && !e.CacheOff? && BusBalance(y)
    ensures BusBalance(Step(cs, y, e))
  {
    hide SetOf, TagOf, OffOf, BaseOf, SetOk, FindWay, Shaped, MsRead, MsWrite, MsResetStats;
    match e
    case CpuRead(k, a, rnd, dev) => ReadBalances(cs, y, k, a, rnd, dev);
    case CpuWrite(w, a, v, rnd) => WriteBalances(cs, y, KindOf(w), a, v, rnd);
    case Clean => MaintenanceAccesses(cs, y, Cleaning);
    case Flush(code, data) => FlushAccesses(cs, y, code, data);
    case SetMode(m) => SetModeBalances(cs, y, m);
    case CacheOff =>
    case CacheOn =>
    case SetSnoop(b) =>
    case ZeroStats => ResetBalances(cs, y);
  }

  lemma StaysOn(cs: Configs, y: System, e: Event)
    requires SysShaped(cs, y) && EventOk(e) && y.cachesOn && !e.CacheOff?
    ensures Step(cs, y, e).cachesOn
  {
    hide SetOf, TagOf, OffOf, BaseOf, SetOk, FindWay, Shaped;
  }

  /** With the caches on, over any run (statistics resets and mode changes included) the counts by kind sum to
      code plus data, which is the uncached accesses plus everything the three caches served. */
  lemma {:induction false} CensusBalances(cs: Configs, y: System, es: seq<Event>)
    requires SysShaped(cs, y) && EventsOk(es) && y.cachesOn && BusBalance(y)
    requires forall i :: 0 <= i < |es| ==> !es[i].CacheOff?
    ensures BusBalance(Run(cs, y, es))
    decreases |es|
  {
    if es != [] {
      StepBalances(cs, y, es[0]);
      StaysOn(cs, y, es[0]);
      CensusBalances(cs, Step(cs, y, es[0]), es[1..]);
    }
  }
}
