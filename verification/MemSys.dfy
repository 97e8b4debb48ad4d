/** The memory system as the program keeps it: three caches, two memories, and two pointers into them. */
module MemSysImpl {
  import opened Bits
  import opened Geometry
  import opened CacheModel
  import opened CacheImpl
  import opened MemModel

  class MemSys {
    var mode: Mode
    var cachesOn: bool
    var snoop: bool
    const ci: Cache
    const cd: Cache
    const cu: Cache
    const memI: array<byte>
    const memD: array<byte>
    var imem: array<byte>
    var dmem: array<byte>
    var census: Census

    /** `ms_init`; what the two memories hold is the host's business. */
    constructor Init(mi: array<byte>, md: array<byte>)
      requires mi != md && mi.Length == SPACE && md.Length == SPACE
      ensures Separate() && ci.Blank() && cd.Blank() && cu.Blank() && Cfgs() == Configs(DEFAULTS, DEFAULTS, DEFAULTS)
      ensures memI == mi && memD == md && mode == VonNeumann && cachesOn && !snoop && census == NO_COUNTS
    {
      mode, cachesOn, snoop := VonNeumann, true, false;
      memI, memD, imem, dmem := mi, md, mi, mi;
      census := NO_COUNTS;
      ci := new Cache.Defaults();
      cd := new Cache.Defaults();
      cu := new Cache.Defaults();
    }

    /** A freshly initialised system is valid, with three empty caches. */
    lemma Cold()
      requires Separate() && ci.Blank() && cd.Blank() && cu.Blank()
      ensures Valid()
      ensures Empty(ci.cfg, IView(Abs())) && Empty(cd.cfg, DView(Abs())) && Empty(cu.cfg, UView(Abs()))
    {
      ci.Cold(imem);
      cd.Cold(dmem);
      cu.Cold(imem);
    }

    ghost function Heap(): set<object>
      reads this, ci, cd, cu
    {
      {this, ci, cd, cu, ci.line, ci.store, cd.line, cd.store, cu.line, cu.store, memI, memD}
    }

    ghost predicate Separate()
      reads this, ci, cd, cu
    {
      && ci != cd && cd != cu && ci != cu
      && ci.line != cd.line && cd.line != cu.line && ci.line != cu.line
      && ci.store != cd.store && cd.store != cu.store && ci.store != cu.store
      && memI != memD && {memI, memD} !! {ci.store, cd.store, cu.store}
      && memI.Length == SPACE && memD.Length == SPACE
      && imem == memI && dmem == (if mode == Harvard then memD else memI)
      && |census.kinds| == 6
    }

    ghost predicate Valid()
      reads Heap()
    {
      Separate() && ci.Ok(imem) && cd.Ok(dmem) && cu.Ok(imem)
    }

    ghost function Cfgs(): Configs
      reads ci, cd, cu
    {
      Configs(ci.cfg, cd.cfg, cu.cfg)
    }

    ghost function Abs(): (y: System)
      requires Valid()
      reads Heap()
      ensures SysShaped(Cfgs(), y)
      ensures IView(y) == ci.Abs(imem) && DView(y) == cd.Abs(dmem) && UView(y) == cu.Abs(imem)
    {
      System(mode, cachesOn, snoop, Off(ci.Abs(imem)), Off(cd.Abs(dmem)), Off(cu.Abs(imem)), memI[..], memD[..], census)
    }

    method Bump(k: Kind)
      requires Valid()
      modifies this`census
      ensures Valid() && Abs() == Counting(Cfgs(), old(Abs()), k)
    {
      census := Count(census, k);
    }

    method ReadViaD(a: word, rnd: nat) returns (v: byte)
      requires Valid()
      modifies cd`stats, cd`clock, cd.line, cd.store, dmem
      ensures Valid() && (Abs(), v) == ReadD(Cfgs(), old(Abs()), a, rnd)
    {
      v := cd.ReadByte(dmem, a, rnd);
      ci.StillOk(imem);
      cu.StillOk(imem);
    }

    method ReadViaI(a: word, rnd: nat) returns (v: byte)
      requires Valid()
      modifies ci`stats, ci`clock, ci.line, ci.store, imem
      ensures Valid() && (Abs(), v) == ReadI(Cfgs(), old(Abs()), a, rnd)
    {
      v := ci.ReadByte(imem, a, rnd);
      cd.StillOk(dmem);
      cu.StillOk(imem);
    }

    method ReadViaU(a: word, rnd: nat) returns (v: byte)
      requires Valid()
      modifies cu`stats, cu`clock, cu.line, cu.store, imem
      ensures Valid() && (Abs(), v) == ReadU(Cfgs(), old(Abs()), a, rnd)
    {
      v := cu.ReadByte(imem, a, rnd);
      cd.StillOk(dmem);
      ci.StillOk(imem);
    }

    /** The byte of one side's memory, past every cache. */
    method Peek(side: Side, a: word) returns (v: byte)
      requires Valid()
      ensures v == SpaceFor(Abs(), side)[a]
    {
      if side == CodeSide {
        v := imem[a];
      } else {
        v := dmem[a];
      }
    }

    method CountUncached()
      requires Valid()
      modifies this`census
      ensures Valid() && Abs() == Uncached(Cfgs(), old(Abs()))
    {
      census := census.(uncached := census.uncached + 1);
    }

    /** `ms_read`; `dev` is what a device register answers. */
    method ReadBus(k: Kind, a: word, rnd: nat, dev: byte) returns (v: byte)
      requires Valid()
      modifies this`census, ci`stats, ci`clock, ci.line, ci.store, cd`stats, cd`clock, cd.line, cd.store,
               cu`stats, cu`clock, cu.line, cu.store, memI, memD
      ensures Valid() && (Abs(), v) == MsRead(Cfgs(), old(Abs()), k, a, rnd, dev)
    {
      hide SetOf, TagOf, OffOf, BaseOf, SetOk, FindWay, Shaped, ReadServed;
      Bump(k);
      if IsIo(a) {
        v := ReadDevice(SideOf(k), a, dev);
      } else if !cachesOn {
        v := Peek(SideOf(k), a);
      } else {
        v := ReadVia(SideOf(k), a, rnd);
      }
    }

    /** The device page: a register answers by itself, the rest is plain memory. */
    method ReadDevice(side: Side, a: word, dev: byte) returns (v: byte)
      requires Valid()
      modifies this`census
      ensures Valid() && Abs() == Uncached(Cfgs(), old(Abs()))
      ensures v == if DeviceReads(a) then dev else SpaceFor(old(Abs()), side)[a]
    {
      v := Peek(side, a);
      if DeviceReads(a) {
        v := dev;
      }
      CountUncached();
    }

    method ReadVia(side: Side, a: word, rnd: nat) returns (v: byte)
      requires Valid()
      modifies ci`stats, ci`clock, ci.line, ci.store, cd`stats, cd`clock, cd.line, cd.store,
               cu`stats, cu`clock, cu.line, cu.store, memI, memD
      ensures Valid() && (Abs(), v) == ReadServed(Cfgs(), old(Abs()), side, a, rnd)
    {
      if mode == VonNeumann {
        v := ReadViaU(a, rnd);
      } else if side == CodeSide {
        v := ReadViaI(a, rnd);
      } else {
        v := ReadViaD(a, rnd);
      }
    }

    method WriteViaD(a: word, v: byte, rnd: nat)
      requires Valid()
      modifies cd`stats, cd`clock, cd.line, cd.store, dmem
      ensures Valid() && Abs() == WriteD(Cfgs(), old(Abs()), a, v, rnd)
    {
      cd.WriteByte(dmem, a, v, rnd);
      ci.StillOk(imem);
      cu.StillOk(imem);
    }

    method WriteViaI(a: word, v: byte, rnd: nat)
      requires Valid()
      modifies ci`stats, ci`clock, ci.line, ci.store, imem
      ensures Valid() && Abs() == WriteI(Cfgs(), old(Abs()), a, v, rnd)
    {
      ci.WriteByte(imem, a, v, rnd);
      cd.StillOk(dmem);
      cu.StillOk(imem);
    }

    method WriteViaU(a: word, v: byte, rnd: nat)
      requires Valid()
      modifies cu`stats, cu`clock, cu.line, cu.store, imem
      ensures Valid() && Abs() == WriteU(Cfgs(), old(Abs()), a, v, rnd)
    {
      cu.WriteByte(imem, a, v, rnd);
      cd.StillOk(dmem);
      ci.StillOk(imem);
    }

    /** A store past every cache. */
    method PokeMem(side: Side, a: word, v: byte)
      requires Valid()
      modifies memI, memD
      ensures Valid() && Abs() == Poke(old(Abs()), side, a, v)
    {
      if side == CodeSide {
        imem[a] := v;
      } else {
        dmem[a] := v;
      }
      ci.StillOk(imem);
      cd.StillOk(dmem);
      cu.StillOk(imem);
    }

    /** Push the store out of the data cache, then drop the stale line. */
    method SnoopStore(a: word)
      requires Valid()
      modifies cd`stats, cd.line, ci`stats, ci.line, imem, dmem
      ensures Valid() && Abs() == SnoopAfter(Cfgs(), old(Abs()), a)
    {
      CleanD(a);
      SnoopI(a);
    }

    method CleanD(a: word)
      requires Valid()
      modifies cd`stats, cd.line, dmem
      ensures Valid() && Abs() == PutD(old(Abs()), CleanAddr(cd.cfg, DView(old(Abs())), a))
    {
      var _ := cd.CleanOne(dmem, a);
      ci.StillOk(imem);
      cu.StillOk(imem);
    }

    method SnoopI(a: word)
      requires Valid()
      modifies ci`stats, ci.line, imem
      ensures Valid() && Abs() == PutI(old(Abs()), Snoop(ci.cfg, IView(old(Abs())), a))
    {
      var _ := ci.SnoopOne(imem, a);
      cd.StillOk(dmem);
      cu.StillOk(imem);
    }

    method CountStale()
      requires Valid()
      modifies this`census
      ensures Valid() && Abs() == Stale(Cfgs(), old(Abs()))
    {
      census := census.(stale := census.stale + 1);
    }

    /** Is the store one the instruction cache should hear about? */
    method Coherent(side: Side, a: word) returns (c: bool)
      requires Valid()
      ensures c == Coherence(Cfgs(), Abs(), side, a)
    {
      var held, _ := ci.Probe(imem, a);
      c := mode == Modified && side == DataSide && cachesOn && held;
    }

    /** The decision, and the count of stores gone stale without snooping. */
    method Decide(side: Side, a: word) returns (push: bool)
      requires Valid()
      modifies this`census
      ensures Valid()
      ensures var y := old(Abs());
              && push == (Coherence(Cfgs(), y, side, a) && y.snoop)
              && Abs() == if Coherence(Cfgs(), y, side, a) && !y.snoop then Stale(Cfgs(), y) else y
    {
      hide SetOf, TagOf, OffOf, BaseOf, SetOk, FindWay, Shaped, SpotAt, DistinctTags, Placed, Held, Stale, Coherence;
      var coherence := Coherent(side, a);
      if coherence && !snoop {
        CountStale();
      }
      push := coherence && snoop;
    }

    /** The store past the caches or through them. */
    method Place(side: Side, a: word, v: byte, rnd: nat, push: bool)
      requires Valid()
      modifies ci`stats, ci`clock, ci.line, ci.store, cd`stats, cd`clock, cd.line, cd.store,
               cu`stats, cu`clock, cu.line, cu.store, memI, memD
      ensures Valid()
      ensures var y := old(Abs());
              Abs() == if !y.cachesOn then Poke(y, side, a, v)
                       else if push then SnoopAfter(Cfgs(), WriteServed(Cfgs(), y, side, a, v, rnd), a)
                       else WriteServed(Cfgs(), y, side, a, v, rnd)
    {
      hide SetOf, TagOf, OffOf, BaseOf, SetOk, FindWay, Shaped, SpotAt, DistinctTags, Placed, Held, WriteServed, SnoopAfter, Poke;
      if !cachesOn {
        PokeMem(side, a, v);
      } else {
        WriteAndPush(side, a, v, rnd, push);
      }
    }

    /** The store itself: coherence is decided before it and acted on after it. */
    method StoreByte(side: Side, a: word, v: byte, rnd: nat)
      requires Valid()
      modifies this`census, ci`stats, ci`clock, ci.line, ci.store, cd`stats, cd`clock, cd.line, cd.store,
               cu`stats, cu`clock, cu.line, cu.store, memI, memD
      ensures Valid() && Abs() == StoreVia(Cfgs(), old(Abs()), side, a, v, rnd)
    {
      hide SetOf, TagOf, OffOf, BaseOf, SetOk, FindWay, Shaped, SpotAt, DistinctTags, Placed, Held, WriteServed, SnoopAfter, Poke, Coherence;
      var push := Decide(side, a);
      Place(side, a, v, rnd, push);
    }

    method WriteAndPush(side: Side, a: word, v: byte, rnd: nat, push: bool)
      requires Valid()
      modifies ci`stats, ci`clock, ci.line, ci.store, cd`stats, cd`clock, cd.line, cd.store,
               cu`stats, cu`clock, cu.line, cu.store, memI, memD
      ensures Valid()
      ensures var y := WriteServed(Cfgs(), old(Abs()), side, a, v, rnd);
              Abs() == if push then SnoopAfter(Cfgs(), y, a) else y
    {
      hide SetOf, TagOf, OffOf, BaseOf, SetOk, FindWay, Shaped;
      WriteVia(side, a, v, rnd);
      if push {
        SnoopStore(a);
      }
    }

    method WriteVia(side: Side, a: word, v: byte, rnd: nat)
      requires Valid()
      modifies ci`stats, ci`clock, ci.line, ci.store, cd`stats, cd`clock, cd.line, cd.store,
               cu`stats, cu`clock, cu.line, cu.store, memI, memD
      ensures Valid() && Abs() == WriteServed(Cfgs(), old(Abs()), side, a, v, rnd)
    {
      if mode == VonNeumann {
        WriteViaU(a, v, rnd);
      } else if side == CodeSide {
        WriteViaI(a, v, rnd);
      } else {
        WriteViaD(a, v, rnd);
      }
    }

    method SweepViaI(s: Sweep)
      requires Valid()
      modifies ci`stats, ci.line, imem
      ensures Valid() && Abs() == SweepI(Cfgs(), old(Abs()), s)
    {
      ci.SweepEvery(imem, s);
      cd.StillOk(dmem);
      cu.StillOk(imem);
    }

    method SweepViaD(s: Sweep)
      requires Valid()
      modifies cd`stats, cd.line, dmem
      ensures Valid() && Abs() == SweepD(Cfgs(), old(Abs()), s)
    {
      cd.SweepEvery(dmem, s);
      ci.StillOk(imem);
      cu.StillOk(imem);
    }

    method SweepViaU(s: Sweep)
      requires Valid()
      modifies cu`stats, cu.line, imem
      ensures Valid() && Abs() == SweepU(Cfgs(), old(Abs()), s)
    {
      cu.SweepEvery(imem, s);
      cd.StillOk(dmem);
      ci.StillOk(imem);
    }

    /** `ms_clean`. */
    method CleanData()
      requires Valid()
      modifies cd`stats, cd.line, cu`stats, cu.line, memI, memD
      ensures Valid() && Abs() == MsClean(Cfgs(), old(Abs()))
    {
      if mode == VonNeumann {
        SweepViaU(Cleaning);
      } else {
        SweepViaD(Cleaning);
      }
    }

    /** `ms_flush`. */
    method Flush(code: bool, data: bool)
      requires Valid()
      modifies ci`stats, ci.line, cd`stats, cd.line, cu`stats, cu.line, memI, memD
      ensures Valid() && Abs() == MsFlush(Cfgs(), old(Abs()), code, data)
    {
      if mode == VonNeumann {
        if code || data {
          SweepViaU(Flushing);
        }
      } else {
        if code {
          SweepViaI(Flushing);
        }
        if data {
          SweepViaD(Flushing);
        }
      }
    }

    /** `ms_set_mode`: flush everything, then repoint the data space. */
    method SetMode(m: Mode)
      requires Valid()
      modifies this`mode, this`imem, this`dmem, ci`stats, ci.line, cd`stats, cd.line, cu`stats, cu.line, memI, memD
      ensures Valid() && Abs() == MsSetMode(Cfgs(), old(Abs()), m)
    {
      hide SetOf, TagOf, OffOf, BaseOf, SetOk, FindWay, Shaped, SpotAt, DistinctTags, Placed, SweepAll, SweepSets;
      SweepViaI(Flushing);
      SweepViaD(Flushing);
      SweepViaU(Flushing);
      Repoint(m);
    }

    method Repoint(m: Mode)
      requires Valid()
      modifies this`mode, this`imem, this`dmem
      ensures Valid() && Abs() == old(Abs()).(mode := m)
    {
      ghost var y := Abs();
      mode := m;
      imem := memI;
      dmem := if m == Harvard then memD else memI;
      ShapedAnywhere(cd.cfg, y.d, DMem(y), dmem[..]);
    }

    /** `ms_reset_stats`. */
    method ResetStats()
      requires Valid()
      modifies this`census, ci`stats, cd`stats, cu`stats
      ensures Valid() && Abs() == MsResetStats(Cfgs(), old(Abs()))
    {
      ci.ZeroStats(imem);
      cd.ZeroStats(dmem);
      cu.ZeroStats(imem);
      census := NO_COUNTS;
    }

    /** `h_io_write`, as far as the memory system is concerned. */
    method WriteDevice(side: Side, a: word, v: byte)
      requires Valid()
      modifies this`census, ci`stats, ci.line, cd`stats, cd.line, cu`stats, cu.line, memI, memD
      ensures Valid() && Abs() == IoWrite(Cfgs(), old(Abs()), side, a, v)
    {
      if a == 0xF001 || a == 0xF0FF {
      } else if a == 0xF0FC {
        CleanData();
      } else if a == 0xF0FD {
        Flush(true, false);
      } else if a == 0xF0FE {
        ResetStats();
      } else {
        PokeMem(side, a, v);
      }
    }

    /** `ms_write`. */
    method WriteBus(k: Kind, a: word, v: byte, rnd: nat)
      requires Valid()
      modifies this`census, ci`stats, ci`clock, ci.line, ci.store, cd`stats, cd`clock, cd.line, cd.store,
               cu`stats, cu`clock, cu.line, cu.store, memI, memD
      ensures Valid() && Abs() == MsWrite(Cfgs(), old(Abs()), k, a, v, rnd)
    {
      Bump(k);
      if IsIo(a) {
        CountUncached();
        WriteDevice(SideOf(k), a, v);
      } else {
        StoreByte(SideOf(k), a, v, rnd);
      }
    }
  }
}
