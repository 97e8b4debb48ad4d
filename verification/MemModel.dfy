/** The memory system: two memories, three caches and three machine models, as functions on values. */
module MemModel {
  import opened Bits
  import opened Geometry
  import opened CacheModel
  import opened CacheTheory

  datatype Mode = VonNeumann | Harvard | Modified

  /** Why the CPU makes an access (`M6502_ACC_*`). */
  datatype Kind = Opcode | Operand | Data | Pointer | Stack | Vector

  datatype Side = CodeSide | DataSide

  /** A cache without the memory behind it. */
  datatype Bare = Bare(sets: seq<seq<Slot>>, clock: nat, stats: Stats)

  datatype Configs = Configs(i: Config, d: Config, u: Config)

  /** Bus counters, by kind and by side. */
  datatype Census = Census(kinds: seq<nat>, code: nat, data: nat, uncached: nat, stale: nat)

  datatype System = System(mode: Mode, cachesOn: bool, snoop: bool,
                           i: Bare, d: Bare, u: Bare,
                           memI: seq<byte>, memD: seq<byte>,
                           census: Census)

  const IO_LO: nat := 0xF000
  const IO_HI: nat := 0xF0FF

  const NO_COUNTS := Census([0, 0, 0, 0, 0, 0], 0, 0, 0, 0)

  /** The number the CPU core gives each kind. */
  function Index(k: Kind): nat {
    match k
    case Opcode => 0 case Operand => 1 case Data => 2 case Pointer => 3 case Stack => 4 case Vector => 5
  }

  predicate IsIo(a: nat) {
    IO_LO <= a <= IO_HI
  }

  /** `side_of`: the instruction stream and the vectors are code, everything else is data. */
  function SideOf(k: Kind): Side {
    if k == Opcode || k == Operand || k == Vector then CodeSide else DataSide
  }

  function On(b: Bare, mem: seq<byte>): Cached {
    Cached(b.sets, b.clock, b.stats, mem)
  }

  function Off(c: Cached): Bare {
    Bare(c.sets, c.clock, c.stats)
  }

  /** `dmem` aliases `imem` unless the machine is a true Harvard. */
  function DMem(y: System): seq<byte> {
    if y.mode == Harvard then y.memD else y.memI
  }

  function SpaceFor(y: System, side: Side): seq<byte> {
    if side == CodeSide then y.memI else DMem(y)
  }

  function IView(y: System): Cached { On(y.i, y.memI) }
  function DView(y: System): Cached { On(y.d, DMem(y)) }
  function UView(y: System): Cached { On(y.u, y.memI) }

  function PutI(y: System, c: Cached): System {
    y.(i := Off(c), memI := c.mem)
  }

  function PutD(y: System, c: Cached): System {
    if y.mode == Harvard then y.(d := Off(c), memD := c.mem) else y.(d := Off(c), memI := c.mem)
  }

  function PutU(y: System, c: Cached): System {
    y.(u := Off(c), memI := c.mem)
  }

  function Poke(y: System, side: Side, a: nat, v: byte): System
    requires a < |y.memI| && a < |y.memD|
  {
    if side == DataSide && y.mode == Harvard then y.(memD := y.memD[a := v]) else y.(memI := y.memI[a := v])
  }

  ghost predicate SysShaped(cs: Configs, y: System) {
    && |y.memD| == SPACE
    && Shaped(cs.i, IView(y)) && Shaped(cs.d, DView(y)) && Shaped(cs.u, UView(y))
    && |y.census.kinds| == 6
  }

  lemma ShapedAnywhere(cfg: Config, b: Bare, mem: seq<byte>, mem': seq<byte>)
    requires Shaped(cfg, On(b, mem)) && |mem'| == SPACE
    ensures Shaped(cfg, On(b, mem'))
  {
  }

  function Count(c: Census, k: Kind): Census
    requires |c.kinds| == 6
  {
    var c1 := c.(kinds := c.kinds[Index(k) := c.kinds[Index(k)] + 1]);
    if SideOf(k) == CodeSide then c1.(code := c1.code + 1) else c1.(data := c1.data + 1)
  }

  function Counting(cs: Configs, y: System, k: Kind): (r: System)
    requires SysShaped(cs, y)
    ensures SysShaped(cs, r)
  {
    var r := y.(census := Count(y.census, k));
    assert IView(r) == IView(y) && DView(r) == DView(y) && UView(r) == UView(y);
    r
  }

  function ReadU(cs: Configs, y: System, a: nat, rnd: nat): (r: (System, byte))
    requires SysShaped(cs, y) && a < SPACE
    ensures SysShaped(cs, r.0)
  {
    var (c, v) := Read(cs.u, UView(y), a, rnd);
    (PutU(y, c), v)
  }

  function ReadI(cs: Configs, y: System, a: nat, rnd: nat): (r: (System, byte))
    requires SysShaped(cs, y) && a < SPACE
    ensures SysShaped(cs, r.0)
  {
    var (c, v) := Read(cs.i, IView(y), a, rnd);
    (PutI(y, c), v)
  }

  function ReadD(cs: Configs, y: System, a: nat, rnd: nat): (r: (System, byte))
    requires SysShaped(cs, y) && a < SPACE
    ensures SysShaped(cs, r.0)
  {
    var (c, v) := Read(cs.d, DView(y), a, rnd);
    (PutD(y, c), v)
  }

  /** Device registers that answer by themselves; the rest of the page is plain memory. */
  predicate DeviceReads(a: nat) {
    a == 0xF002 || a == 0xF003 || a == 0xF004
  }

  /** `ms_read`; `dev` is what a device register answers. */
  function MsRead(cs: Configs, y: System, k: Kind, a: nat, rnd: nat, dev: byte): (r: (System, byte))
    requires SysShaped(cs, y) && a < SPACE
    ensures SysShaped(cs, r.0)
  {
    var y1 := Counting(cs, y, k);
    var side := SideOf(k);
    if IsIo(a) then
      (Uncached(cs, y1), if DeviceReads(a) then dev else SpaceFor(y1, side)[a])
    else if !y1.cachesOn then (y1, SpaceFor(y1, side)[a])
    else ReadServed(cs, y1, side, a, rnd)
  }

  /** The cache serving a side in the current mode answers. */
  function ReadServed(cs: Configs, y: System, side: Side, a: nat, rnd: nat): (r: (System, byte))
    requires SysShaped(cs, y) && a < SPACE
    ensures SysShaped(cs, r.0)
  {
    if y.mode == VonNeumann then ReadU(cs, y, a, rnd)
    else if side == CodeSide then ReadI(cs, y, a, rnd)
    else ReadD(cs, y, a, rnd)
  }

  function Uncached(cs: Configs, y: System): (r: System)
    requires SysShaped(cs, y)
    ensures SysShaped(cs, r)
  {
    var r := y.(census := y.census.(uncached := y.census.uncached + 1));
    assert IView(r) == IView(y) && DView(r) == DView(y) && UView(r) == UView(y);
    r
  }

  function WriteU(cs: Configs, y: System, a: nat, v: byte, rnd: nat): (r: System)
    requires SysShaped(cs, y) && a < SPACE
    ensures SysShaped(cs, r)
  {
    PutU(y, Write(cs.u, UView(y), a, v, rnd))
  }

  function WriteI(cs: Configs, y: System, a: nat, v: byte, rnd: nat): (r: System)
    requires SysShaped(cs, y) && a < SPACE
    ensures SysShaped(cs, r)
  {
    PutI(y, Write(cs.i, IView(y), a, v, rnd))
  }

  function WriteD(cs: Configs, y: System, a: nat, v: byte, rnd: nat): (r: System)
    requires SysShaped(cs, y) && a < SPACE
    ensures SysShaped(cs, r)
  {
    PutD(y, Write(cs.d, DView(y), a, v, rnd))
  }

  /** A store of the modified machine to a line the instruction cache holds. */
  predicate Coherence(cs: Configs, y: System, side: Side, a: nat)
    requires SysShaped(cs, y) && a < SPACE
  {
    y.mode == Modified && side == DataSide && y.cachesOn && Held(cs.i, IView(y), a)
  }

  /** What snooping hardware does after the store: push it out, then drop the stale line. */
  function SnoopAfter(cs: Configs, y: System, a: nat): (r: System)
    requires SysShaped(cs, y) && a < SPACE
    ensures SysShaped(cs, r)
  {
    var y1 := PutD(y, CleanAddr(cs.d, DView(y), a));
    PutI(y1, Snoop(cs.i, IView(y1), a))
  }

  /** `ms_write`. */
  function MsWrite(cs: Configs, y: System, k: Kind, a: nat, v: byte, rnd: nat): (r: System)
    requires SysShaped(cs, y) && a < SPACE
    ensures SysShaped(cs, r)
  {
    var y1 := Counting(cs, y, k);
    if IsIo(a) then IoWrite(cs, Uncached(cs, y1), SideOf(k), a, v)
    else StoreVia(cs, y1, SideOf(k), a, v, rnd)
  }

  /** The store itself.  Coherence is decided before it and acted on after it. */
  function StoreVia(cs: Configs, y: System, side: Side, a: nat, v: byte, rnd: nat): (r: System)
    requires SysShaped(cs, y) && a < SPACE
    ensures SysShaped(cs, r)
  {
    var coherence := Coherence(cs, y, side, a);
    var y1 := if coherence && !y.snoop then Stale(cs, y) else y;
    if !y1.cachesOn then Poke(y1, side, a, v)
    else
      var y2 := WriteServed(cs, y1, side, a, v, rnd);
      if coherence && y1.snoop then SnoopAfter(cs, y2, a) else y2
  }

  /** The cache serving a side in the current mode takes the store. */
  function WriteServed(cs: Configs, y: System, side: Side, a: nat, v: byte, rnd: nat): (r: System)
    requires SysShaped(cs, y) && a < SPACE
    ensures SysShaped(cs, r)
  {
    if y.mode == VonNeumann then WriteU(cs, y, a, v, rnd)
    else if side == CodeSide then WriteI(cs, y, a, v, rnd)
    else WriteD(cs, y, a, v, rnd)
  }

  function Stale(cs: Configs, y: System): (r: System)
    requires SysShaped(cs, y)
    ensures SysShaped(cs, r)
  {
    var r := y.(census := y.census.(stale := y.census.stale + 1));
    assert IView(r) == IView(y) && DView(r) == DView(y) && UView(r) == UView(y);
    r
  }

  /** `h_io_write`: console, clean, invalidate, zero statistics, halt; the rest of the page is plain memory. */
  function IoWrite(cs: Configs, y: System, side: Side, a: nat, v: byte): (r: System)
    requires SysShaped(cs, y) && a < SPACE
    ensures SysShaped(cs, r)
  {
    if a == 0xF001 || a == 0xF0FF then y
    else if a == 0xF0FC then MsClean(cs, y)
    else if a == 0xF0FD then MsFlush(cs, y, true, false)
    else if a == 0xF0FE then MsResetStats(cs, y)
    else Poke(y, side, a, v)
  }

  function SweepI(cs: Configs, y: System, s: Sweep): (r: System)
    requires SysShaped(cs, y)
    ensures SysShaped(cs, r)
  {
    PutI(y, SweepAll(cs.i, IView(y), s))
  }

  function SweepD(cs: Configs, y: System, s: Sweep): (r: System)
    requires SysShaped(cs, y)
    ensures SysShaped(cs, r)
  {
    PutD(y, SweepAll(cs.d, DView(y), s))
  }

  function SweepU(cs: Configs, y: System, s: Sweep): (r: System)
    requires SysShaped(cs, y)
    ensures SysShaped(cs, r)
  {
    PutU(y, SweepAll(cs.u, UView(y), s))
  }

  /** `ms_clean`. */
  function MsClean(cs: Configs, y: System): (r: System)
    requires SysShaped(cs, y)
    ensures SysShaped(cs, r)
  {
    if y.mode == VonNeumann then SweepU(cs, y, Cleaning) else SweepD(cs, y, Cleaning)
  }

  /** `ms_flush`. */
  function MsFlush(cs: Configs, y: System, code: bool, data: bool): (r: System)
    requires SysShaped(cs, y)
    ensures SysShaped(cs, r)
  {
    if y.mode == VonNeumann then
      if code || data then SweepU(cs, y, Flushing) else y
    else
      var y1 := if code then SweepI(cs, y, Flushing) else y;
      if data then SweepD(cs, y1, Flushing) else y1
  }

  /** `ms_set_mode`: flush all three caches, then repoint the data space. */
  function MsSetMode(cs: Configs, y: System, m: Mode): (r: System)
    requires SysShaped(cs, y)
    ensures SysShaped(cs, r)
  {
    var y3 := SweepU(cs, SweepD(cs, SweepI(cs, y, Flushing), Flushing), Flushing);
    var r := y3.(mode := m);
    ShapedAnywhere(cs.d, r.d, DMem(y3), DMem(r));
    assert IView(r) == IView(y3) && UView(r) == UView(y3);
    r
  }

  /** `ms_reset_stats`. */
  function MsResetStats(cs: Configs, y: System): (r: System)
    requires SysShaped(cs, y)
    ensures SysShaped(cs, r)
  {
    y.(i := y.i.(stats := NO_STATS), d := y.d.(stats := NO_STATS), u := y.u.(stats := NO_STATS),
       census := NO_COUNTS)
  }

  /** The monitor's `cache off`: flush, then bypass. */
  function CachesOff(cs: Configs, y: System): (r: System)
    requires SysShaped(cs, y)
    ensures SysShaped(cs, r)
  {
    var y1 := MsFlush(cs, y, true, true);
    var r := y1.(cachesOn := false);
    assert IView(r) == IView(y1) && DView(r) == DView(y1) && UView(r) == UView(y1);
    r
  }
}
