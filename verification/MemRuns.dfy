/** Runs of the memory system under CPU and monitor events, against plain arrays of bytes. */
module MemRuns {
  import opened Bits
  import opened Geometry
  import opened CacheModel
  import opened CacheTheory
  import opened MemModel
  import opened MemTheory

  /** The CPU core's two ways to write: `wr` for an operand and `push8` for the stack.  Nothing else calls `wrk`. */
  datatype Writer = Wr | Push8

  /** The tag each of them hands to `wrk`. */
  function KindOf(w: Writer): Kind {
    match w
    case Wr => Data
    case Push8 => Stack
  }

  /** What can happen to the memory system. */
  datatype Event =
    | CpuRead(k: Kind, a: nat, rnd: nat, dev: byte)
    | CpuWrite(w: Writer, a: nat, v: byte, rnd: nat)
    | Clean
    | Flush(code: bool, data: bool)
    | SetMode(m: Mode)
    | CacheOff
    | CacheOn
    | SetSnoop(b: bool)
    | ZeroStats

  predicate EventOk(e: Event) {
    e.CpuRead? || e.CpuWrite? ==> e.a < SPACE
  }

  function Step(cs: Configs, y: System, e: Event): (r: System)
    requires SysShaped(cs, y) && EventOk(e)
    ensures SysShaped(cs, r)
  {
    match e
    case CpuRead(k, a, rnd, dev) => MsRead(cs, y, k, a, rnd, dev).0
    case CpuWrite(w, a, v, rnd) => MsWrite(cs, y, KindOf(w), a, v, rnd)
    case Clean => MsClean(cs, y)
    case Flush(code, data) => MsFlush(cs, y, code, data)
    case SetMode(m) => MsSetMode(cs, y, m)
    case CacheOff => CachesOff(cs, y)
    case CacheOn => y.(cachesOn := true)
    case SetSnoop(b) => y.(snoop := b)
    case ZeroStats => MsResetStats(cs, y)
  }

  /** A step as one address sees it: the invariant is kept, and the stored bytes change only as told. */
  ghost predicate Keeps(p: Point, q: Point, io: bool) {
    && PointOk(q, io)
    && CodeByte(q) == CodeByte(p) && DataByte(q) == DataByte(p)
    && q.mode == p.mode
    && (!p.d.dirty ==> !q.d.dirty)
  }

  /** Lines never straddle the edge of the device page. */
  lemma LineAvoidsIo(cfg: Config, a: nat, b: nat)
    requires Valid(cfg) && a < SPACE && b < SPACE && BaseOf(cfg, a) == BaseOf(cfg, b)
    ensures IsIo(a) == IsIo(b)
  {
    LineBounds(cfg, a);
    LineBounds(cfg, b);
  }

  lemma ReadUKeeps(cs: Configs, y: System, b: nat, rnd: nat, a: nat)
    requires SysShaped(cs, y) && b < SPACE && a < SPACE && PointOk(At(cs, y, a), IsIo(a))
    requires y.mode == VonNeumann && y.cachesOn && !IsIo(b)
    ensures Keeps(At(cs, y, a), At(cs, ReadU(cs, y, b, rnd).0, a), IsIo(a))
    ensures ReadU(cs, y, b, rnd).1 == Look(cs.u, UView(y), b)
  {
    var c := Read(cs.u, UView(y), b, rnd).0;
    ReadSpot(cs.u, UView(y), b, rnd, a);
    PutUPoint(cs, y, c, a);
    PointShape(cs, y, a);
    if BaseOf(cs.u, a) == BaseOf(cs.u, b) { LineAvoidsIo(cs.u, a, b); }
  }

  lemma ReadIKeeps(cs: Configs, y: System, b: nat, rnd: nat, a: nat)
    requires SysShaped(cs, y) && b < SPACE && a < SPACE && PointOk(At(cs, y, a), IsIo(a))
    requires y.mode != VonNeumann && y.cachesOn && !IsIo(b)
    ensures Keeps(At(cs, y, a), At(cs, ReadI(cs, y, b, rnd).0, a), IsIo(a))
    ensures ReadI(cs, y, b, rnd).1 == Look(cs.i, IView(y), b)
  {
    var c := Read(cs.i, IView(y), b, rnd).0;
    ReadSpot(cs.i, IView(y), b, rnd, a);
    PutIPoint(cs, y, c, a);
    PointShape(cs, y, a);
    if BaseOf(cs.i, a) == BaseOf(cs.i, b) { LineAvoidsIo(cs.i, a, b); }
  }

  lemma ReadDKeeps(cs: Configs, y: System, b: nat, rnd: nat, a: nat)
    requires SysShaped(cs, y) && b < SPACE && a < SPACE && PointOk(At(cs, y, a), IsIo(a))
    requires y.mode != VonNeumann && y.cachesOn && !IsIo(b)
    ensures Keeps(At(cs, y, a), At(cs, ReadD(cs, y, b, rnd).0, a), IsIo(a))
    ensures ReadD(cs, y, b, rnd).1 == Look(cs.d, DView(y), b)
  {
    var c := Read(cs.d, DView(y), b, rnd).0;
    ReadSpot(cs.d, DView(y), b, rnd, a);
    PutDPoint(cs, y, c, a);
    PointShape(cs, y, a);
    if BaseOf(cs.d, a) == BaseOf(cs.d, b) { LineAvoidsIo(cs.d, a, b); }
  }

  /** A store of `v` at `b` on the data side, as address `a` sees it. */
  ghost predicate Stores(cs: Configs, p: Point, q: Point, b: nat, v: byte, a: nat) {
    && PointOk(q, IsIo(a))
    && (cs.d.wpol == Through && !p.d.dirty ==> !q.d.dirty)
    && CodeByte(q) == (if a == b && p.mode != Harvard then v else CodeByte(p))
    && DataByte(q) == (if a == b && p.mode == Harvard then v else DataByte(p))
    && q.mode == p.mode
  }

  lemma WriteUStores(cs: Configs, y: System, b: nat, v: byte, rnd: nat, a: nat)
    requires SysShaped(cs, y) && b < SPACE && a < SPACE && PointOk(At(cs, y, a), IsIo(a))
    requires y.mode == VonNeumann && y.cachesOn && !IsIo(b)
    ensures Stores(cs, At(cs, y, a), At(cs, WriteU(cs, y, b, v, rnd), a), b, v, a)
  {
    var c := Write(cs.u, UView(y), b, v, rnd);
    WriteSpot(cs.u, UView(y), b, v, rnd, a);
    PutUPoint(cs, y, c, a);
    PointShape(cs, y, a);
    if BaseOf(cs.u, a) == BaseOf(cs.u, b) { LineAvoidsIo(cs.u, a, b); }
  }

  lemma WriteDStores(cs: Configs, y: System, b: nat, v: byte, rnd: nat, a: nat)
    requires SysShaped(cs, y) && b < SPACE && a < SPACE && PointOk(At(cs, y, a), IsIo(a))
    requires y.mode != VonNeumann && y.cachesOn && !IsIo(b)
    ensures Stores(cs, At(cs, y, a), At(cs, WriteD(cs, y, b, v, rnd), a), b, v, a)
  {
    var c := Write(cs.d, DView(y), b, v, rnd);
    WriteSpot(cs.d, DView(y), b, v, rnd, a);
    PutDPoint(cs, y, c, a);
    PointShape(cs, y, a);
    if BaseOf(cs.d, a) == BaseOf(cs.d, b) { LineAvoidsIo(cs.d, a, b); }
  }

  lemma PokeStores(cs: Configs, y: System, b: nat, v: byte, a: nat)
    requires SysShaped(cs, y) && b < SPACE && a < SPACE && PointOk(At(cs, y, a), IsIo(a))
    requires !y.cachesOn || IsIo(b)
    ensures Stores(cs, At(cs, y, a), At(cs, Poke(y, DataSide, b, v), a), b, v, a)
  {
    PokePoint(cs, y, DataSide, b, v, a);
    PointShape(cs, y, a);
  }

  /** Snooping after the store, as address `a` sees it. */
  lemma SnoopAfterPoint(cs: Configs, y: System, b: nat, a: nat)
    requires SysShaped(cs, y) && b < SPACE && a < SPACE && PointOk(At(cs, y, a), IsIo(a))
    requires y.mode == Modified
    ensures Keeps(At(cs, y, a), At(cs, SnoopAfter(cs, y, b), a), IsIo(a))
    ensures var p, q := At(cs, y, a), At(cs, SnoopAfter(cs, y, b), a);
            && q.d == (if BaseOf(cs.d, a) == BaseOf(cs.d, b) then Swept(Cleaning, p.d) else p.d)
            && q.memI == q.d.mem
            && (BaseOf(cs.i, a) == BaseOf(cs.i, b) ==> !q.i.held && q.i.seen == q.memI)
            && (BaseOf(cs.i, a) != BaseOf(cs.i, b) ==> q.i == Rebase(p.i, q.memI))
  {
    var c := CleanAddr(cs.d, DView(y), b);
    CleanAddrSpot(cs.d, DView(y), b, a);
    PutDPoint(cs, y, c, a);
    var y1 := PutD(y, c);
    SnoopSpot(cs.i, IView(y1), b, a);
    PutIPoint(cs, y1, Snoop(cs.i, IView(y1), b), a);
    PointShape(cs, y, a);
    PointShape(cs, y1, a);
  }

  lemma SweepIKeeps(cs: Configs, y: System, a: nat)
    requires SysShaped(cs, y) && a < SPACE && PointOk(At(cs, y, a), IsIo(a))
    ensures Keeps(At(cs, y, a), At(cs, SweepI(cs, y, Flushing), a), IsIo(a))
    ensures var p, q := At(cs, y, a), At(cs, SweepI(cs, y, Flushing), a);
            q == p.(i := Spot(false, false, p.memI, p.memI))
  {
    SweepAllSpot(cs.i, IView(y), Flushing, a);
    PutIPoint(cs, y, SweepAll(cs.i, IView(y), Flushing), a);
    PointShape(cs, y, a);
  }

  lemma SweepDKeeps(cs: Configs, y: System, s: Sweep, a: nat)
    requires SysShaped(cs, y) && a < SPACE && PointOk(At(cs, y, a), IsIo(a)) && !s.Invalidating?
    ensures Keeps(At(cs, y, a), At(cs, SweepD(cs, y, s), a), IsIo(a))
    ensures var p, q := At(cs, y, a), At(cs, SweepD(cs, y, s), a);
            && q.d == Swept(s, p.d) && q.d.mem == p.d.seen && !q.d.dirty
            && q.i.held == p.i.held && (p.i.held ==> q.i.seen == p.i.seen) && (!p.i.held ==> q.i.seen == q.memI)
            && q.u.held == p.u.held
  {
    SweepAllSpot(cs.d, DView(y), s, a);
    PutDPoint(cs, y, SweepAll(cs.d, DView(y), s), a);
    PointShape(cs, y, a);
  }

  lemma SweepUKeeps(cs: Configs, y: System, s: Sweep, a: nat)
    requires SysShaped(cs, y) && a < SPACE && PointOk(At(cs, y, a), IsIo(a)) && !s.Invalidating?
    ensures Keeps(At(cs, y, a), At(cs, SweepU(cs, y, s), a), IsIo(a))
    ensures var p, q := At(cs, y, a), At(cs, SweepU(cs, y, s), a);
            q.u == Swept(s, p.u) && q.i.held == p.i.held && q.d.held == p.d.held
  {
    SweepAllSpot(cs.u, UView(y), s, a);
    PutUPoint(cs, y, SweepAll(cs.u, UView(y), s), a);
    PointShape(cs, y, a);
  }

  lemma CensusPoint(cs: Configs, y: System, r: System, a: nat)
    requires SysShaped(cs, y) && a < SPACE && r == y.(census := r.census, snoop := r.snoop) && |r.census.kinds| == 6
    ensures SysShaped(cs, r) && At(cs, r, a) == At(cs, y, a)
    ensures Coherence(cs, r, DataSide, a) == Coherence(cs, y, DataSide, a)
  {
    assert IView(r) == IView(y) && DView(r) == DView(y) && UView(r) == UView(y);
  }

  /** What a CPU read is due: device registers answer for themselves; otherwise the data side gets the last
      byte stored in its memory, and so does the code side wherever nothing can be stale. */
  function Due(y: System, code: seq<byte>, data: seq<byte>, k: Kind, a: nat, dev: byte): (r: byte)
    requires |code| == SPACE && |data| == SPACE && a < SPACE
  {
    if DeviceReads(a) then dev
    else if SideOf(k) == DataSide && y.mode == Harvard then data[a]
    else code[a]
  }

  /** May a read by `k` be answered from a stale line? */
  predicate MayBeStale(y: System, k: Kind, a: nat) {
    y.mode == Modified && SideOf(k) == CodeSide && y.cachesOn && !IsIo(a)
  }

  lemma MsReadKeeps(cs: Configs, y: System, k: Kind, b: nat, rnd: nat, dev: byte, a: nat)
    requires SysShaped(cs, y) && b < SPACE && a < SPACE && PointOk(At(cs, y, a), IsIo(a))
    ensures Keeps(At(cs, y, a), At(cs, MsRead(cs, y, k, b, rnd, dev).0, a), IsIo(a))
  {
    var y1 := Counting(cs, y, k);
    CensusPoint(cs, y, y1, a);
    if IsIo(b) {
      CensusPoint(cs, y1, Uncached(cs, y1), a);
    } else if !y.cachesOn {
    } else if y.mode == VonNeumann {
      ReadUKeeps(cs, y1, b, rnd, a);
    } else if SideOf(k) == CodeSide {
      ReadIKeeps(cs, y1, b, rnd, a);
    } else {
      ReadDKeeps(cs, y1, b, rnd, a);
    }
  }

  /** The byte a read returns: what was last stored, except for fetches of the split machine. */
  lemma MsReadValue(cs: Configs, y: System, k: Kind, b: nat, rnd: nat, dev: byte)
    requires SysShaped(cs, y) && b < SPACE && PointOk(At(cs, y, b), IsIo(b))
    ensures var p, v := At(cs, y, b), MsRead(cs, y, k, b, rnd, dev).1;
            if DeviceReads(b) then v == dev
            else if MayBeStale(y, k, b) then v == FetchByte(p)
            else v == if SideOf(k) == DataSide && y.mode == Harvard then DataByte(p) else CodeByte(p)
  {
    var y1 := Counting(cs, y, k);
    CensusPoint(cs, y, y1, b);
    PointShape(cs, y, b);
    if IsIo(b) || !y.cachesOn {
    } else if y.mode == VonNeumann {
      ReadUKeeps(cs, y1, b, rnd, b);
    } else if SideOf(k) == CodeSide {
      ReadIKeeps(cs, y1, b, rnd, b);
    } else {
      ReadDKeeps(cs, y1, b, rnd, b);
    }
  }

  /** Device writes that are not memory. */
  predicate DeviceWrites(a: nat) {
    a == 0xF001 || a == 0xF0FC || a == 0xF0FD || a == 0xF0FE || a == 0xF0FF
  }

  lemma MsCleanKeeps(cs: Configs, y: System, a: nat)
    requires SysShaped(cs, y) && a < SPACE && PointOk(At(cs, y, a), IsIo(a))
    ensures Keeps(At(cs, y, a), At(cs, MsClean(cs, y), a), IsIo(a))
  {
    if y.mode == VonNeumann { SweepUKeeps(cs, y, Cleaning, a); } else { SweepDKeeps(cs, y, Cleaning, a); }
  }

  lemma MsFlushKeeps(cs: Configs, y: System, code: bool, data: bool, a: nat)
    requires SysShaped(cs, y) && a < SPACE && PointOk(At(cs, y, a), IsIo(a))
    ensures Keeps(At(cs, y, a), At(cs, MsFlush(cs, y, code, data), a), IsIo(a))
    ensures var q := At(cs, MsFlush(cs, y, code, data), a);
            && (y.mode == VonNeumann && (code || data) ==> !q.u.held)
            && (y.mode != VonNeumann && code ==> !q.i.held)
            && (y.mode != VonNeumann && data ==> !q.d.held)
  {
    if y.mode == VonNeumann {
      if code || data { SweepUKeeps(cs, y, Flushing, a); }
    } else {
      var y1 := if code then SweepI(cs, y, Flushing) else y;
      if code { SweepIKeeps(cs, y, a); }
      if data { SweepDKeeps(cs, y1, Flushing, a); }
    }
  }

  lemma IoWriteStores(cs: Configs, y: System, b: nat, v: byte, a: nat)
    requires SysShaped(cs, y) && IsIo(b) && b < SPACE && a < SPACE && PointOk(At(cs, y, a), IsIo(a))
    ensures var p, q := At(cs, y, a), At(cs, IoWrite(cs, y, DataSide, b, v), a);
            if DeviceWrites(b) then Keeps(p, q, IsIo(a)) else Stores(cs, p, q, b, v, a)
  {
    hide SetOf, TagOf, OffOf, BaseOf, SetOk, FindWay, Valid, Shaped, SpotAt;
    if b == 0xF0FC {
      MsCleanKeeps(cs, y, a);
    } else if b == 0xF0FD {
      MsFlushKeeps(cs, y, true, false, a);
    } else if b == 0xF0FE {
      ResetPoint(cs, y, a);
    } else if !DeviceWrites(b) {
      PokeStores(cs, y, b, v, a);
    }
  }

  lemma ResetPoint(cs: Configs, y: System, a: nat)
    requires SysShaped(cs, y) && a < SPACE
    ensures At(cs, MsResetStats(cs, y), a) == At(cs, y, a)
  {
    var r := MsResetStats(cs, y);
    SameContents(cs.i, IView(y), IView(r), a);
    SameContents(cs.d, DView(y), DView(r), a);
    SameContents(cs.u, UView(y), UView(r), a);
  }

  lemma MsWriteStores(cs: Configs, y: System, k: Kind, b: nat, v: byte, rnd: nat, a: nat)
    requires SysShaped(cs, y) && b < SPACE && a < SPACE && PointOk(At(cs, y, a), IsIo(a)) && SideOf(k) == DataSide
    ensures var p, q := At(cs, y, a), At(cs, MsWrite(cs, y, k, b, v, rnd), a);
            if DeviceWrites(b) then Keeps(p, q, IsIo(a)) else Stores(cs, p, q, b, v, a)
  {
    hide SetOf, TagOf, OffOf, BaseOf, SetOk, FindWay, Valid, Shaped, SpotAt;
    var y1 := Counting(cs, y, k);
    CensusPoint(cs, y, y1, a);
    if IsIo(b) {
      CensusPoint(cs, y1, Uncached(cs, y1), a);
      IoWriteStores(cs, Uncached(cs, y1), b, v, a);
    } else {
      StoreViaStores(cs, y1, b, v, rnd, a);
    }
  }

  lemma StoreViaStores(cs: Configs, y: System, b: nat, v: byte, rnd: nat, a: nat)
    requires SysShaped(cs, y) && b < SPACE && a < SPACE && PointOk(At(cs, y, a), IsIo(a)) && !IsIo(b)
    ensures Stores(cs, At(cs, y, a), At(cs, StoreVia(cs, y, DataSide, b, v, rnd), a), b, v, a)
  {
    hide SetOf, TagOf, OffOf, BaseOf, SetOk, FindWay, Shaped, SpotAt;
    var coherence := Coherence(cs, y, DataSide, b);
    var y1 := if coherence && !y.snoop then Stale(cs, y) else y;
    CensusPoint(cs, y, y1, a);
    if !y1.cachesOn {
      PokeStores(cs, y1, b, v, a);
    } else if y1.mode == VonNeumann {
      WriteUStores(cs, y1, b, v, rnd, a);
    } else {
      WriteDStores(cs, y1, b, v, rnd, a);
      if coherence && y1.snoop {
        SnoopAfterPoint(cs, WriteD(cs, y1, b, v, rnd), b, a);
      }
    }
  }

  /** Changing the machine's shape empties every cache and keeps both memories' contents. */
  lemma SetModeKeeps(cs: Configs, y: System, m: Mode, a: nat)
    requires SysShaped(cs, y) && a < SPACE && PointOk(At(cs, y, a), IsIo(a))
    ensures var p, q := At(cs, y, a), At(cs, MsSetMode(cs, y, m), a);
            && PointOk(q, IsIo(a)) && q.mode == m
            && !q.i.held && !q.d.held && !q.u.held
            && CodeByte(q) == CodeByte(p) && DataByte(q) == DataByte(p)
            && !q.d.dirty
  {
    var y1 := SweepI(cs, y, Flushing);
    var y2 := SweepD(cs, y1, Flushing);
    var y3 := SweepU(cs, y2, Flushing);
    var r := MsSetMode(cs, y, m);
    SweepIKeeps(cs, y, a);
    SweepDKeeps(cs, y1, Flushing, a);
    SweepUKeeps(cs, y2, Flushing, a);
    PointShape(cs, y3, a);
    PointShape(cs, r, a);
    assert IView(r) == IView(y3) && UView(r) == UView(y3);
    RebaseSpot(cs.d, y3.d, DMem(y3), DMem(r), a);
  }

  /** The machine as a programmer thinks of it: a shape, an instruction (or shared) memory, a data memory. */
  datatype Flat = Flat(mode: Mode, code: seq<byte>, data: seq<byte>)

  ghost predicate Represents(cs: Configs, y: System, f: Flat) {
    && SysOk(cs, y)
    && f.mode == y.mode && |f.code| == SPACE && |f.data| == SPACE
    && forall a :: 0 <= a < SPACE ==> CodeByte(At(cs, y, a)) == f.code[a] && DataByte(At(cs, y, a)) == f.data[a]
  }

  function FlatStep(f: Flat, e: Event): (r: Flat)
    requires EventOk(e) && |f.code| == SPACE && |f.data| == SPACE
    ensures |r.code| == SPACE && |r.data| == SPACE
  {
    match e
    case CpuWrite(_, a, v, _) =>
      if DeviceWrites(a) then f
      else if f.mode == Harvard then f.(data := f.data[a := v])
      else f.(code := f.code[a := v])
    case SetMode(m) => f.(mode := m)
    case _ => f
  }

  /** The reply to a read, where the model promises one. */
  function Reply(cs: Configs, y: System, e: Event): seq<byte>
    requires SysShaped(cs, y) && EventOk(e)
  {
    if e.CpuRead? && !MayBeStale(y, e.k, e.a) then [MsRead(cs, y, e.k, e.a, e.rnd, e.dev).1] else []
  }

  function FlatReply(f: Flat, y: System, e: Event): seq<byte>
    requires EventOk(e) && |f.code| == SPACE && |f.data| == SPACE
  {
    if e.CpuRead? && !MayBeStale(y, e.k, e.a) then [Due(y, f.code, f.data, e.k, e.a, e.dev)] else []
  }

  lemma StepPoint(cs: Configs, y: System, f: Flat, e: Event, a: nat)
    requires Represents(cs, y, f) && EventOk(e) && a < SPACE
    ensures var q := At(cs, Step(cs, y, e), a);
            && PointOk(q, IsIo(a))
            && CodeByte(q) == FlatStep(f, e).code[a] && DataByte(q) == FlatStep(f, e).data[a]
            && q.mode == FlatStep(f, e).mode
            && (cs.d.wpol == Through && !At(cs, y, a).d.dirty ==> !q.d.dirty)
  {
    hide SetOf, TagOf, OffOf, BaseOf, SetOk, FindWay, Valid, Shaped, SpotAt, MsRead, MsWrite;
    match e
    case CpuRead(k, b, rnd, dev) => MsReadKeeps(cs, y, k, b, rnd, dev, a);
    case CpuWrite(w, b, v, rnd) => MsWriteStores(cs, y, KindOf(w), b, v, rnd, a);
    case Clean => MsCleanKeeps(cs, y, a);
    case Flush(code, data) => MsFlushKeeps(cs, y, code, data, a);
    case SetMode(m) => SetModeKeeps(cs, y, m, a);
    case CacheOff =>
      MsFlushKeeps(cs, y, true, true, a);
      SwitchPoint(cs, MsFlush(cs, y, true, true), false, a);
    case CacheOn => SwitchPoint(cs, y, true, a);
    case SetSnoop(b) => CensusPoint(cs, y, Step(cs, y, e), a);
    case ZeroStats => ResetPoint(cs, y, a);
  }

  lemma SwitchPoint(cs: Configs, y: System, on: bool, a: nat)
    requires SysShaped(cs, y) && a < SPACE
    ensures SysShaped(cs, y.(cachesOn := on))
    ensures At(cs, y.(cachesOn := on), a) == At(cs, y, a).(on := on)
  {
    var r := y.(cachesOn := on);
    assert IView(r) == IView(y) && DView(r) == DView(y) && UView(r) == UView(y);
  }

  lemma StepRefines(cs: Configs, y: System, f: Flat, e: Event)
    requires Represents(cs, y, f) && EventOk(e)
    ensures Represents(cs, Step(cs, y, e), FlatStep(f, e))
    ensures Reply(cs, y, e) == FlatReply(f, y, e)
  {
    hide SetOf, TagOf, OffOf, BaseOf, SetOk, FindWay, Shaped, SpotAt;
    forall a | 0 <= a < SPACE {
      StepPoint(cs, y, f, e, a);
    }
    assert At(cs, Step(cs, y, e), 0).mode == FlatStep(f, e).mode;
    if e.CpuRead? {
      MsReadValue(cs, y, e.k, e.a, e.rnd, e.dev);
      assert CodeByte(At(cs, y, e.a)) == f.code[e.a];
    }
  }

  predicate EventsOk(es: seq<Event>) {
    forall i :: 0 <= i < |es| ==> EventOk(es[i])
  }

  function Run(cs: Configs, y: System, es: seq<Event>): (r: System)
    requires SysShaped(cs, y) && EventsOk(es)
    ensures SysShaped(cs, r)
    decreases |es|
  {
    if es == [] then y else Run(cs, Step(cs, y, es[0]), es[1..])
  }

  function Replies(cs: Configs, y: System, es: seq<Event>): seq<byte>
    requires SysShaped(cs, y) && EventsOk(es)
    decreases |es|
  {
    if es == [] then [] else Reply(cs, y, es[0]) + Replies(cs, Step(cs, y, es[0]), es[1..])
  }

  function FlatRun(f: Flat, es: seq<Event>): (r: Flat)
    requires EventsOk(es) && |f.code| == SPACE && |f.data| == SPACE
    ensures |r.code| == SPACE && |r.data| == SPACE
    decreases |es|
  {
    if es == [] then f else FlatRun(FlatStep(f, es[0]), es[1..])
  }

  /** The replies plain memory would give along the same run. */
  function FlatReplies(cs: Configs, y: System, f: Flat, es: seq<Event>): seq<byte>
    requires SysShaped(cs, y) && EventsOk(es) && |f.code| == SPACE && |f.data| == SPACE
    decreases |es|
  {
    if es == [] then [] else FlatReply(f, y, es[0]) + FlatReplies(cs, Step(cs, y, es[0]), FlatStep(f, es[0]), es[1..])
  }

  /** Any run, any mode changes on the way: no store is lost, every load and every fetch that cannot be
      stale returns the last byte stored, and the invariant holds throughout. */
  lemma {:induction false} MachineRefinesMemory(cs: Configs, y: System, f: Flat, es: seq<Event>)
    requires Represents(cs, y, f) && EventsOk(es)
    ensures Represents(cs, Run(cs, y, es), FlatRun(f, es))
    ensures Replies(cs, y, es) == FlatReplies(cs, y, f, es)
    decreases |es|
  {
    if es != [] {
      StepRefines(cs, y, f, es[0]);
      MachineRefinesMemory(cs, Step(cs, y, es[0]), FlatStep(f, es[0]), es[1..]);
    }
  }

  /** A freshly initialised machine holds exactly its memories. */
  lemma ColdHolds(cs: Configs, y: System)
    requires SysShaped(cs, y)
    requires Empty(cs.i, IView(y)) && Empty(cs.d, DView(y)) && Empty(cs.u, UView(y))
    ensures Represents(cs, y, Flat(y.mode, y.memI, y.memD))
  {
    forall a | 0 <= a < SPACE
      ensures PointOk(At(cs, y, a), IsIo(a)) && CodeByte(At(cs, y, a)) == y.memI[a] && DataByte(At(cs, y, a)) == y.memD[a]
    {
      PointShape(cs, y, a);
    }
  }

  /** True Harvard: no run of CPU events changes what any fetch returns. */
  lemma {:induction false} HarvardCodeIsFixed(cs: Configs, y: System, f: Flat, es: seq<Event>, k: Kind, a: nat, rnd: nat, dev: byte)
    requires Represents(cs, y, f) && f.mode == Harvard && EventsOk(es)
    requires forall i :: 0 <= i < |es| ==> !es[i].SetMode?
    requires a < SPACE && SideOf(k) == CodeSide && !DeviceReads(a)
    ensures MsRead(cs, Run(cs, y, es), k, a, rnd, dev).1 == f.code[a]
  {
    MachineRefinesMemory(cs, y, f, es);
    HarvardFlat(f, es);
    MsReadValue(cs, Run(cs, y, es), k, a, rnd, dev);
    assert CodeByte(At(cs, Run(cs, y, es), a)) == f.code[a];
  }

  lemma {:induction false} HarvardFlat(f: Flat, es: seq<Event>)
    requires EventsOk(es) && |f.code| == SPACE && |f.data| == SPACE && f.mode == Harvard
    requires forall i :: 0 <= i < |es| ==> !es[i].SetMode?
    ensures FlatRun(f, es).code == f.code && FlatRun(f, es).mode == Harvard
    decreases |es|
  {
    if es != [] {
      HarvardFlat(FlatStep(f, es[0]), es[1..]);
    }
  }
}
