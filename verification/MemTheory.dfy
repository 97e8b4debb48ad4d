/** One address at a time: how each bus event changes what the caches and memories hold there. */
module MemTheory {
  import opened Bits
  import opened Geometry
  import opened CacheModel
  import opened CacheTheory
  import opened MemModel

  /** One address seen by the three caches and the two memories. */
  datatype Point = Point(mode: Mode, on: bool, i: Spot, d: Spot, u: Spot, memI: byte, memD: byte)

  function At(cs: Configs, y: System, a: nat): Point
    requires SysShaped(cs, y) && a < SPACE
  {
    Point(y.mode, y.cachesOn, SpotAt(cs.i, IView(y), a), SpotAt(cs.d, DView(y), a), SpotAt(cs.u, UView(y), a), y.memI[a], y.memD[a])
  }

  /** The invariant at one address: the instruction cache is never dirty, caches not serving the mode are
      empty, the device page is never cached, and clean lines equal memory except in the split machine's I$. */
  ghost predicate PointOk(p: Point, io: bool) {
    && !p.i.dirty
    && (p.mode == VonNeumann ==> !p.i.held && !p.d.held)
    && (p.mode != VonNeumann ==> !p.u.held)
    && (!p.on || io ==> !p.i.held && !p.d.held && !p.u.held)
    && (!p.d.dirty ==> p.d.seen == p.d.mem)
    && (!p.u.dirty ==> p.u.seen == p.u.mem)
    && (p.mode == Harvard ==> p.i.seen == p.i.mem)
  }

  ghost predicate SysOk(cs: Configs, y: System) {
    && SysShaped(cs, y)
    && forall a :: 0 <= a < SPACE ==> PointOk(At(cs, y, a), IsIo(a))
  }

  /** What has been stored at an address of the shared (or instruction) memory. */
  function CodeByte(p: Point): byte {
    match p.mode
    case VonNeumann => p.u.seen
    case Harvard => p.i.seen
    case Modified => p.d.seen
  }

  /** What has been stored at an address of the separate data memory. */
  function DataByte(p: Point): byte {
    if p.mode == Harvard then p.d.seen else p.memD
  }

  /** What an instruction fetch would return. */
  function FetchByte(p: Point): byte {
    if p.mode == VonNeumann then p.u.seen else p.i.seen
  }

  /** The same line over a memory that now holds `v`. */
  function Rebase(o: Spot, v: byte): Spot {
    if o.held then o.(mem := v) else Spot(false, false, v, v)
  }

  lemma RebaseSpot(cfg: Config, b: Bare, mem: seq<byte>, mem': seq<byte>, a: nat)
    requires Shaped(cfg, On(b, mem)) && |mem'| == SPACE && a < SPACE
    ensures Shaped(cfg, On(b, mem'))
    ensures SpotAt(cfg, On(b, mem'), a) == Rebase(SpotAt(cfg, On(b, mem), a), mem'[a])
    ensures Held(cfg, On(b, mem'), a) == Held(cfg, On(b, mem), a)
  {
  }

  lemma SpotMem(cfg: Config, c: Cached, a: nat)
    requires Shaped(cfg, c) && a < SPACE
    ensures SpotAt(cfg, c, a).mem == c.mem[a]
    ensures !SpotAt(cfg, c, a).held ==> SpotAt(cfg, c, a) == Spot(false, false, c.mem[a], c.mem[a])
  {
  }

  /** Replacing the data cache by `c`, seen from `a`. */
  lemma PutDPoint(cs: Configs, y: System, c: Cached, a: nat)
    requires SysShaped(cs, y) && Shaped(cs.d, c) && a < SPACE
    ensures SysShaped(cs, PutD(y, c))
    ensures var p, n := At(cs, y, a), SpotAt(cs.d, c, a);
            At(cs, PutD(y, c), a) ==
              if y.mode == Harvard then p.(d := n, memD := n.mem)
              else p.(d := n, memI := n.mem, i := Rebase(p.i, n.mem), u := Rebase(p.u, n.mem))
  {
    var r := PutD(y, c);
    RebaseSpot(cs.i, y.i, y.memI, r.memI, a);
    RebaseSpot(cs.u, y.u, y.memI, r.memI, a);
    assert DView(r) == c;
    SpotMem(cs.d, c, a);
    SpotMem(cs.i, IView(y), a);
    SpotMem(cs.u, UView(y), a);
  }

  lemma PutIPoint(cs: Configs, y: System, c: Cached, a: nat)
    requires SysShaped(cs, y) && Shaped(cs.i, c) && a < SPACE
    ensures SysShaped(cs, PutI(y, c))
    ensures var p, n := At(cs, y, a), SpotAt(cs.i, c, a);
            At(cs, PutI(y, c), a) ==
              p.(i := n, memI := n.mem, u := Rebase(p.u, n.mem), d := if y.mode == Harvard then p.d else Rebase(p.d, n.mem))
  {
    var r := PutI(y, c);
    RebaseSpot(cs.d, y.d, DMem(y), DMem(r), a);
    RebaseSpot(cs.u, y.u, y.memI, r.memI, a);
    assert IView(r) == c;
    SpotMem(cs.i, c, a);
    SpotMem(cs.d, DView(y), a);
    SpotMem(cs.u, UView(y), a);
  }

  lemma PutUPoint(cs: Configs, y: System, c: Cached, a: nat)
    requires SysShaped(cs, y) && Shaped(cs.u, c) && a < SPACE
    ensures SysShaped(cs, PutU(y, c))
    ensures var p, n := At(cs, y, a), SpotAt(cs.u, c, a);
            At(cs, PutU(y, c), a) ==
              p.(u := n, memI := n.mem, i := Rebase(p.i, n.mem), d := if y.mode == Harvard then p.d else Rebase(p.d, n.mem))
  {
    var r := PutU(y, c);
    RebaseSpot(cs.d, y.d, DMem(y), DMem(r), a);
    RebaseSpot(cs.i, y.i, y.memI, r.memI, a);
    assert UView(r) == c;
    SpotMem(cs.u, c, a);
    SpotMem(cs.d, DView(y), a);
    SpotMem(cs.i, IView(y), a);
  }

  lemma PokePoint(cs: Configs, y: System, side: Side, b: nat, v: byte, a: nat)
    requires SysShaped(cs, y) && b < SPACE && a < SPACE
    ensures SysShaped(cs, Poke(y, side, b, v))
    ensures var p := At(cs, y, a);
            At(cs, Poke(y, side, b, v), a) ==
              if a != b then p
              else if side == DataSide && y.mode == Harvard then p.(memD := v, d := Rebase(p.d, v))
              else p.(memI := v, i := Rebase(p.i, v), u := Rebase(p.u, v), d := if y.mode == Harvard then p.d else Rebase(p.d, v))
  {
    var r := Poke(y, side, b, v);
    RebaseSpot(cs.d, y.d, DMem(y), DMem(r), a);
    RebaseSpot(cs.i, y.i, y.memI, r.memI, a);
    RebaseSpot(cs.u, y.u, y.memI, r.memI, a);
    SpotMem(cs.i, IView(y), a);
    SpotMem(cs.d, DView(y), a);
    SpotMem(cs.u, UView(y), a);
  }

  /** The relation every well-formed point keeps between its parts. */
  lemma PointShape(cs: Configs, y: System, a: nat)
    requires SysShaped(cs, y) && a < SPACE
    ensures var p := At(cs, y, a);
            && p.i.mem == p.memI && p.u.mem == p.memI && p.d.mem == (if p.mode == Harvard then p.memD else p.memI)
            && (!p.i.held ==> p.i == Spot(false, false, p.i.mem, p.i.mem))
            && (!p.d.held ==> p.d == Spot(false, false, p.d.mem, p.d.mem))
            && (!p.u.held ==> p.u == Spot(false, false, p.u.mem, p.u.mem))
  {
    SpotMem(cs.i, IView(y), a);
    SpotMem(cs.d, DView(y), a);
    SpotMem(cs.u, UView(y), a);
  }
}
