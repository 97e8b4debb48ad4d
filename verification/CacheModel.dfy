/** What one cache over one backing memory does on each call, as functions on values. */
module CacheModel {
  import opened Bits
  import opened Geometry

  /** A cache line together with its data bytes. */
  datatype Slot = Slot(tag: nat, valid: bool, dirty: bool, stamp: nat, base: nat, data: seq<byte>)

  datatype Stats = Stats(nReads: nat, nWrites: nat,
                         readHit: nat, readMiss: nat, writeHit: nat, writeMiss: nat,
                         evictions: nat, writebacks: nat, invalidations: nat,
                         stall: nat, bytesIn: nat, bytesOut: nat)

  const NO_STATS := Stats(0, 0, 0, 0, 0, 0, 0, 0, 0, 0, 0, 0)

  /** A cache and the memory behind it. */
  datatype Cached = Cached(sets: seq<seq<Slot>>, clock: nat, stats: Stats, mem: seq<byte>)

  const STAMP_MAX: nat := 0xffff_ffff

  /** The 32-bit `++clock`. */
  function Tick(clock: nat): nat {
    (clock + 1) % 0x1_0000_0000
  }

  function Splice(mem: seq<byte>, base: nat, data: seq<byte>): (r: seq<byte>)
    requires base + |data| <= |mem|
    ensures |r| == |mem|
    ensures forall a :: 0 <= a < |r| ==> r[a] == if base <= a < base + |data| then data[a - base] else mem[a]
  {
    mem[..base] + data + mem[base + |data|..]
  }

  /** A valid line sits in the set its base address selects and carries that address's tag. */
  ghost predicate Placed(cfg: Config, s: nat, x: Slot)
    requires cfg.lineBytes > 0 && cfg.sets > 0
  {
    && x.base + cfg.lineBytes <= SPACE
    && BaseOf(cfg, x.base) == x.base
    && TagOf(cfg, x.base) == x.tag
    && SetOf(cfg, x.base) == s
  }

  ghost predicate DistinctTags(xs: seq<Slot>) {
    forall i, j :: 0 <= i < j < |xs| && xs[i].valid && xs[j].valid ==> xs[i].tag != xs[j].tag
  }

  ghost predicate SetOk(cfg: Config, s: nat, xs: seq<Slot>)
    requires cfg.lineBytes > 0 && cfg.sets > 0
  {
    && |xs| == cfg.ways
    && DistinctTags(xs)
    && (forall w :: 0 <= w < |xs| ==> |xs[w].data| == cfg.lineBytes && (xs[w].valid ==> Placed(cfg, s, xs[w])))
  }

  /** Structural invariant: dimensions, placement, one copy of each tag per set. */
  ghost predicate Shaped(cfg: Config, m: Cached) {
    && Valid(cfg)
    && |m.mem| == SPACE
    && |m.sets| == cfg.sets
    && forall s :: 0 <= s < |m.sets| ==> SetOk(cfg, s, m.sets[s])
  }

  /** The way of the first valid line with this tag, or the number of ways. */
  function FindWay(xs: seq<Slot>, tag: nat, from: nat := 0): (w: nat)
    requires from <= |xs|
    ensures from <= w <= |xs|
    ensures w < |xs| ==> xs[w].valid && xs[w].tag == tag
    ensures forall i :: from <= i < w ==> !(xs[i].valid && xs[i].tag == tag)
    decreases |xs| - from
  {
    if from == |xs| || (xs[from].valid && xs[from].tag == tag) then from else FindWay(xs, tag, from + 1)
  }

  function FirstInvalid(xs: seq<Slot>, from: nat := 0): (w: nat)
    requires from <= |xs|
    ensures from <= w <= |xs|
    ensures w < |xs| ==> !xs[w].valid
    ensures forall i :: from <= i < w ==> xs[i].valid
    decreases |xs| - from
  {
    if from == |xs| || !xs[from].valid then from else FirstInvalid(xs, from + 1)
  }

  /** The scan for the smallest stamp: first of the smallest, and way 0 if none is below the start value. */
  function Oldest(xs: seq<Slot>, from: nat := 0, best: nat := 0, stamp: nat := STAMP_MAX): (w: nat)
    requires from <= |xs|
    ensures w == best || (from <= w < |xs| && xs[w].stamp < stamp)
    ensures forall i :: from <= i < |xs| && xs[i].stamp < stamp ==> from <= w < |xs| && xs[w].stamp <= xs[i].stamp
    decreases |xs| - from
  {
    if from == |xs| then best
    else if xs[from].stamp < stamp then
      Oldest(xs, from + 1, from, xs[from].stamp)
    else Oldest(xs, from + 1, best, stamp)
  }

  /** `pick_victim`; `rnd` is what `rand()` returned. */
  function PickVictim(cfg: Config, xs: seq<Slot>, rnd: nat): (w: nat)
    requires |xs| == cfg.ways > 0
    ensures w < cfg.ways
    ensures (exists i :: 0 <= i < |xs| && !xs[i].valid) ==> !xs[w].valid
  {
    var w := FirstInvalid(xs);
    if w < |xs| then w
    else if cfg.repl == Random then rnd % cfg.ways
    else Oldest(xs)
  }

  function Put(m: Cached, s: nat, w: nat, x: Slot): Cached
    requires s < |m.sets| && w < |m.sets[s]|
  {
    m.(sets := m.sets[s := m.sets[s][w := x]])
  }

  /** `writeback` of one line. */
  function WriteBack(cfg: Config, m: Cached, s: nat, w: nat): (r: Cached)
    requires Shaped(cfg, m) && s < cfg.sets && w < cfg.ways
    ensures Shaped(cfg, r)
  {
    var x := m.sets[s][w];
    assert SetOk(cfg, s, m.sets[s]);
    if !x.valid || !x.dirty then m
    else
      Put(m, s, w, x.(dirty := false)).(
        mem := Splice(m.mem, x.base, x.data),
        stats := m.stats.(writebacks := m.stats.writebacks + 1, bytesOut := m.stats.bytesOut + cfg.lineBytes))
  }

  predicate Held(cfg: Config, m: Cached, a: nat)
    requires Shaped(cfg, m)
  {
    assert SetOk(cfg, SetOf(cfg, a), m.sets[SetOf(cfg, a)]);
    FindWay(m.sets[SetOf(cfg, a)], TagOf(cfg, a)) < cfg.ways
  }

  /** The way holding `a`. */
  function HomeOf(cfg: Config, m: Cached, a: nat): (w: nat)
    requires Shaped(cfg, m) && Held(cfg, m, a)
    ensures w < cfg.ways
  {
    FindWay(m.sets[SetOf(cfg, a)], TagOf(cfg, a))
  }

  function ByteAt(cfg: Config, m: Cached, w: nat, a: nat): byte
    requires Shaped(cfg, m) && w < cfg.ways
  {
    assert SetOk(cfg, SetOf(cfg, a), m.sets[SetOf(cfg, a)]);
    m.sets[SetOf(cfg, a)][w].data[OffOf(cfg, a)]
  }

  /** `refill` of one way from the line covering `a`. */
  function Refill(cfg: Config, m: Cached, w: nat, a: nat): (r: Cached)
    requires Shaped(cfg, m) && a < SPACE && w < cfg.ways && !Held(cfg, m, a)
    ensures Shaped(cfg, r)
  {
    LineBounds(cfg, a);
    Recompose(cfg, a);
    var s := SetOf(cfg, a);
    var base := BaseOf(cfg, a);
    var x := Slot(TagOf(cfg, a), true, false, Tick(m.clock), base, m.mem[base..base + cfg.lineBytes]);
    assert SetOk(cfg, s, m.sets[s]);
    assert SetOk(cfg, s, m.sets[s][w := x]);
    Put(m, s, w, x).(clock := Tick(m.clock), stats := m.stats.(bytesIn := m.stats.bytesIn + cfg.lineBytes))
  }

  /** `touch`: LRU restamps on every access, the other policies only on a fill. */
  function Touch(cfg: Config, m: Cached, s: nat, w: nat): (r: Cached)
    requires Shaped(cfg, m) && s < cfg.sets && w < cfg.ways
    ensures Shaped(cfg, r)
  {
    assert SetOk(cfg, s, m.sets[s]);
    if cfg.repl == LRU then
      Put(m, s, w, m.sets[s][w].(stamp := Tick(m.clock))).(clock := Tick(m.clock))
    else m
  }

  /** `handle_miss`: evict, write back, refill, charge the penalty. */
  function HandleMiss(cfg: Config, m: Cached, a: nat, rnd: nat): (r: (Cached, nat))
    requires Shaped(cfg, m) && a < SPACE && !Held(cfg, m, a)
    ensures Shaped(cfg, r.0) && r.1 < cfg.ways
  {
    var s := SetOf(cfg, a);
    assert SetOk(cfg, s, m.sets[s]);
    var w := PickVictim(cfg, m.sets[s], rnd);
    var m1 := Evict(cfg, m, s, w);
    EvictKeepsAbsent(cfg, m, a, w);
    var m2 := Refill(cfg, m1, w, a);
    (m2.(stats := m2.stats.(stall := m2.stats.stall + cfg.missPenalty)), w)
  }

  function Evict(cfg: Config, m: Cached, s: nat, w: nat): (r: Cached)
    requires Shaped(cfg, m) && s < cfg.sets && w < cfg.ways
    ensures Shaped(cfg, r)
  {
    assert SetOk(cfg, s, m.sets[s]);
    if m.sets[s][w].valid then
      var m1 := WriteBack(cfg, m, s, w);
      m1.(stats := m1.stats.(evictions := m1.stats.evictions + 1))
    else m
  }

  lemma EvictKeepsAbsent(cfg: Config, m: Cached, a: nat, w: nat)
    requires Shaped(cfg, m) && w < cfg.ways && !Held(cfg, m, a)
    ensures !Held(cfg, Evict(cfg, m, SetOf(cfg, a), w), a)
  {
  }

  /** `cache_read`. */
  function Read(cfg: Config, m: Cached, a: nat, rnd: nat): (r: (Cached, byte))
    requires Shaped(cfg, m) && a < SPACE
    ensures Shaped(cfg, r.0)
  {
    if Held(cfg, m, a) then
      var m1 := m.(stats := m.stats.(nReads := m.stats.nReads + 1, readHit := m.stats.readHit + 1));
      ReadHit(cfg, m1, a)
    else
      var m1 := m.(stats := m.stats.(nReads := m.stats.nReads + 1, readMiss := m.stats.readMiss + 1));
      ReadMiss(cfg, m1, a, rnd)
  }

  function ReadHit(cfg: Config, m: Cached, a: nat): (r: (Cached, byte))
    requires Shaped(cfg, m) && a < SPACE && Held(cfg, m, a)
    ensures Shaped(cfg, r.0)
  {
    var m1 := Touch(cfg, m, SetOf(cfg, a), HomeOf(cfg, m, a));
    (m1, ByteAt(cfg, m1, HomeOf(cfg, m, a), a))
  }

  function ReadMiss(cfg: Config, m: Cached, a: nat, rnd: nat): (r: (Cached, byte))
    requires Shaped(cfg, m) && a < SPACE && !Held(cfg, m, a)
    ensures Shaped(cfg, r.0)
  {
    var (m1, w) := HandleMiss(cfg, m, a, rnd);
    (m1, ByteAt(cfg, m1, w, a))
  }

  /** The last step of a store: the byte goes into the line, then to memory or into the dirty bit. */
  function StoreByte(cfg: Config, m: Cached, s: nat, w: nat, a: nat, val: byte): (r: Cached)
    requires Shaped(cfg, m) && s < cfg.sets && w < cfg.ways && a < SPACE
    ensures Shaped(cfg, r)
  {
    assert SetOk(cfg, s, m.sets[s]);
    var x := m.sets[s][w];
    var d := x.data[OffOf(cfg, a) := val];
    if cfg.wpol == Through then
      Put(m, s, w, x.(data := d)).(mem := m.mem[a := val], stats := m.stats.(bytesOut := m.stats.bytesOut + 1))
    else
      Put(m, s, w, x.(data := d, dirty := true))
  }

  /** `cache_write`. */
  function Write(cfg: Config, m: Cached, a: nat, val: byte, rnd: nat): (r: Cached)
    requires Shaped(cfg, m) && a < SPACE
    ensures Shaped(cfg, r)
  {
    var n := m.stats.nWrites + 1;
    if Held(cfg, m, a) then
      WriteHit(cfg, m.(stats := m.stats.(nWrites := n, writeHit := m.stats.writeHit + 1)), a, val)
    else
      WriteMiss(cfg, m.(stats := m.stats.(nWrites := n, writeMiss := m.stats.writeMiss + 1)), a, val, rnd)
  }

  function WriteHit(cfg: Config, m: Cached, a: nat, val: byte): (r: Cached)
    requires Shaped(cfg, m) && a < SPACE && Held(cfg, m, a)
    ensures Shaped(cfg, r)
  {
    var s, w := SetOf(cfg, a), HomeOf(cfg, m, a);
    StoreByte(cfg, Touch(cfg, m, s, w), s, w, a, val)
  }

  /** Without write-allocate a missing store goes straight to memory, at the price of a miss. */
  function WriteMiss(cfg: Config, m: Cached, a: nat, val: byte, rnd: nat): (r: Cached)
    requires Shaped(cfg, m) && a < SPACE && !Held(cfg, m, a)
    ensures Shaped(cfg, r)
  {
    if cfg.writeAlloc then
      var (m1, w) := HandleMiss(cfg, m, a, rnd);
      StoreByte(cfg, m1, SetOf(cfg, a), w, a, val)
    else
      m.(mem := m.mem[a := val],
         stats := m.stats.(bytesOut := m.stats.bytesOut + 1, stall := m.stats.stall + cfg.missPenalty))
  }

  function Drop(cfg: Config, m: Cached, s: nat, w: nat): (r: Cached)
    requires Shaped(cfg, m) && s < cfg.sets && w < cfg.ways
    ensures Shaped(cfg, r)
  {
    assert SetOk(cfg, s, m.sets[s]);
    Put(m, s, w, m.sets[s][w].(valid := false))
  }

  /** What the inner loops of the maintenance calls do to one line. */
  datatype Sweep = Cleaning | Flushing | Invalidating

  function SweepLine(cfg: Config, m: Cached, k: Sweep, s: nat, w: nat): (r: Cached)
    requires Shaped(cfg, m) && s < cfg.sets && w < cfg.ways
    ensures Shaped(cfg, r)
  {
    assert SetOk(cfg, s, m.sets[s]);
    match k
    case Cleaning => WriteBack(cfg, m, s, w)
    case Flushing => Drop(cfg, WriteBack(cfg, m, s, w), s, w)
    case Invalidating => Put(m, s, w, m.sets[s][w].(valid := false, dirty := false))
  }

  /** The first `n` ways of set `s`. */
  function SweepSet(cfg: Config, m: Cached, k: Sweep, s: nat, n: nat): (r: Cached)
    requires Shaped(cfg, m) && s < cfg.sets && n <= cfg.ways
    ensures Shaped(cfg, r)
  {
    if n == 0 then m else SweepLine(cfg, SweepSet(cfg, m, k, s, n - 1), k, s, n - 1)
  }

  /** The first `n` sets. */
  function SweepSets(cfg: Config, m: Cached, k: Sweep, n: nat): (r: Cached)
    requires Shaped(cfg, m) && n <= cfg.sets
    ensures Shaped(cfg, r)
  {
    if n == 0 then m else SweepSet(cfg, SweepSets(cfg, m, k, n - 1), k, n - 1, cfg.ways)
  }

  /** `cache_clean`, `cache_flush` and `cache_invalidate`. */
  function SweepAll(cfg: Config, m: Cached, k: Sweep): (r: Cached)
    requires Shaped(cfg, m)
    ensures Shaped(cfg, r)
  {
    SweepSets(cfg, m, k, cfg.sets)
  }

  /** `cache_clean_addr`. */
  function CleanAddr(cfg: Config, m: Cached, a: nat): (r: Cached)
    requires Shaped(cfg, m) && a < SPACE
    ensures Shaped(cfg, r)
  {
    if Held(cfg, m, a) then WriteBack(cfg, m, SetOf(cfg, a), HomeOf(cfg, m, a)) else m
  }

  /** `cache_snoop`: write the line back, then drop it. */
  function Snoop(cfg: Config, m: Cached, a: nat): (r: Cached)
    requires Shaped(cfg, m) && a < SPACE
    ensures Shaped(cfg, r)
  {
    if Held(cfg, m, a) then
      var s, w := SetOf(cfg, a), HomeOf(cfg, m, a);
      var m1 := Drop(cfg, WriteBack(cfg, m, s, w), s, w);
      m1.(stats := m1.stats.(invalidations := m1.stats.invalidations + 1))
    else m
  }

  function ResetStats(m: Cached): Cached {
    m.(stats := NO_STATS)
  }

  /** One address as the cache and the memory hold it: is its line resident, is that line dirty,
      which byte does an access see, which byte is in memory. */
  datatype Spot = Spot(held: bool, dirty: bool, seen: byte, mem: byte)

  function SpotAt(cfg: Config, m: Cached, a: nat): Spot
    requires Shaped(cfg, m) && a < SPACE
  {
    if Held(cfg, m, a) then
      var w := HomeOf(cfg, m, a);
      Spot(true, m.sets[SetOf(cfg, a)][w].dirty, ByteAt(cfg, m, w, a), m.mem[a])
    else
      Spot(false, false, m.mem[a], m.mem[a])
  }

  /** What the side served by this cache sees at `a`. */
  function Look(cfg: Config, m: Cached, a: nat): byte
    requires Shaped(cfg, m) && a < SPACE
  {
    SpotAt(cfg, m, a).seen
  }

  /** Every byte outside the dirty lines equals the memory behind it. */
  ghost predicate Backed(cfg: Config, m: Cached)
    requires Shaped(cfg, m)
  {
    forall a :: 0 <= a < SPACE && !SpotAt(cfg, m, a).dirty ==> SpotAt(cfg, m, a).seen == SpotAt(cfg, m, a).mem
  }

  ghost predicate Clean(cfg: Config, m: Cached)
    requires Shaped(cfg, m)
  {
    forall a :: 0 <= a < SPACE ==> !SpotAt(cfg, m, a).dirty
  }

  ghost predicate Empty(cfg: Config, m: Cached)
    requires Shaped(cfg, m)
  {
    forall a :: 0 <= a < SPACE ==> !SpotAt(cfg, m, a).held
  }
}
