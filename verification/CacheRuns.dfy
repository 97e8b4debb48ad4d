/** Whole runs of one cache: it refines a flat byte array, and its counters add up. */
module CacheRuns {
  import opened Bits
  import opened Geometry
  import opened CacheModel
  import opened CacheTheory

  /** A call into the cache; `rnd` is what `rand()` returns should the call need it. */
  datatype Op =
    | Load(a: nat, rnd: nat)
    | Store(a: nat, val: byte, rnd: nat)
    | CleanLine(a: nat)
    | SnoopLine(a: nat)
    | CleanAll
    | FlushAll
    | ZeroStats

  predicate OpOk(op: Op) {
    op.Load? || op.Store? || op.CleanLine? || op.SnoopLine? ==> op.a < SPACE
  }

  predicate OpsOk(ops: seq<Op>) {
    forall i :: 0 <= i < |ops| ==> OpOk(ops[i])
  }

  function Step(cfg: Config, m: Cached, op: Op): (r: Cached)
    requires Shaped(cfg, m) && OpOk(op)
    ensures Shaped(cfg, r)
  {
    match op
    case Load(a, rnd) => Read(cfg, m, a, rnd).0
    case Store(a, val, rnd) => Write(cfg, m, a, val, rnd)
    case CleanLine(a) => CleanAddr(cfg, m, a)
    case SnoopLine(a) => Snoop(cfg, m, a)
    case CleanAll => SweepAll(cfg, m, Cleaning)
    case FlushAll => SweepAll(cfg, m, Flushing)
    case ZeroStats => ResetStats(m)
  }

  /** The final state and the bytes the loads returned, in order. */
  function Run(cfg: Config, m: Cached, ops: seq<Op>): (r: (Cached, seq<byte>))
    requires Shaped(cfg, m) && OpsOk(ops)
    ensures Shaped(cfg, r.0)
    decreases |ops|
  {
    if ops == [] then (m, [])
    else
      var (m1, got) := Run(cfg, Step(cfg, m, ops[0]), ops[1..]);
      (m1, (if ops[0].Load? then [Read(cfg, m, ops[0].a, ops[0].rnd).1] else []) + got)
  }

  /** The reference: an array of bytes, where only loads and stores mean anything. */
  function FlatStep(flat: seq<byte>, op: Op): (r: seq<byte>)
    requires |flat| == SPACE && OpOk(op)
    ensures |r| == SPACE
  {
    if op.Store? then flat[op.a := op.val] else flat
  }

  function FlatRun(flat: seq<byte>, ops: seq<Op>): (r: (seq<byte>, seq<byte>))
    requires |flat| == SPACE && OpsOk(ops)
    ensures |r.0| == SPACE
    decreases |ops|
  {
    if ops == [] then (flat, [])
    else
      var (f1, got) := FlatRun(FlatStep(flat, ops[0]), ops[1..]);
      (f1, (if ops[0].Load? then [flat[ops[0].a]] else []) + got)
  }

  /** The cache and its memory together hold exactly `flat`. */
  ghost predicate Holds(cfg: Config, m: Cached, flat: seq<byte>) {
    && Shaped(cfg, m) && Backed(cfg, m)
    && |flat| == SPACE
    && forall a :: 0 <= a < SPACE ==> Look(cfg, m, a) == flat[a]
  }

  lemma StepSpot(cfg: Config, m: Cached, op: Op, a: nat)
    requires Shaped(cfg, m) && OpOk(op) && a < SPACE
    requires !SpotAt(cfg, m, a).dirty ==> SpotAt(cfg, m, a).seen == SpotAt(cfg, m, a).mem
    ensures var o, n := SpotAt(cfg, m, a), SpotAt(cfg, Step(cfg, m, op), a);
            && (!n.dirty ==> n.seen == n.mem)
            && n.seen == (if op.Store? && op.a == a then op.val else o.seen)
            && (cfg.wpol == Through && !o.dirty ==> !n.dirty)
  {
    hide SetOf, TagOf, OffOf, BaseOf, SetOk, FindWay, SpotAt;
    match op
    case Load(b, rnd) => ReadSpot(cfg, m, b, rnd, a);
    case Store(b, val, rnd) => WriteSpot(cfg, m, b, val, rnd, a);
    case CleanLine(b) => CleanAddrSpot(cfg, m, b, a);
    case SnoopLine(b) => SnoopSpot(cfg, m, b, a);
    case CleanAll => SweepAllSpot(cfg, m, Cleaning, a);
    case FlushAll => SweepAllSpot(cfg, m, Flushing, a);
    case ZeroStats => SameContents(cfg, m, ResetStats(m), a);
  }

  lemma StepRefines(cfg: Config, m: Cached, flat: seq<byte>, op: Op)
    requires Holds(cfg, m, flat) && OpOk(op)
    ensures Holds(cfg, Step(cfg, m, op), FlatStep(flat, op))
    ensures op.Load? ==> Read(cfg, m, op.a, op.rnd).1 == flat[op.a]
  {
    var r := Step(cfg, m, op);
    forall a | 0 <= a < SPACE
      ensures Look(cfg, r, a) == FlatStep(flat, op)[a]
      ensures !SpotAt(cfg, r, a).dirty ==> SpotAt(cfg, r, a).seen == SpotAt(cfg, r, a).mem
    {
      StepSpot(cfg, m, op, a);
    }
    if op.Load? {
      ReadSpot(cfg, m, op.a, op.rnd, op.a);
    }
  }

  /** The cache refines flat memory: any geometry, replacement choice, write and allocate policy, any run. */
  lemma {:induction false} CacheRefinesFlat(cfg: Config, m: Cached, flat: seq<byte>, ops: seq<Op>)
    requires Holds(cfg, m, flat) && OpsOk(ops)
    ensures Run(cfg, m, ops).1 == FlatRun(flat, ops).1
    ensures Holds(cfg, Run(cfg, m, ops).0, FlatRun(flat, ops).0)
    decreases |ops|
  {
    if ops != [] {
      StepRefines(cfg, m, flat, ops[0]);
      CacheRefinesFlat(cfg, Step(cfg, m, ops[0]), FlatStep(flat, ops[0]), ops[1..]);
    }
  }

  /** After a clean, memory itself holds everything stored so far; after a flush the cache is empty too. */
  lemma CleanSettles(cfg: Config, m: Cached, flat: seq<byte>, k: Sweep)
    requires Holds(cfg, m, flat) && !k.Invalidating?
    ensures SweepAll(cfg, m, k).mem == flat
    ensures Clean(cfg, SweepAll(cfg, m, k))
    ensures k.Flushing? ==> Empty(cfg, SweepAll(cfg, m, k))
  {
    var r := SweepAll(cfg, m, k);
    forall a | 0 <= a < SPACE
      ensures r.mem[a] == flat[a] && !SpotAt(cfg, r, a).dirty && (k.Flushing? ==> !SpotAt(cfg, r, a).held)
    {
      SweepAllSpot(cfg, m, k, a);
      assert Look(cfg, m, a) == flat[a];
      assert r.mem[a] == SpotAt(cfg, r, a).mem;
    }
  }

  /** `cache_invalidate` forgets data: what was stored survives exactly where memory already had it. */
  lemma InvalidateForgets(cfg: Config, m: Cached, flat: seq<byte>)
    requires Holds(cfg, m, flat)
    ensures Holds(cfg, SweepAll(cfg, m, Invalidating), m.mem)
    ensures Holds(cfg, SweepAll(cfg, m, Invalidating), flat) <==>
            forall a :: 0 <= a < SPACE && SpotAt(cfg, m, a).dirty ==> SpotAt(cfg, m, a).seen == SpotAt(cfg, m, a).mem
  {
    var r := SweepAll(cfg, m, Invalidating);
    forall a | 0 <= a < SPACE
      ensures SpotAt(cfg, r, a) == Spot(false, false, m.mem[a], m.mem[a])
      ensures Look(cfg, r, a) == flat[a] <==> SpotAt(cfg, m, a).seen == SpotAt(cfg, m, a).mem
    {
      SweepAllSpot(cfg, m, Invalidating, a);
      assert Look(cfg, m, a) == flat[a];
    }
    if forall a :: 0 <= a < SPACE && SpotAt(cfg, m, a).dirty ==> SpotAt(cfg, m, a).seen == SpotAt(cfg, m, a).mem {
      assert Holds(cfg, r, flat);
    }
    if Holds(cfg, r, flat) {
      forall a | 0 <= a < SPACE && SpotAt(cfg, m, a).dirty
        ensures SpotAt(cfg, m, a).seen == SpotAt(cfg, m, a).mem
      {
        assert Look(cfg, r, a) == flat[a];
      }
    }
  }
}
