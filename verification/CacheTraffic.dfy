/** The counters of a cache: every stall cycle and every byte of traffic is accounted for over any run. */
module CacheTraffic {
  import opened Bits
  import opened Geometry
  import opened CacheModel
  import opened CacheRuns

  /** Lines brought in: every read miss, and every write miss that allocates. */
  function Fills(cfg: Config, t: Stats): nat {
    t.readMiss + (if cfg.writeAlloc then t.writeMiss else 0)
  }

  /** Stores that sent their single byte to memory. */
  function ByteStores(cfg: Config, t: Stats): nat {
    if cfg.wpol == Through then t.nWrites else if cfg.writeAlloc then 0 else t.writeMiss
  }

  /** What the counters must satisfy at any time after they were last zeroed. */
  ghost predicate Accounted(cfg: Config, t: Stats) {
    && t.nReads == t.readHit + t.readMiss
    && t.nWrites == t.writeHit + t.writeMiss
    && t.stall == cfg.missPenalty * (t.readMiss + t.writeMiss)
    && t.bytesIn == cfg.lineBytes * Fills(cfg, t)
    && t.bytesOut == cfg.lineBytes * t.writebacks + ByteStores(cfg, t)
  }

  function CountValid(xs: seq<Slot>): nat {
    if xs == [] then 0 else (if xs[0].valid then 1 else 0) + CountValid(xs[1..])
  }

  function CountLines(ss: seq<seq<Slot>>): nat {
    if ss == [] then 0 else CountValid(ss[0]) + CountLines(ss[1..])
  }

  function One(b: bool): nat { if b then 1 else 0 }

  lemma {:induction false} CountPutSet(xs: seq<Slot>, w: nat, x: Slot)
    requires w < |xs|
    ensures CountValid(xs[w := x]) + One(xs[w].valid) == CountValid(xs) + One(x.valid)
  {
    if w == 0 {
      assert xs[0 := x][1..] == xs[1..];
    } else {
      assert xs[w := x][1..] == xs[1..][w - 1 := x];
      CountPutSet(xs[1..], w - 1, x);
    }
  }

  lemma {:induction false} CountSets(ss: seq<seq<Slot>>, s: nat, xs: seq<Slot>)
    requires s < |ss|
    ensures CountLines(ss[s := xs]) + CountValid(ss[s]) == CountLines(ss) + CountValid(xs)
  {
    if s == 0 {
      assert ss[0 := xs][1..] == ss[1..];
    } else {
      assert ss[s := xs][1..] == ss[1..][s - 1 := xs];
      CountSets(ss[1..], s - 1, xs);
    }
  }

  lemma CountPut(m: Cached, s: nat, w: nat, x: Slot)
    requires s < |m.sets| && w < |m.sets[s]|
    ensures CountLines(Put(m, s, w, x).sets) + One(m.sets[s][w].valid) == CountLines(m.sets) + One(x.valid)
  {
    CountPutSet(m.sets[s], w, x);
    CountSets(m.sets, s, m.sets[s][w := x]);
  }

  lemma {:induction false} CountNone(ss: seq<seq<Slot>>)
    requires forall s, w :: 0 <= s < |ss| && 0 <= w < |ss[s]| ==> !ss[s][w].valid
    ensures CountLines(ss) == 0
  {
    if ss != [] {
      CountNoneSet(ss[0]);
      CountNone(ss[1..]);
    }
  }

  lemma {:induction false} CountNoneSet(xs: seq<Slot>)
    requires forall w :: 0 <= w < |xs| ==> !xs[w].valid
    ensures CountValid(xs) == 0
  {
    if xs != [] {
      CountNoneSet(xs[1..]);
    }
  }

  /** The line balance: lines resident plus lines lost, against lines brought in. */
  function Balance(cfg: Config, m: Cached): int {
    CountLines(m.sets) + m.stats.evictions + m.stats.invalidations - Fills(cfg, m.stats)
  }

  lemma WriteBackCounts(cfg: Config, m: Cached, s: nat, w: nat)
    requires Shaped(cfg, m) && s < cfg.sets && w < cfg.ways
    requires Accounted(cfg, m.stats)
    ensures Accounted(cfg, WriteBack(cfg, m, s, w).stats)
    ensures Balance(cfg, WriteBack(cfg, m, s, w)) == Balance(cfg, m)
    ensures CountLines(WriteBack(cfg, m, s, w).sets) == CountLines(m.sets)
    ensures WriteBack(cfg, m, s, w).stats == m.stats.(writebacks := WriteBack(cfg, m, s, w).stats.writebacks, bytesOut := WriteBack(cfg, m, s, w).stats.bytesOut)
  {
    assert SetOk(cfg, s, m.sets[s]);
    CountPut(m, s, w, m.sets[s][w].(dirty := false));
    OneMore(cfg.lineBytes, m.stats.writebacks);
  }

  /** Counters in the middle of a miss: the miss is counted, its penalty and its fill are not yet. */
  ghost predicate MissPending(cfg: Config, t: Stats) {
    && t.nReads == t.readHit + t.readMiss
    && t.nWrites == t.writeHit + t.writeMiss
    && t.stall + cfg.missPenalty == cfg.missPenalty * (t.readMiss + t.writeMiss)
    && t.bytesIn + cfg.lineBytes == cfg.lineBytes * Fills(cfg, t)
  }

  lemma HandleMissCounts(cfg: Config, m: Cached, a: nat, rnd: nat, out: nat)
    requires Shaped(cfg, m) && a < SPACE && !Held(cfg, m, a)
    requires MissPending(cfg, m.stats)
    requires m.stats.bytesOut == cfg.lineBytes * m.stats.writebacks + out
    ensures var r := HandleMiss(cfg, m, a, rnd).0;
            && r.stats.bytesOut == cfg.lineBytes * r.stats.writebacks + out
            && r.stats.stall == cfg.missPenalty * (r.stats.readMiss + r.stats.writeMiss)
            && r.stats.bytesIn == cfg.lineBytes * Fills(cfg, r.stats)
            && r.stats == m.stats.(evictions := r.stats.evictions, writebacks := r.stats.writebacks,
                                   stall := r.stats.stall, bytesIn := r.stats.bytesIn, bytesOut := r.stats.bytesOut)
  {
    var s := SetOf(cfg, a);
    assert SetOk(cfg, s, m.sets[s]);
    EvictCounts(cfg, m, s, PickVictim(cfg, m.sets[s], rnd), out);
  }

  /** A miss adds one line, or replaces one and counts an eviction. */
  lemma HandleMissLines(cfg: Config, m: Cached, a: nat, rnd: nat)
    requires Shaped(cfg, m) && a < SPACE && !Held(cfg, m, a)
    ensures Balance(cfg, HandleMiss(cfg, m, a, rnd).0) == Balance(cfg, m) + 1
  {
    var s := SetOf(cfg, a);
    assert SetOk(cfg, s, m.sets[s]);
    var w := PickVictim(cfg, m.sets[s], rnd);
    EvictLines(cfg, m, s, w);
    var m1 := Evict(cfg, m, s, w);
    var m2 := Refill(cfg, m1, w, a);
    assert SetOk(cfg, s, m1.sets[s]);
    CountPut(m1, s, w, m2.sets[s][w]);
    assert m2.sets == Put(m1, s, w, m2.sets[s][w]).sets;
  }

  lemma EvictLines(cfg: Config, m: Cached, s: nat, w: nat)
    requires Shaped(cfg, m) && s < cfg.sets && w < cfg.ways
    ensures var r := Evict(cfg, m, s, w);
            && CountLines(r.sets) == CountLines(m.sets)
            && r.sets[s][w].valid == m.sets[s][w].valid
            && Balance(cfg, r) == Balance(cfg, m) + One(m.sets[s][w].valid)
  {
    assert SetOk(cfg, s, m.sets[s]);
    CountPut(m, s, w, m.sets[s][w].(dirty := false));
  }

  lemma EvictCounts(cfg: Config, m: Cached, s: nat, w: nat, out: nat)
    requires Shaped(cfg, m) && s < cfg.sets && w < cfg.ways
    requires m.stats.bytesOut == cfg.lineBytes * m.stats.writebacks + out
    ensures var r := Evict(cfg, m, s, w);
            && r.stats.bytesOut == cfg.lineBytes * r.stats.writebacks + out
            && r.stats == m.stats.(evictions := r.stats.evictions, writebacks := r.stats.writebacks, bytesOut := r.stats.bytesOut)
  {
    OneMore(cfg.lineBytes, m.stats.writebacks);
  }

  lemma ReadCounts(cfg: Config, m: Cached, a: nat, rnd: nat)
    requires Shaped(cfg, m) && a < SPACE && Accounted(cfg, m.stats)
    ensures Accounted(cfg, Read(cfg, m, a, rnd).0.stats)
  {
    hide SetOf, TagOf, OffOf, BaseOf, SetOk, FindWay, DistinctTags;
    if Held(cfg, m, a) {
      HitsCount(cfg, m.stats);
      var m1 := m.(stats := m.stats.(nReads := m.stats.nReads + 1, readHit := m.stats.readHit + 1));
      TouchCounts(cfg, m1, SetOf(cfg, a), HomeOf(cfg, m1, a));
    } else {
      ReadMissPends(cfg, m.stats);
      ReadMissCounts(cfg, m.(stats := m.stats.(nReads := m.stats.nReads + 1, readMiss := m.stats.readMiss + 1)), a, rnd);
    }
  }

  lemma HitsCount(cfg: Config, t: Stats)
    requires Accounted(cfg, t)
    ensures Accounted(cfg, t.(nReads := t.nReads + 1, readHit := t.readHit + 1))
    ensures Accounted(cfg, t.(nWrites := t.nWrites + 1, writeHit := t.writeHit + 1, bytesOut := t.bytesOut + One(cfg.wpol == Through)))
  {
  }

  lemma ReadMissCounts(cfg: Config, m: Cached, a: nat, rnd: nat)
    requires Shaped(cfg, m) && a < SPACE && !Held(cfg, m, a)
    requires MissPending(cfg, m.stats)
    requires m.stats.bytesOut == cfg.lineBytes * m.stats.writebacks + ByteStores(cfg, m.stats)
    ensures Accounted(cfg, ReadMiss(cfg, m, a, rnd).0.stats)
  {
    HandleMissCounts(cfg, m, a, rnd, ByteStores(cfg, m.stats));
  }

  lemma ReadLines(cfg: Config, m: Cached, a: nat, rnd: nat)
    requires Shaped(cfg, m) && a < SPACE
    ensures Balance(cfg, Read(cfg, m, a, rnd).0) == Balance(cfg, m)
  {
    hide SetOf, TagOf, OffOf, BaseOf, SetOk, FindWay, DistinctTags;
    if Held(cfg, m, a) {
      var m1 := m.(stats := m.stats.(nReads := m.stats.nReads + 1, readHit := m.stats.readHit + 1));
      TouchCounts(cfg, m1, SetOf(cfg, a), HomeOf(cfg, m1, a));
    } else {
      var m1 := m.(stats := m.stats.(nReads := m.stats.nReads + 1, readMiss := m.stats.readMiss + 1));
      HandleMissLines(cfg, m1, a, rnd);
    }
  }

  lemma ReadMissPends(cfg: Config, t: Stats)
    requires Accounted(cfg, t)
    ensures var u := t.(nReads := t.nReads + 1, readMiss := t.readMiss + 1);
            MissPending(cfg, u) && u.bytesOut == cfg.lineBytes * u.writebacks + ByteStores(cfg, u)
  {
    OneMore(cfg.missPenalty, t.readMiss + t.writeMiss);
    OneMore(cfg.lineBytes, Fills(cfg, t));
  }

  lemma WriteMissPends(cfg: Config, t: Stats)
    requires Accounted(cfg, t)
    ensures var u := t.(nWrites := t.nWrites + 1, writeMiss := t.writeMiss + 1);
            && (cfg.writeAlloc ==> MissPending(cfg, u))
            && u.stall + cfg.missPenalty == cfg.missPenalty * (u.readMiss + u.writeMiss)
  {
    OneMore(cfg.missPenalty, t.readMiss + t.writeMiss);
    OneMore(cfg.lineBytes, Fills(cfg, t));
  }

  lemma OneMore(x: nat, n: nat)
    ensures x * (n + 1) == x * n + x
  {
  }

  lemma TouchCounts(cfg: Config, m: Cached, s: nat, w: nat)
    requires Shaped(cfg, m) && s < cfg.sets && w < cfg.ways
    ensures Touch(cfg, m, s, w).stats == m.stats
    ensures CountLines(Touch(cfg, m, s, w).sets) == CountLines(m.sets)
  {
    assert SetOk(cfg, s, m.sets[s]);
    CountPut(m, s, w, m.sets[s][w].(stamp := Tick(m.clock)));
  }

  lemma StoreByteCounts(cfg: Config, m: Cached, s: nat, w: nat, a: nat, val: byte)
    requires Shaped(cfg, m) && s < cfg.sets && w < cfg.ways && a < SPACE
    ensures StoreByte(cfg, m, s, w, a, val).stats == m.stats.(bytesOut := m.stats.bytesOut + One(cfg.wpol == Through))
    ensures CountLines(StoreByte(cfg, m, s, w, a, val).sets) == CountLines(m.sets)
  {
    assert SetOk(cfg, s, m.sets[s]);
    var r := StoreByte(cfg, m, s, w, a, val);
    CountPut(m, s, w, r.sets[s][w]);
    assert r.sets == Put(m, s, w, r.sets[s][w]).sets;
  }

  lemma WriteCounts(cfg: Config, m: Cached, a: nat, val: byte, rnd: nat)
    requires Shaped(cfg, m) && a < SPACE && Accounted(cfg, m.stats)
    ensures Accounted(cfg, Write(cfg, m, a, val, rnd).stats)
  {
    hide SetOf, TagOf, OffOf, BaseOf, SetOk, FindWay, DistinctTags;
    var n := m.stats.nWrites + 1;
    if Held(cfg, m, a) {
      var m1 := m.(stats := m.stats.(nWrites := n, writeHit := m.stats.writeHit + 1));
      HitsCount(cfg, m.stats);
      WriteHitCounts(cfg, m1, a, val);
    } else {
      var m1 := m.(stats := m.stats.(nWrites := n, writeMiss := m.stats.writeMiss + 1));
      WriteMissAccounted(cfg, m.stats, m1, a, val, rnd);
    }
  }

  lemma WriteMissAccounted(cfg: Config, t: Stats, m: Cached, a: nat, val: byte, rnd: nat)
    requires Shaped(cfg, m) && a < SPACE && !Held(cfg, m, a)
    requires Accounted(cfg, t) && m.stats == t.(nWrites := t.nWrites + 1, writeMiss := t.writeMiss + 1)
    ensures Accounted(cfg, WriteMiss(cfg, m, a, val, rnd).stats)
  {
    WriteMissPends(cfg, t);
    WriteMissCounts(cfg, m, a, val, rnd, ByteStores(cfg, t));
    WriteMissAdds(cfg, t, m.stats, WriteMiss(cfg, m, a, val, rnd).stats);
  }

  lemma WriteMissAdds(cfg: Config, t: Stats, u: Stats, r: Stats)
    requires Accounted(cfg, t) && u == t.(nWrites := t.nWrites + 1, writeMiss := t.writeMiss + 1)
    requires r.bytesOut == cfg.lineBytes * r.writebacks + ByteStores(cfg, t) + One(cfg.wpol == Through || !cfg.writeAlloc)
    requires r.stall == cfg.missPenalty * (u.readMiss + u.writeMiss)
    requires if cfg.writeAlloc then r.bytesIn == cfg.lineBytes * Fills(cfg, r) else r.bytesIn == t.bytesIn
    requires r == u.(evictions := r.evictions, writebacks := r.writebacks, stall := r.stall, bytesIn := r.bytesIn, bytesOut := r.bytesOut)
    ensures Accounted(cfg, r)
  {
  }

  lemma WriteLines(cfg: Config, m: Cached, a: nat, val: byte, rnd: nat)
    requires Shaped(cfg, m) && a < SPACE
    ensures Balance(cfg, Write(cfg, m, a, val, rnd)) == Balance(cfg, m)
  {
    hide SetOk, FindWay, DistinctTags, PickVictim, Placed, SetOf, TagOf, OffOf, BaseOf, CountLines, WriteHit, WriteMiss;
    var n := m.stats.nWrites + 1;
    if Held(cfg, m, a) {
      var m1 := m.(stats := m.stats.(nWrites := n, writeHit := m.stats.writeHit + 1));
      WriteHitCounts(cfg, m1, a, val);
    } else {
      var m1 := m.(stats := m.stats.(nWrites := n, writeMiss := m.stats.writeMiss + 1));
      WriteMissLines(cfg, m1, a, val, rnd);
    }
  }

  lemma WriteMissLines(cfg: Config, m: Cached, a: nat, val: byte, rnd: nat)
    requires Shaped(cfg, m) && a < SPACE && !Held(cfg, m, a)
    ensures Balance(cfg, WriteMiss(cfg, m, a, val, rnd)) == Balance(cfg, m) + One(cfg.writeAlloc)
  {
    if cfg.writeAlloc {
      HandleMissLines(cfg, m, a, rnd);
      var (m2, w) := HandleMiss(cfg, m, a, rnd);
      StoreByteCounts(cfg, m2, SetOf(cfg, a), w, a, val);
    }
  }

  lemma WriteHitCounts(cfg: Config, m: Cached, a: nat, val: byte)
    requires Shaped(cfg, m) && a < SPACE && Held(cfg, m, a)
    ensures WriteHit(cfg, m, a, val).stats == m.stats.(bytesOut := m.stats.bytesOut + One(cfg.wpol == Through))
    ensures CountLines(WriteHit(cfg, m, a, val).sets) == CountLines(m.sets)
  {
    var s, w := SetOf(cfg, a), HomeOf(cfg, m, a);
    TouchCounts(cfg, m, s, w);
    StoreByteCounts(cfg, Touch(cfg, m, s, w), s, w, a, val);
  }

  lemma WriteMissCounts(cfg: Config, m: Cached, a: nat, val: byte, rnd: nat, out: nat)
    requires Shaped(cfg, m) && a < SPACE && !Held(cfg, m, a)
    requires cfg.writeAlloc ==> MissPending(cfg, m.stats)
    requires m.stats.bytesOut == cfg.lineBytes * m.stats.writebacks + out
    ensures var r := WriteMiss(cfg, m, a, val, rnd);
            && r.stats.bytesOut == cfg.lineBytes * r.stats.writebacks + out + One(cfg.wpol == Through || !cfg.writeAlloc)
            && r.stats.stall == m.stats.stall + cfg.missPenalty
            && (cfg.writeAlloc ==> r.stats.bytesIn == cfg.lineBytes * Fills(cfg, r.stats))
            && (!cfg.writeAlloc ==> r.stats.bytesIn == m.stats.bytesIn)
            && r.stats == m.stats.(evictions := r.stats.evictions, writebacks := r.stats.writebacks,
                                   stall := r.stats.stall, bytesIn := r.stats.bytesIn, bytesOut := r.stats.bytesOut)
  {
    if cfg.writeAlloc {
      HandleMissCounts(cfg, m, a, rnd, out);
      var (m2, w) := HandleMiss(cfg, m, a, rnd);
      StoreByteCounts(cfg, m2, SetOf(cfg, a), w, a, val);
    }
  }

  lemma DropCounts(cfg: Config, m: Cached, s: nat, w: nat)
    requires Shaped(cfg, m) && s < cfg.sets && w < cfg.ways
    ensures Drop(cfg, m, s, w).stats == m.stats
    ensures CountLines(Drop(cfg, m, s, w).sets) + One(m.sets[s][w].valid) == CountLines(m.sets)
  {
    assert SetOk(cfg, s, m.sets[s]);
    CountPut(m, s, w, m.sets[s][w].(valid := false));
  }

  lemma {:induction false} SweepSetCounts(cfg: Config, m: Cached, k: Sweep, s: nat, n: nat)
    requires Shaped(cfg, m) && s < cfg.sets && n <= cfg.ways && !k.Invalidating?
    requires Accounted(cfg, m.stats)
    ensures var r := SweepSet(cfg, m, k, s, n);
            && Accounted(cfg, r.stats)
            && r.stats == m.stats.(writebacks := r.stats.writebacks, bytesOut := r.stats.bytesOut)
            && (k.Cleaning? ==> CountLines(r.sets) == CountLines(m.sets))
            && (k.Flushing? ==> |r.sets[s]| == cfg.ways && forall w :: 0 <= w < n ==> !r.sets[s][w].valid)
            && (forall s' :: 0 <= s' < cfg.sets && s' != s ==> r.sets[s'] == m.sets[s'])
  {
    if n > 0 {
      SweepSetCounts(cfg, m, k, s, n - 1);
      var p := SweepSet(cfg, m, k, s, n - 1);
      assert SetOk(cfg, s, p.sets[s]);
      WriteBackCounts(cfg, p, s, n - 1);
    }
  }

  lemma {:induction false} SweepSetsCounts(cfg: Config, m: Cached, k: Sweep, n: nat)
    requires Shaped(cfg, m) && n <= cfg.sets && !k.Invalidating?
    requires Accounted(cfg, m.stats)
    ensures var r := SweepSets(cfg, m, k, n);
            && Accounted(cfg, r.stats)
            && r.stats == m.stats.(writebacks := r.stats.writebacks, bytesOut := r.stats.bytesOut)
            && (k.Cleaning? ==> CountLines(r.sets) == CountLines(m.sets))
            && (k.Flushing? ==> forall s, w :: 0 <= s < n && 0 <= w < |r.sets[s]| ==> !r.sets[s][w].valid)
  {
    if n > 0 {
      SweepSetsCounts(cfg, m, k, n - 1);
      SweepSetCounts(cfg, SweepSets(cfg, m, k, n - 1), k, n - 1, cfg.ways);
    }
  }

  lemma SnoopCounts(cfg: Config, m: Cached, a: nat)
    requires Shaped(cfg, m) && a < SPACE && Accounted(cfg, m.stats)
    ensures Accounted(cfg, Snoop(cfg, m, a).stats)
    ensures Balance(cfg, Snoop(cfg, m, a)) == Balance(cfg, m)
  {
    if Held(cfg, m, a) {
      var s, w := SetOf(cfg, a), HomeOf(cfg, m, a);
      assert SetOk(cfg, s, m.sets[s]);
      WriteBackCounts(cfg, m, s, w);
      DropCounts(cfg, WriteBack(cfg, m, s, w), s, w);
    }
  }

  /** Lines a step throws away without counting them anywhere: those a flush finds. */
  function Flushed(m: Cached, op: Op): nat {
    if op.FlushAll? then CountLines(m.sets) else 0
  }

  lemma StepCounts(cfg: Config, m: Cached, op: Op)
    requires Shaped(cfg, m) && OpOk(op) && Accounted(cfg, m.stats)
    ensures Accounted(cfg, Step(cfg, m, op).stats)
    ensures !op.ZeroStats? ==> Balance(cfg, Step(cfg, m, op)) + Flushed(m, op) == Balance(cfg, m)
  {
    match op
    case Load(a, rnd) =>
      ReadCounts(cfg, m, a, rnd);
      ReadLines(cfg, m, a, rnd);
    case Store(a, val, rnd) =>
      WriteCounts(cfg, m, a, val, rnd);
      WriteLines(cfg, m, a, val, rnd);
    case CleanLine(a) =>
      if Held(cfg, m, a) {
        WriteBackCounts(cfg, m, SetOf(cfg, a), HomeOf(cfg, m, a));
      }
    case SnoopLine(a) => SnoopCounts(cfg, m, a);
    case CleanAll => SweepSetsCounts(cfg, m, Cleaning, cfg.sets);
    case FlushAll =>
      SweepSetsCounts(cfg, m, Flushing, cfg.sets);
      CountNone(Step(cfg, m, op).sets);
    case ZeroStats =>
  }

  function FlushedBy(cfg: Config, m: Cached, ops: seq<Op>): nat
    requires Shaped(cfg, m) && OpsOk(ops)
    decreases |ops|
  {
    if ops == [] then 0 else Flushed(m, ops[0]) + FlushedBy(cfg, Step(cfg, m, ops[0]), ops[1..])
  }

  /** Over any run the traffic counters are determined by the hit, miss and write-back counts,
      whether or not the counters were zeroed on the way. */
  lemma {:induction false} TrafficAccounted(cfg: Config, m: Cached, ops: seq<Op>)
    requires Shaped(cfg, m) && OpsOk(ops) && Accounted(cfg, m.stats)
    ensures Accounted(cfg, Run(cfg, m, ops).0.stats)
    decreases |ops|
  {
    if ops != [] {
      StepCounts(cfg, m, ops[0]);
      TrafficAccounted(cfg, Step(cfg, m, ops[0]), ops[1..]);
    }
  }

  /** Conservation of lines: what is resident is what was filled, less evictions, snoop drops and flush drops. */
  lemma {:induction false} LinesConserved(cfg: Config, m: Cached, ops: seq<Op>)
    requires Shaped(cfg, m) && OpsOk(ops) && Accounted(cfg, m.stats)
    requires ZeroStats !in ops
    ensures Balance(cfg, Run(cfg, m, ops).0) + FlushedBy(cfg, m, ops) == Balance(cfg, m)
    decreases |ops|
  {
    if ops != [] {
      StepCounts(cfg, m, ops[0]);
      assert ops[0] in ops;
      LinesConserved(cfg, Step(cfg, m, ops[0]), ops[1..]);
    }
  }
}
