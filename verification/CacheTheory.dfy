/** The cache is invisible: what a side sees behaves like a flat array of bytes. */
module CacheTheory {
  import opened Bits
  import opened Geometry
  import opened CacheModel

  ghost predicate Covers(cfg: Config, m: Cached, s: nat, w: nat, a: nat)
    requires Shaped(cfg, m) && s < cfg.sets && w < cfg.ways
  {
    assert SetOk(cfg, s, m.sets[s]);
    && m.sets[s][w].valid
    && m.sets[s][w].base <= a < m.sets[s][w].base + cfg.lineBytes
  }

  /** A line covering `a` is the one the search for `a` finds, and the only one. */
  lemma CoverFound(cfg: Config, m: Cached, s: nat, w: nat, a: nat)
    requires Shaped(cfg, m) && s < cfg.sets && w < cfg.ways && a < SPACE
    requires Covers(cfg, m, s, w, a)
    ensures s == SetOf(cfg, a) && m.sets[s][w].tag == TagOf(cfg, a) && OffOf(cfg, a) == a - m.sets[s][w].base
    ensures FindWay(m.sets[s], TagOf(cfg, a)) == w
  {
    assert SetOk(cfg, s, m.sets[s]);
    assert Placed(cfg, s, m.sets[s][w]);
    SameLine(cfg, m.sets[s][w].base, a);
  }

  /** If the search succeeds, the line found covers `a`. */
  lemma FoundCovers(cfg: Config, m: Cached, a: nat)
    requires Shaped(cfg, m) && a < SPACE && Held(cfg, m, a)
    ensures Covers(cfg, m, SetOf(cfg, a), HomeOf(cfg, m, a), a)
    ensures OffOf(cfg, a) == a - m.sets[SetOf(cfg, a)][HomeOf(cfg, m, a)].base
  {
    var s := SetOf(cfg, a);
    var w := HomeOf(cfg, m, a);
    assert SetOk(cfg, s, m.sets[s]);
    assert Placed(cfg, s, m.sets[s][w]);
    SameLine(cfg, m.sets[s][w].base, a);
  }

  /** Replacing the contents of one way changes only the addresses its old and new line cover. */
  lemma PutSpot(cfg: Config, m: Cached, r: Cached, s: nat, w: nat, x: Slot, a: nat)
    requires Shaped(cfg, m) && Shaped(cfg, r) && s < cfg.sets && w < cfg.ways && a < SPACE
    requires r.sets == Put(m, s, w, x).sets
    ensures !Covers(cfg, m, s, w, a) && !Covers(cfg, r, s, w, a) ==>
      SpotAt(cfg, r, a) == if SpotAt(cfg, m, a).held then SpotAt(cfg, m, a).(mem := r.mem[a]) else Spot(false, false, r.mem[a], r.mem[a])
    ensures Covers(cfg, m, s, w, a) && !Covers(cfg, r, s, w, a) ==> SpotAt(cfg, r, a) == Spot(false, false, r.mem[a], r.mem[a])
    ensures Covers(cfg, r, s, w, a) ==> SpotAt(cfg, r, a) == Spot(true, x.dirty, x.data[a - x.base], r.mem[a])
    ensures Covers(cfg, m, s, w, a) ==>
      SpotAt(cfg, m, a) == Spot(true, m.sets[s][w].dirty, m.sets[s][w].data[a - m.sets[s][w].base], m.mem[a])
  {
    assert SetOk(cfg, s, m.sets[s]) && SetOk(cfg, s, r.sets[s]);
    if Covers(cfg, m, s, w, a) {
      CoverFound(cfg, m, s, w, a);
    }
    if Covers(cfg, r, s, w, a) {
      CoverFound(cfg, r, s, w, a);
    } else {
      var s', t := SetOf(cfg, a), TagOf(cfg, a);
      assert SetOk(cfg, s', m.sets[s']) && SetOk(cfg, s', r.sets[s']);
      if SpotAt(cfg, m, a).held {
        FoundCovers(cfg, m, a);
        if !Covers(cfg, m, s, w, a) {
          assert Covers(cfg, r, s', FindWay(m.sets[s'], t), a);
          CoverFound(cfg, r, s', FindWay(m.sets[s'], t), a);
        } else if SpotAt(cfg, r, a).held {
          FoundCovers(cfg, r, a);
        }
      } else if SpotAt(cfg, r, a).held {
        FoundCovers(cfg, r, a);
      }
    }
  }

  lemma PutSame(m: Cached, s: nat, w: nat)
    requires s < |m.sets| && w < |m.sets[s]|
    ensures Put(m, s, w, m.sets[s][w]).sets == m.sets
  {
    assert m.sets[s][w := m.sets[s][w]] == m.sets[s];
  }

  /** Pushing one line out changes no byte any access sees; memory gains exactly that line's dirty bytes. */
  lemma WriteBackSpot(cfg: Config, m: Cached, s: nat, w: nat, a: nat)
    requires Shaped(cfg, m) && s < cfg.sets && w < cfg.ways && a < SPACE
    ensures var o, n := SpotAt(cfg, m, a), SpotAt(cfg, WriteBack(cfg, m, s, w), a);
            if Covers(cfg, m, s, w, a) && o.dirty then n == Spot(true, false, o.seen, o.seen) else n == o
  {
    assert SetOk(cfg, s, m.sets[s]);
    var r := WriteBack(cfg, m, s, w);
    PutSame(m, s, w);
    PutSpot(cfg, m, r, s, w, r.sets[s][w], a);
  }

  lemma DropSpot(cfg: Config, m: Cached, s: nat, w: nat, a: nat)
    requires Shaped(cfg, m) && s < cfg.sets && w < cfg.ways && a < SPACE
    ensures var o, n := SpotAt(cfg, m, a), SpotAt(cfg, Drop(cfg, m, s, w), a);
            if Covers(cfg, m, s, w, a) then n == Spot(false, false, o.mem, o.mem) else n == o
  {
    assert SetOk(cfg, s, m.sets[s]);
    var r := Drop(cfg, m, s, w);
    PutSpot(cfg, m, r, s, w, r.sets[s][w], a);
  }

  lemma TouchSpot(cfg: Config, m: Cached, s: nat, w: nat, a: nat)
    requires Shaped(cfg, m) && s < cfg.sets && w < cfg.ways && a < SPACE
    ensures SpotAt(cfg, Touch(cfg, m, s, w), a) == SpotAt(cfg, m, a)
  {
    assert SetOk(cfg, s, m.sets[s]);
    var r := Touch(cfg, m, s, w);
    PutSame(m, s, w);
    PutSpot(cfg, m, r, s, w, r.sets[s][w], a);
  }

  /** A refill loads the line of `b` from memory and forgets the line it replaces. */
  lemma RefillSpot(cfg: Config, m: Cached, w: nat, b: nat, a: nat)
    requires Shaped(cfg, m) && b < SPACE && w < cfg.ways && !Held(cfg, m, b) && a < SPACE
    ensures var o, n := SpotAt(cfg, m, a), SpotAt(cfg, Refill(cfg, m, w, b), a);
            if BaseOf(cfg, a) == BaseOf(cfg, b) then n == Spot(true, false, o.mem, o.mem)
            else if Covers(cfg, m, SetOf(cfg, b), w, a) then n == Spot(false, false, o.mem, o.mem)
            else n == o
  {
    var s := SetOf(cfg, b);
    var r := Refill(cfg, m, w, b);
    assert SetOk(cfg, s, m.sets[s]) && SetOk(cfg, s, r.sets[s]);
    PutSpot(cfg, m, r, s, w, r.sets[s][w], a);
    SameLine(cfg, b, a);
  }

  lemma StoreByteSpot(cfg: Config, m: Cached, s: nat, w: nat, b: nat, val: byte, a: nat)
    requires Shaped(cfg, m) && s < cfg.sets && w < cfg.ways && a < SPACE && b < SPACE && Covers(cfg, m, s, w, b)
    ensures var o, n := SpotAt(cfg, m, a), SpotAt(cfg, StoreByte(cfg, m, s, w, b, val), a);
            && n.held == o.held
            && n.seen == (if a == b then val else o.seen)
            && n.mem == (if a == b && cfg.wpol == Through then val else o.mem)
            && n.dirty == (o.dirty || (cfg.wpol == Back && BaseOf(cfg, a) == BaseOf(cfg, b)))
  {
    assert SetOk(cfg, s, m.sets[s]);
    var r := StoreByte(cfg, m, s, w, b, val);
    CoverFound(cfg, m, s, w, b);
    assert m.sets[s][w].base == BaseOf(cfg, b);
    SameLine(cfg, b, a);
    PutSpot(cfg, m, r, s, w, r.sets[s][w], a);
  }

  /** What is left of an address whose line has been pushed out and forgotten. */
  function Gone(o: Spot): Spot {
    var p := if o.dirty then o.seen else o.mem;
    Spot(false, false, p, p)
  }

  /** Would bringing in the line of `b` push out the line covering `a`: is that the line `pick_victim` chooses? */
  ghost predicate PushedOut(cfg: Config, m: Cached, b: nat, rnd: nat, a: nat)
    requires Shaped(cfg, m) && b < SPACE && a < SPACE
  {
    var s := SetOf(cfg, b);
    assert SetOk(cfg, s, m.sets[s]);
    !Held(cfg, m, b) && Covers(cfg, m, s, PickVictim(cfg, m.sets[s], rnd), a)
  }

  /** A miss brings in the line of `b`; the victim's line, if valid, is pushed out first; no other line changes. */
  lemma HandleMissSpot(cfg: Config, m: Cached, b: nat, rnd: nat, a: nat)
    requires Shaped(cfg, m) && b < SPACE && !Held(cfg, m, b) && a < SPACE
    ensures var (r, w) := HandleMiss(cfg, m, b, rnd);
            var o, n := SpotAt(cfg, m, a), SpotAt(cfg, r, a);
            && Covers(cfg, r, SetOf(cfg, b), w, b)
            && if BaseOf(cfg, a) == BaseOf(cfg, b) then n == Spot(true, false, o.mem, o.mem) && !o.held
               else n == if PushedOut(cfg, m, b, rnd, a) then Gone(o) else o
  {
    var s := SetOf(cfg, b);
    assert SetOk(cfg, s, m.sets[s]);
    var w := PickVictim(cfg, m.sets[s], rnd);
    var m1 := Evict(cfg, m, s, w);
    assert !Held(cfg, m1, b);
    var r := HandleMiss(cfg, m, b, rnd).0;
    SameLine(cfg, a, b);
    EvictSpot(cfg, m, s, w, a);
    RefillSpot(cfg, m1, w, b, a);
    assert r.sets == Refill(cfg, m1, w, b).sets && r.mem == Refill(cfg, m1, w, b).mem;
    LineBounds(cfg, b);
  }

  lemma EvictSpot(cfg: Config, m: Cached, s: nat, w: nat, a: nat)
    requires Shaped(cfg, m) && s < cfg.sets && w < cfg.ways && a < SPACE
    ensures var o, n := SpotAt(cfg, m, a), SpotAt(cfg, Evict(cfg, m, s, w), a);
            if Covers(cfg, m, s, w, a) && o.dirty then n == Spot(true, false, o.seen, o.seen) else n == o
    ensures Covers(cfg, m, s, w, a) <==> Covers(cfg, Evict(cfg, m, s, w), s, w, a)
    ensures Evict(cfg, m, s, w).sets[s][w].valid ==> !Evict(cfg, m, s, w).sets[s][w].dirty
  {
    WriteBackSpot(cfg, m, s, w, a);
  }

  lemma SameContents(cfg: Config, m: Cached, r: Cached, a: nat)
    requires Shaped(cfg, m) && a < SPACE && r.sets == m.sets && r.mem == m.mem
    ensures Shaped(cfg, r) && SpotAt(cfg, r, a) == SpotAt(cfg, m, a) && Held(cfg, r, a) == Held(cfg, m, a)
  {
  }

  /** The effect of reading `b`, seen from `a`. */
  ghost predicate Fetched(cfg: Config, m: Cached, r: Cached, b: nat, a: nat)
    requires Shaped(cfg, m) && Shaped(cfg, r) && b < SPACE && a < SPACE
  {
    var o, n := SpotAt(cfg, m, a), SpotAt(cfg, r, a);
    if BaseOf(cfg, a) == BaseOf(cfg, b) then n == o.(held := true) else n == o || n == Gone(o)
  }

  /** `cache_read` at `b`, seen from any address `a`. */
  lemma ReadSpot(cfg: Config, m: Cached, b: nat, rnd: nat, a: nat)
    requires Shaped(cfg, m) && b < SPACE && a < SPACE
    ensures Read(cfg, m, b, rnd).1 == Look(cfg, m, b)
    ensures Fetched(cfg, m, Read(cfg, m, b, rnd).0, b, a)
  {
    hide SetOf, TagOf, OffOf, BaseOf, SetOk, FindWay, Valid, ReadHit, ReadMiss;
    if Held(cfg, m, b) {
      var m1 := m.(stats := m.stats.(nReads := m.stats.nReads + 1, readHit := m.stats.readHit + 1));
      SameContents(cfg, m, m1, a);
      ReadHitSpot(cfg, m1, b, a);
    } else {
      var m1 := m.(stats := m.stats.(nReads := m.stats.nReads + 1, readMiss := m.stats.readMiss + 1));
      SameContents(cfg, m, m1, a);
      ReadMissSpot(cfg, m1, b, rnd, a);
    }
  }

  lemma ReadHitSpot(cfg: Config, m: Cached, b: nat, a: nat)
    requires Shaped(cfg, m) && b < SPACE && a < SPACE && Held(cfg, m, b)
    ensures ReadHit(cfg, m, b).1 == Look(cfg, m, b)
    ensures Fetched(cfg, m, ReadHit(cfg, m, b).0, b, a)
  {
    TouchSpot(cfg, m, SetOf(cfg, b), HomeOf(cfg, m, b), a);
    SameLine(cfg, a, b);
  }

  lemma ReadMissSpot(cfg: Config, m: Cached, b: nat, rnd: nat, a: nat)
    requires Shaped(cfg, m) && b < SPACE && !Held(cfg, m, b) && a < SPACE
    ensures ReadMiss(cfg, m, b, rnd).1 == Look(cfg, m, b)
    ensures Fetched(cfg, m, ReadMiss(cfg, m, b, rnd).0, b, a)
  {
    var (r, w) := HandleMiss(cfg, m, b, rnd);
    HandleMissSpot(cfg, m, b, rnd, a);
    HandleMissSpot(cfg, m, b, rnd, b);
    CoverFound(cfg, r, SetOf(cfg, b), w, b);
    SameLine(cfg, a, b);
  }

  /** Does a store to `b` leave its byte in a line of this cache only? */
  predicate KeptBack(cfg: Config, m: Cached, b: nat)
    requires Shaped(cfg, m) && b < SPACE
  {
    cfg.wpol == Back && (cfg.writeAlloc || Held(cfg, m, b))
  }

  /** The effect of storing `val` at `b`, seen from `a`. */
  ghost predicate Stored(cfg: Config, m: Cached, r: Cached, b: nat, val: byte, a: nat)
    requires Shaped(cfg, m) && Shaped(cfg, r) && b < SPACE && a < SPACE
  {
    StoredSpot(cfg, KeptBack(cfg, m, b), b, val, a, SpotAt(cfg, m, a), SpotAt(cfg, r, a))
  }

  ghost predicate StoredSpot(cfg: Config, kept: bool, b: nat, val: byte, a: nat, o: Spot, n: Spot)
    requires cfg.lineBytes > 0
  {
    if BaseOf(cfg, a) == BaseOf(cfg, b) then
      && n.held == (o.held || cfg.writeAlloc)
      && n.seen == (if a == b then val else o.seen)
      && n.mem == (if a == b && !kept then val else o.mem)
      && n.dirty == (o.dirty || kept)
    else n == o || n == Gone(o)
  }

  /** `cache_write` at `b`, seen from any address `a`. */
  lemma WriteSpot(cfg: Config, m: Cached, b: nat, val: byte, rnd: nat, a: nat)
    requires Shaped(cfg, m) && b < SPACE && a < SPACE
    ensures Stored(cfg, m, Write(cfg, m, b, val, rnd), b, val, a)
  {
    var r := Write(cfg, m, b, val, rnd);
    var n := m.stats.nWrites + 1;
    if Held(cfg, m, b) {
      var m1 := m.(stats := m.stats.(nWrites := n, writeHit := m.stats.writeHit + 1));
      SameContents(cfg, m, m1, a);
      SameContents(cfg, m, m1, b);
      assert r == WriteHit(cfg, m1, b, val);
      WriteHitSpot(cfg, m1, b, val, a);
    } else {
      var m1 := m.(stats := m.stats.(nWrites := n, writeMiss := m.stats.writeMiss + 1));
      SameContents(cfg, m, m1, a);
      SameContents(cfg, m, m1, b);
      assert r == WriteMiss(cfg, m1, b, val, rnd);
      WriteMissSpot(cfg, m1, b, val, rnd, a);
    }
  }

  lemma WriteHitSpot(cfg: Config, m: Cached, b: nat, val: byte, a: nat)
    requires Shaped(cfg, m) && b < SPACE && a < SPACE && Held(cfg, m, b)
    ensures Stored(cfg, m, WriteHit(cfg, m, b, val), b, val, a)
  {
    var s, w := SetOf(cfg, b), HomeOf(cfg, m, b);
    assert SetOk(cfg, s, m.sets[s]);
    FoundCovers(cfg, m, b);
    TouchSpot(cfg, m, s, w, a);
    assert Covers(cfg, Touch(cfg, m, s, w), s, w, b);
    StoreByteSpot(cfg, Touch(cfg, m, s, w), s, w, b, val, a);
    SameLine(cfg, a, b);
  }

  lemma WriteMissSpot(cfg: Config, m: Cached, b: nat, val: byte, rnd: nat, a: nat)
    requires Shaped(cfg, m) && b < SPACE && a < SPACE && !Held(cfg, m, b)
    ensures Stored(cfg, m, WriteMiss(cfg, m, b, val, rnd), b, val, a)
  {
    SameLine(cfg, a, b);
    if cfg.writeAlloc {
      var (r, w) := HandleMiss(cfg, m, b, rnd);
      HandleMissSpot(cfg, m, b, rnd, a);
      StoreByteSpot(cfg, r, SetOf(cfg, b), w, b, val, a);
    }
  }

  /** A store seen from outside its line: the line a write-allocating miss pushes out goes to memory and is forgotten,
      everything else stays exactly as it was. */
  lemma WriteElsewhere(cfg: Config, m: Cached, b: nat, val: byte, rnd: nat, a: nat)
    requires Shaped(cfg, m) && b < SPACE && a < SPACE && BaseOf(cfg, a) != BaseOf(cfg, b)
    ensures var o := SpotAt(cfg, m, a);
            SpotAt(cfg, Write(cfg, m, b, val, rnd), a) == if cfg.writeAlloc && PushedOut(cfg, m, b, rnd, a) then Gone(o) else o
  {
    hide SpotAt, FindWay, DistinctTags;
    var n := m.stats.nWrites + 1;
    if Held(cfg, m, b) {
      var m1 := m.(stats := m.stats.(nWrites := n, writeHit := m.stats.writeHit + 1));
      SameContents(cfg, m, m1, a);
      SameContents(cfg, m, m1, b);
      HitElsewhere(cfg, m1, b, val, a);
    } else {
      var m1 := m.(stats := m.stats.(nWrites := n, writeMiss := m.stats.writeMiss + 1));
      SameContents(cfg, m, m1, a);
      SameContents(cfg, m, m1, b);
      MissElsewhere(cfg, m1, b, val, rnd, a);
      assert PushedOut(cfg, m1, b, rnd, a) == PushedOut(cfg, m, b, rnd, a);
    }
  }

  lemma HitElsewhere(cfg: Config, m: Cached, b: nat, val: byte, a: nat)
    requires Shaped(cfg, m) && b < SPACE && a < SPACE && Held(cfg, m, b) && BaseOf(cfg, a) != BaseOf(cfg, b)
    ensures SpotAt(cfg, WriteHit(cfg, m, b, val), a) == SpotAt(cfg, m, a)
  {
    hide SpotAt, FindWay, DistinctTags;
    var s, w := SetOf(cfg, b), HomeOf(cfg, m, b);
    assert SetOk(cfg, s, m.sets[s]);
    FoundCovers(cfg, m, b);
    TouchSpot(cfg, m, s, w, a);
    assert Covers(cfg, Touch(cfg, m, s, w), s, w, b);
    StoreByteElsewhere(cfg, Touch(cfg, m, s, w), s, w, b, val, a);
  }

  lemma MissElsewhere(cfg: Config, m: Cached, b: nat, val: byte, rnd: nat, a: nat)
    requires Shaped(cfg, m) && b < SPACE && a < SPACE && !Held(cfg, m, b) && BaseOf(cfg, a) != BaseOf(cfg, b)
    ensures var o := SpotAt(cfg, m, a);
            SpotAt(cfg, WriteMiss(cfg, m, b, val, rnd), a) == if cfg.writeAlloc && PushedOut(cfg, m, b, rnd, a) then Gone(o) else o
  {
    if cfg.writeAlloc {
      hide SpotAt, FindWay, DistinctTags, HandleMiss;
      var (r, w) := HandleMiss(cfg, m, b, rnd);
      HandleMissSpot(cfg, m, b, rnd, a);
      StoreByteElsewhere(cfg, r, SetOf(cfg, b), w, b, val, a);
    }
  }

  lemma StoreByteElsewhere(cfg: Config, m: Cached, s: nat, w: nat, b: nat, val: byte, a: nat)
    requires Shaped(cfg, m) && s < cfg.sets && w < cfg.ways && a < SPACE && b < SPACE && Covers(cfg, m, s, w, b)
    requires BaseOf(cfg, a) != BaseOf(cfg, b)
    ensures SpotAt(cfg, StoreByte(cfg, m, s, w, b, val), a) == SpotAt(cfg, m, a)
  {
    StoreByteSpot(cfg, m, s, w, b, val, a);
  }

  /** What a maintenance sweep leaves of an address whose line it visits. */
  function Swept(k: Sweep, o: Spot): Spot {
    match k
    case Cleaning => if o.dirty then Spot(true, false, o.seen, o.seen) else o
    case Flushing => Gone(o)
    case Invalidating => Spot(false, false, o.mem, o.mem)
  }

  lemma SweepLineSpot(cfg: Config, m: Cached, k: Sweep, s: nat, w: nat, a: nat)
    requires Shaped(cfg, m) && s < cfg.sets && w < cfg.ways && a < SPACE
    ensures SpotAt(cfg, SweepLine(cfg, m, k, s, w), a) ==
      if Covers(cfg, m, s, w, a) then Swept(k, SpotAt(cfg, m, a)) else SpotAt(cfg, m, a)
  {
    assert SetOk(cfg, s, m.sets[s]);
    if Covers(cfg, m, s, w, a) {
      CoverFound(cfg, m, s, w, a);
    }
    match k
    case Cleaning => WriteBackSpot(cfg, m, s, w, a);
    case Flushing =>
      WriteBackSpot(cfg, m, s, w, a);
      DropSpot(cfg, WriteBack(cfg, m, s, w), s, w, a);
    case Invalidating =>
      var r := SweepLine(cfg, m, k, s, w);
      PutSpot(cfg, m, r, s, w, r.sets[s][w], a);
  }

  lemma {:induction false} SweepSetFrame(cfg: Config, m: Cached, k: Sweep, s: nat, n: nat)
    requires Shaped(cfg, m) && s < cfg.sets && n <= cfg.ways
    ensures forall s' :: 0 <= s' < cfg.sets && s' != s ==> SweepSet(cfg, m, k, s, n).sets[s'] == m.sets[s']
    ensures forall w :: n <= w < cfg.ways ==> SweepSet(cfg, m, k, s, n).sets[s][w] == m.sets[s][w]
  {
    assert SetOk(cfg, s, m.sets[s]);
    if n > 0 {
      SweepSetFrame(cfg, m, k, s, n - 1);
      assert SetOk(cfg, s, SweepSet(cfg, m, k, s, n - 1).sets[s]);
    }
  }

  lemma {:induction false} SweepSetSpot(cfg: Config, m: Cached, k: Sweep, s: nat, n: nat, a: nat)
    requires Shaped(cfg, m) && s < cfg.sets && n <= cfg.ways && a < SPACE
    ensures SpotAt(cfg, SweepSet(cfg, m, k, s, n), a) ==
      if Held(cfg, m, a) && SetOf(cfg, a) == s && HomeOf(cfg, m, a) < n then Swept(k, SpotAt(cfg, m, a)) else SpotAt(cfg, m, a)
  {
    hide SetOf, TagOf, OffOf, BaseOf, SetOk, SweepLine, FindWay, Valid;
    if n > 0 {
      var p := SweepSet(cfg, m, k, s, n - 1);
      SweepSetSpot(cfg, m, k, s, n - 1, a);
      SweepSetFrame(cfg, m, k, s, n - 1);
      SweepLineSpot(cfg, p, k, s, n - 1, a);
      assert Covers(cfg, p, s, n - 1, a) == Covers(cfg, m, s, n - 1, a);
      CoversIff(cfg, m, s, n - 1, a);
    }
  }

  lemma CoversIff(cfg: Config, m: Cached, s: nat, w: nat, a: nat)
    requires Shaped(cfg, m) && s < cfg.sets && w < cfg.ways && a < SPACE
    ensures Covers(cfg, m, s, w, a) <==> Held(cfg, m, a) && SetOf(cfg, a) == s && HomeOf(cfg, m, a) == w
  {
    if Covers(cfg, m, s, w, a) {
      CoverFound(cfg, m, s, w, a);
    }
    if Held(cfg, m, a) {
      FoundCovers(cfg, m, a);
    }
  }

  lemma {:induction false} SweepSetsSpot(cfg: Config, m: Cached, k: Sweep, n: nat, a: nat)
    requires Shaped(cfg, m) && n <= cfg.sets && a < SPACE
    ensures var r := SweepSets(cfg, m, k, n);
            && (forall s :: n <= s < cfg.sets ==> r.sets[s] == m.sets[s])
            && SpotAt(cfg, r, a) ==
                 if Held(cfg, m, a) && SetOf(cfg, a) < n then Swept(k, SpotAt(cfg, m, a)) else SpotAt(cfg, m, a)
  {
    hide SetOf, TagOf, OffOf, BaseOf, SetOk, SweepSet, FindWay, Valid;
    if n > 0 {
      var p := SweepSets(cfg, m, k, n - 1);
      SweepSetsSpot(cfg, m, k, n - 1, a);
      SweepSetSpot(cfg, p, k, n - 1, cfg.ways, a);
      SweepSetFrame(cfg, p, k, n - 1, cfg.ways);
      assert p.sets[n - 1] == m.sets[n - 1];
    }
  }

  /** A sweep over the whole cache does the same thing to every address. */
  lemma SweepAllSpot(cfg: Config, m: Cached, k: Sweep, a: nat)
    requires Shaped(cfg, m) && a < SPACE
    ensures SpotAt(cfg, SweepAll(cfg, m, k), a) == Swept(k, SpotAt(cfg, m, a))
  {
    SweepSetsSpot(cfg, m, k, cfg.sets, a);
  }

  lemma CleanAddrSpot(cfg: Config, m: Cached, b: nat, a: nat)
    requires Shaped(cfg, m) && b < SPACE && a < SPACE
    ensures SpotAt(cfg, CleanAddr(cfg, m, b), a) ==
      if BaseOf(cfg, a) == BaseOf(cfg, b) then Swept(Cleaning, SpotAt(cfg, m, a)) else SpotAt(cfg, m, a)
  {
    SameLine(cfg, a, b);
    if Held(cfg, m, b) {
      FoundCovers(cfg, m, b);
      WriteBackSpot(cfg, m, SetOf(cfg, b), HomeOf(cfg, m, b), a);
      CoversAllOfLine(cfg, m, b, a);
    }
  }

  lemma CoversAllOfLine(cfg: Config, m: Cached, b: nat, a: nat)
    requires Shaped(cfg, m) && b < SPACE && a < SPACE && Held(cfg, m, b)
    ensures Covers(cfg, m, SetOf(cfg, b), HomeOf(cfg, m, b), a) <==> BaseOf(cfg, a) == BaseOf(cfg, b)
  {
    FoundCovers(cfg, m, b);
    var x := m.sets[SetOf(cfg, b)][HomeOf(cfg, m, b)];
    assert x.base == BaseOf(cfg, b);
    SameLine(cfg, b, a);
  }

  lemma SnoopSpot(cfg: Config, m: Cached, b: nat, a: nat)
    requires Shaped(cfg, m) && b < SPACE && a < SPACE
    ensures SpotAt(cfg, Snoop(cfg, m, b), a) ==
      if BaseOf(cfg, a) == BaseOf(cfg, b) then Gone(SpotAt(cfg, m, a)) else SpotAt(cfg, m, a)
  {
    SameLine(cfg, a, b);
    if Held(cfg, m, b) {
      var s, w := SetOf(cfg, b), HomeOf(cfg, m, b);
      CoversAllOfLine(cfg, m, b, a);
      WriteBackSpot(cfg, m, s, w, a);
      var m1 := WriteBack(cfg, m, s, w);
      assert Covers(cfg, m1, s, w, a) == Covers(cfg, m, s, w, a);
      DropSpot(cfg, m1, s, w, a);
    }
  }
}
