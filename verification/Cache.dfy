/** The cache as the program keeps it: line descriptors and data bytes in two flat buffers, updated in place. */
module CacheImpl {
  import opened Bits
  import opened Geometry
  import opened CacheModel

  /** A line descriptor; its bytes live in the data store. */
  datatype Line = Line(tag: nat, valid: bool, dirty: bool, stamp: nat, base: nat)

  const BLANK := Line(0, false, false, 0, 0)

  /** Way `w` of set `s` in a buffer laid out set by set. */
  function SlotIndex(cfg: Config, s: nat, w: nat): nat {
    s * cfg.ways + w
  }

  lemma IndexBounds(cfg: Config, s: nat, w: nat)
    requires s < cfg.sets && w < cfg.ways
    ensures SlotIndex(cfg, s, w) < cfg.sets * cfg.ways
    ensures SlotIndex(cfg, s, w) * cfg.lineBytes + cfg.lineBytes <= cfg.sets * cfg.ways * cfg.lineBytes
  {
    MulMono(cfg.ways, s + 1, cfg.sets);
    MulMono(cfg.lineBytes, SlotIndex(cfg, s, w) + 1, cfg.sets * cfg.ways);
  }

  lemma IndexDistinct(cfg: Config, s: nat, w: nat, s': nat, w': nat)
    requires w < cfg.ways && w' < cfg.ways && (s, w) != (s', w')
    ensures SlotIndex(cfg, s, w) != SlotIndex(cfg, s', w')
    ensures Apart(SlotIndex(cfg, s, w), SlotIndex(cfg, s', w'), cfg.lineBytes)
  {
    var k, k' := SlotIndex(cfg, s, w), SlotIndex(cfg, s', w');
    MulOrder(cfg.ways, s, s');
    MulOrder(cfg.ways, s', s);
    BlocksApart(k, k', cfg.lineBytes);
  }

  /** Blocks number `k` and `k'` of `n` bytes do not overlap. */
  ghost predicate Apart(k: nat, k': nat, n: nat) {
    k * n + n <= k' * n || k' * n + n <= k * n
  }

  lemma BlocksApart(k: nat, k': nat, n: nat)
    requires k != k'
    ensures Apart(k, k', n)
  {
    if k < k' { MulMono(n, k + 1, k'); } else { MulMono(n, k' + 1, k); }
  }

  /** The buffers are large enough for the geometry. */
  ghost predicate Fits(cfg: Config, lines: seq<Line>, data: seq<byte>) {
    && Valid(cfg)
    && cfg.sets * cfg.ways <= |lines|
    && |data| == cfg.sets * cfg.ways * cfg.lineBytes
  }

  function Filled(l: Line, bytes: seq<byte>): Slot {
    Slot(l.tag, l.valid, l.dirty, l.stamp, l.base, bytes)
  }

  /** Where the bytes of way `w` of set `s` start. */
  function DataIndex(cfg: Config, s: nat, w: nat): nat {
    SlotIndex(cfg, s, w) * cfg.lineBytes
  }

  function SlotOf(cfg: Config, lines: seq<Line>, data: seq<byte>, s: nat, w: nat): (x: Slot)
    requires Fits(cfg, lines, data) && s < cfg.sets && w < cfg.ways
    ensures |x.data| == cfg.lineBytes
  {
    IndexBounds(cfg, s, w);
    Filled(lines[SlotIndex(cfg, s, w)], data[DataIndex(cfg, s, w)..][..cfg.lineBytes])
  }

  function WaysOf(cfg: Config, lines: seq<Line>, data: seq<byte>, s: nat): (xs: seq<Slot>)
    requires Fits(cfg, lines, data) && s < cfg.sets
    ensures |xs| == cfg.ways && forall w :: 0 <= w < cfg.ways ==> xs[w] == SlotOf(cfg, lines, data, s, w)
  {
    seq(cfg.ways, w requires 0 <= w < cfg.ways => SlotOf(cfg, lines, data, s, w))
  }

  /** The sets the two flat buffers stand for. */
  function SetsOf(cfg: Config, lines: seq<Line>, data: seq<byte>): (ss: seq<seq<Slot>>)
    requires Fits(cfg, lines, data)
    ensures |ss| == cfg.sets && forall s :: 0 <= s < cfg.sets ==> ss[s] == WaysOf(cfg, lines, data, s)
  {
    seq(cfg.sets, s requires 0 <= s < cfg.sets => WaysOf(cfg, lines, data, s))
  }

  lemma SpliceOutside(data: seq<byte>, bytes: seq<byte>, b: nat, k: nat, n: nat)
    requires b + n <= |data| && k + |bytes| <= |data| && (b + n <= k || k + |bytes| <= b)
    ensures Splice(data, k, bytes)[b..][..n] == data[b..][..n]
  {
  }

  lemma SpliceInside(data: seq<byte>, bytes: seq<byte>, k: nat)
    requires k + |bytes| <= |data|
    ensures Splice(data, k, bytes)[k..][..|bytes|] == bytes
  {
  }

  lemma OtherSlot(cfg: Config, lines: seq<Line>, data: seq<byte>, s: nat, w: nat, l: Line, bytes: seq<byte>, s': nat, w': nat)
    requires Fits(cfg, lines, data) && s < cfg.sets && w < cfg.ways && s' < cfg.sets && w' < cfg.ways
    requires |bytes| == cfg.lineBytes && (s, w) != (s', w')
    requires SlotIndex(cfg, s, w) < |lines| && DataIndex(cfg, s, w) + cfg.lineBytes <= |data|
    ensures Fits(cfg, lines[SlotIndex(cfg, s, w) := l], Splice(data, DataIndex(cfg, s, w), bytes))
    ensures SlotOf(cfg, lines[SlotIndex(cfg, s, w) := l], Splice(data, DataIndex(cfg, s, w), bytes), s', w') == SlotOf(cfg, lines, data, s', w')
  {
    IndexBounds(cfg, s', w');
    IndexDistinct(cfg, s, w, s', w');
    SpliceOutside(data, bytes, DataIndex(cfg, s', w'), DataIndex(cfg, s, w), cfg.lineBytes);
  }

  /** Overwriting one descriptor and its bytes replaces exactly that slot. */
  lemma OneSlot(cfg: Config, lines: seq<Line>, data: seq<byte>, s: nat, w: nat, l: Line, bytes: seq<byte>)
    requires Fits(cfg, lines, data) && s < cfg.sets && w < cfg.ways && |bytes| == cfg.lineBytes
    ensures SlotIndex(cfg, s, w) < |lines| && DataIndex(cfg, s, w) + cfg.lineBytes <= |data|
    ensures Fits(cfg, lines[SlotIndex(cfg, s, w) := l], Splice(data, DataIndex(cfg, s, w), bytes))
    ensures SetsOf(cfg, lines[SlotIndex(cfg, s, w) := l], Splice(data, DataIndex(cfg, s, w), bytes)) ==
              SetsOf(cfg, lines, data)[s := SetsOf(cfg, lines, data)[s][w := Filled(l, bytes)]]
  {
    IndexBounds(cfg, s, w);
    var lines', data' := lines[SlotIndex(cfg, s, w) := l], Splice(data, DataIndex(cfg, s, w), bytes);
    var ss, tt := SetsOf(cfg, lines', data'), SetsOf(cfg, lines, data);
    SpliceInside(data, bytes, DataIndex(cfg, s, w));
    forall s' | 0 <= s' < cfg.sets
      ensures ss[s'] == if s' == s then tt[s][w := Filled(l, bytes)] else tt[s']
    {
      forall w' | 0 <= w' < cfg.ways && (s', w') != (s, w)
        ensures ss[s'][w'] == tt[s'][w']
      {
        OtherSlot(cfg, lines, data, s, w, l, bytes, s', w');
      }
    }
  }

  /** Overwriting one descriptor alone. */
  lemma OneLine(cfg: Config, lines: seq<Line>, data: seq<byte>, s: nat, w: nat, l: Line)
    requires Fits(cfg, lines, data) && s < cfg.sets && w < cfg.ways
    ensures SlotIndex(cfg, s, w) < |lines|
    ensures Fits(cfg, lines[SlotIndex(cfg, s, w) := l], data)
    ensures var ss := SetsOf(cfg, lines, data);
            SetsOf(cfg, lines[SlotIndex(cfg, s, w) := l], data) == ss[s := ss[s][w := Filled(l, ss[s][w].data)]]
  {
    IndexBounds(cfg, s, w);
    var bytes := data[DataIndex(cfg, s, w)..][..cfg.lineBytes];
    assert Splice(data, DataIndex(cfg, s, w), bytes) == data;
    assert SetsOf(cfg, lines, data)[s][w] == SlotOf(cfg, lines, data, s, w);
    OneSlot(cfg, lines, data, s, w, l, bytes);
  }

  /** The byte loop of `writeback`. */
  method CopyOut(src: array<byte>, from: nat, bs: array<byte>, base: nat, n: nat)
    requires src != bs && from + n <= src.Length && base + n <= bs.Length
    modifies bs
    ensures bs[..] == Splice(old(bs[..]), base, src[from..][..n])
  {
    var i := 0;
    while i < n
      invariant 0 <= i <= n
      invariant bs[..] == Splice(old(bs[..]), base, src[from..][..i])
    {
      bs[base + i] := src[from + i];
      i := i + 1;
    }
  }

  /** Why `cache_config` refuses a geometry. */
  datatype ConfigError = BadLineSize | NoWays | TooSmall | NotWholeSets | SetsNotPower | TooManyLines | TooLarge

  datatype ConfigResult = Accepted(sets: nat) | Refused(error: ConfigError)

  /** The checks of `cache_config`, in its order. */
  function CheckGeometry(size: nat, lineBytes: nat, ways: nat): ConfigResult {
    if !IsPow2(lineBytes) || lineBytes < 1 || lineBytes > 256 then Refused(BadLineSize)
    else if ways < 1 then Refused(NoWays)
    else
      MulGrows(lineBytes, ways);
      if size < lineBytes * ways then Refused(TooSmall)
      else if size % (lineBytes * ways) != 0 then Refused(NotWholeSets)
      else CheckSets(size / (lineBytes * ways), ways, size)
  }

  function CheckSets(sets: nat, ways: nat, size: nat): ConfigResult {
    if !IsPow2(sets) then Refused(SetsNotPower)
    else if sets * ways > MAX_LINES then Refused(TooManyLines)
    else if size > SPACE then Refused(TooLarge)
    else Accepted(sets)
  }

  /** A geometry is accepted exactly when it makes a whole power-of-two number of sets within the limits. */
  lemma GeometryAccepted(size: nat, lineBytes: nat, ways: nat, sets: nat)
    ensures CheckGeometry(size, lineBytes, ways) == Accepted(sets) <==>
      && Power(lineBytes) && lineBytes <= 256 && ways >= 1 && Power(sets)
      && sets * ways <= MAX_LINES && sets * (lineBytes * ways) == size <= SPACE
  {
    Pow2Test(lineBytes);
    Pow2Test(sets);
    if Power(lineBytes) && ways >= 1 {
      MulGrows(lineBytes, ways);
      WholeSets(size, lineBytes * ways, sets);
    }
  }

  lemma WholeSets(size: nat, unit: nat, sets: nat)
    requires unit > 0
    ensures size >= unit && size % unit == 0 && size / unit == sets <==> sets > 0 && sets * unit == size
  {
    if sets > 0 && sets * unit == size {
      MulGrows(unit, sets);
      ModUnique(size, unit, sets, 0);
    }
  }

  class Cache {
    var cfg: Config
    var offBits: nat
    var idxBits: nat
    var line: array<Line>
    var store: array<byte>
    var clock: nat
    var stats: Stats

    /** The cache over the memory `bs`, as a value. */
    ghost function Abs(bs: array<byte>): Cached
      requires Fits(cfg, line[..], store[..])
      reads this, line, store, bs
    {
      Cached(SetsOf(cfg, line[..], store[..]), clock, stats, bs[..])
    }

    /** The cache's invariant over the memory `bs`. */
    ghost predicate Ok(bs: array<byte>)
      reads this, line, store, bs
    {
      && store != bs
      && Fits(cfg, line[..], store[..])
      && offBits == Log2(cfg.lineBytes) && idxBits == Log2(cfg.sets)
      && Shaped(cfg, Abs(bs))
    }

    /** Configured, with every descriptor cleared. */
    ghost predicate Blank()
      reads this, line, store
    {
      && Fits(cfg, line[..], store[..])
      && offBits == Log2(cfg.lineBytes) && idxBits == Log2(cfg.sets)
      && forall i :: 0 <= i < line.Length ==> line[i] == BLANK
    }

    constructor Defaults()
      ensures fresh(line) && fresh(store) && line.Length == MAX_LINES
      ensures cfg == DEFAULTS && clock == 0 && stats == NO_STATS && Blank()
    {
      DefaultsValid();
      cfg := DEFAULTS;
      offBits, idxBits := Log2(DEFAULTS.lineBytes), Log2(DEFAULTS.sets);
      line := new Line[MAX_LINES](_ => BLANK);
      store := new byte[256](_ => 0);
      clock, stats := 0, NO_STATS;
    }

    /** Blank descriptors are an empty cache in front of any memory. */
    lemma Cold(bs: array<byte>)
      requires store != bs && bs.Length == SPACE && Blank()
      ensures Ok(bs) && Empty(cfg, Abs(bs))
    {
      BlankIsCold(cfg, line[..], store[..], clock, stats, bs[..]);
    }

    /** The invariant does not depend on what the memory holds. */
    twostate lemma StillOk(bs: array<byte>)
      requires old(Ok(bs)) && unchanged(this) && unchanged(line) && unchanged(store)
      ensures Ok(bs)
    {
      var m := old(Abs(bs));
      assert line[..] == old(line[..]) && store[..] == old(store[..]);
      assert SetsOf(cfg, line[..], store[..]) == m.sets;
      assert forall s :: 0 <= s < |m.sets| ==> SetOk(cfg, s, m.sets[s]);
    }

    /** `cache_decode`, by masks and shifts. */
    method Decode(a: word) returns (tag: nat, s: nat, off: nat)
      requires Valid(cfg) && offBits == Log2(cfg.lineBytes) && idxBits == Log2(cfg.sets)
      ensures tag == TagOf(cfg, a) && s == SetOf(cfg, a) && off == OffOf(cfg, a)
      ensures a == (tag * cfg.sets + s) * cfg.lineBytes + off
    {
      MaskedDecode(cfg, a);
      Recompose(cfg, a);
      off := And(a, cfg.lineBytes - 1);
      s := And(Shr(a, offBits), cfg.sets - 1);
      tag := Shr(a, offBits + idxBits);
    }

    /** The search common to `cache_probe`, `cache_read` and the rest: the way holding the tag, or `ways`. */
    method Search(bs: array<byte>, s: nat, tag: nat) returns (w: nat)
      requires Ok(bs) && s < cfg.sets
      ensures w == FindWay(Abs(bs).sets[s], tag) <= cfg.ways
    {
      ghost var xs := WaysOf(cfg, line[..], store[..], s);
      w := 0;
      while w < cfg.ways
        invariant 0 <= w <= cfg.ways
        invariant FindWay(xs, tag) == FindWay(xs, tag, w)
      {
        IndexBounds(cfg, s, w);
        var l := line[SlotIndex(cfg, s, w)];
        assert xs[w] == SlotOf(cfg, line[..], store[..], s, w);
        if l.valid && l.tag == tag {
          return;
        }
        w := w + 1;
      }
    }

    /** `cache_probe`. */
    method Probe(bs: array<byte>, a: word) returns (hit: bool, w: nat)
      requires Ok(bs)
      ensures hit == Held(cfg, Abs(bs), a)
      ensures hit ==> w == HomeOf(cfg, Abs(bs), a)
    {
      var tag, s, _ := Decode(a);
      assert SetOk(cfg, s, Abs(bs).sets[s]);
      w := Search(bs, s, tag);
      hit := w < cfg.ways;
    }

    /** `pick_victim`. */
    method Victim(bs: array<byte>, s: nat, rnd: nat) returns (w: nat)
      requires Ok(bs) && s < cfg.sets
      ensures w == PickVictim(cfg, Abs(bs).sets[s], rnd)
    {
      hide SetOk, Placed, DistinctTags, FindWay;
      ghost var xs := WaysOf(cfg, line[..], store[..], s);
      w := 0;
      while w < cfg.ways
        invariant 0 <= w <= cfg.ways
        invariant FirstInvalid(xs) == FirstInvalid(xs, w)
      {
        IndexBounds(cfg, s, w);
        assert xs[w] == SlotOf(cfg, line[..], store[..], s, w);
        if !line[SlotIndex(cfg, s, w)].valid {
          return;
        }
        w := w + 1;
      }
      if cfg.repl == Random {
        return rnd % cfg.ways;
      }
      var best, stamp, i := 0, STAMP_MAX, 0;
      while i < cfg.ways
        invariant 0 <= i <= cfg.ways
        invariant Oldest(xs) == Oldest(xs, i, best, stamp)
      {
        IndexBounds(cfg, s, i);
        assert xs[i] == SlotOf(cfg, line[..], store[..], s, i);
        var l := line[SlotIndex(cfg, s, i)];
        if l.stamp < stamp {
          best, stamp := i, l.stamp;
        }
        i := i + 1;
      }
      return best;
    }

    /** `writeback`: copy a dirty line out byte by byte and mark it clean. */
    method WriteLine(bs: array<byte>, s: nat, w: nat)
      requires Ok(bs) && s < cfg.sets && w < cfg.ways
      modifies this`stats, line, bs
      ensures Ok(bs) && Abs(bs) == WriteBack(cfg, old(Abs(bs)), s, w)
    {
      IndexBounds(cfg, s, w);
      var k := SlotIndex(cfg, s, w);
      var l := line[k];
      ghost var m := Abs(bs);
      assert SetOk(cfg, s, m.sets[s]);
      assert m.sets[s][w] == SlotOf(cfg, line[..], store[..], s, w);
      if !l.valid || !l.dirty {
        return;
      }
      OneLine(cfg, line[..], store[..], s, w, l.(dirty := false));
      CopyOut(store, DataIndex(cfg, s, w), bs, l.base, cfg.lineBytes);
      stats := stats.(writebacks := stats.writebacks + 1, bytesOut := stats.bytesOut + cfg.lineBytes);
      line[k] := l.(dirty := false);
      assert line[..] == old(line[..])[k := l.(dirty := false)];
    }

    /** `refill`: load the line covering `a` from memory. */
    method RefillLine(bs: array<byte>, s: nat, w: nat, a: word, tag: nat)
      requires Ok(bs) && s == SetOf(cfg, a) && tag == TagOf(cfg, a) && w < cfg.ways && !Held(cfg, Abs(bs), a)
      modifies this`stats, this`clock, line, store
      ensures Ok(bs) && Abs(bs) == Refill(cfg, old(Abs(bs)), w, a)
    {
      hide SetOk, Placed;
      LineBounds(cfg, a);
      assert And(a, cfg.lineBytes - 1) == OffOf(cfg, a) by { MaskedDecode(cfg, a); }
      var base := a - And(a, cfg.lineBytes - 1);
      clock := Tick(clock);
      Load(bs, s, w, Line(tag, true, false, clock, base));
      stats := stats.(bytesIn := stats.bytesIn + cfg.lineBytes);
      ghost var r := Refill(cfg, old(Abs(bs)), w, a);
      assert bs[..][base..][..cfg.lineBytes] == bs[..][base..base + cfg.lineBytes];
      assert Abs(bs) == r;
    }

    /** Overwrite a way with the line at `l.base`. */
    method Load(bs: array<byte>, s: nat, w: nat, l: Line)
      requires store != bs && Fits(cfg, line[..], store[..]) && s < cfg.sets && w < cfg.ways && l.base + cfg.lineBytes <= bs.Length
      modifies line, store
      ensures Fits(cfg, line[..], store[..])
      ensures var ss := old(SetsOf(cfg, line[..], store[..]));
              SetsOf(cfg, line[..], store[..]) == ss[s := ss[s][w := Filled(l, bs[..][l.base..][..cfg.lineBytes])]]
    {
      IndexBounds(cfg, s, w);
      var k := SlotIndex(cfg, s, w);
      OneSlot(cfg, line[..], store[..], s, w, l, bs[..][l.base..][..cfg.lineBytes]);
      CopyOut(bs, l.base, store, DataIndex(cfg, s, w), cfg.lineBytes);
      line[k] := l;
      assert line[..] == old(line[..])[k := l];
    }

    /** `touch`. */
    method TouchLine(bs: array<byte>, s: nat, w: nat)
      requires Ok(bs) && s < cfg.sets && w < cfg.ways
      modifies this`clock, line
      ensures Ok(bs) && Abs(bs) == Touch(cfg, old(Abs(bs)), s, w)
    {
      if cfg.repl == LRU {
        IndexBounds(cfg, s, w);
        clock := Tick(clock);
        var k := SlotIndex(cfg, s, w);
        var l := line[k].(stamp := clock);
        OneLine(cfg, line[..], store[..], s, w, l);
        assert old(Abs(bs)).sets[s][w] == SlotOf(cfg, line[..], store[..], s, w);
        line[k] := l;
        assert line[..] == old(line[..])[k := l];
      }
    }

    /** The eviction half of `handle_miss`. */
    method EvictLine(bs: array<byte>, s: nat, w: nat)
      requires Ok(bs) && s < cfg.sets && w < cfg.ways
      modifies this`stats, line, bs
      ensures Ok(bs) && Abs(bs) == Evict(cfg, old(Abs(bs)), s, w)
    {
      IndexBounds(cfg, s, w);
      assert Abs(bs).sets[s][w] == SlotOf(cfg, line[..], store[..], s, w);
      if line[SlotIndex(cfg, s, w)].valid {
        WriteLine(bs, s, w);
        stats := stats.(evictions := stats.evictions + 1);
      }
    }

    /** `handle_miss`. */
    method Miss(bs: array<byte>, a: word, tag: nat, s: nat, rnd: nat) returns (w: nat)
      requires Ok(bs) && s == SetOf(cfg, a) && tag == TagOf(cfg, a) && !Held(cfg, Abs(bs), a)
      modifies this`stats, this`clock, line, store, bs
      ensures Ok(bs) && (Abs(bs), w) == HandleMiss(cfg, old(Abs(bs)), a, rnd)
    {
      hide Placed, DistinctTags;
      ghost var m := Abs(bs);
      assert SetOk(cfg, s, m.sets[s]);
      w := Victim(bs, s, rnd);
      EvictLine(bs, s, w);
      EvictKeepsAbsent(cfg, m, a, w);
      RefillLine(bs, s, w, a, tag);
      stats := stats.(stall := stats.stall + cfg.missPenalty);
    }

    /** The byte of `a` in way `w`. */
    method Fetch(bs: array<byte>, s: nat, w: nat, a: word, off: nat) returns (v: byte)
      requires Ok(bs) && s == SetOf(cfg, a) && off == OffOf(cfg, a) && w < cfg.ways
      ensures v == ByteAt(cfg, Abs(bs), w, a)
    {
      IndexBounds(cfg, s, w);
      assert SetOk(cfg, s, Abs(bs).sets[s]);
      assert Abs(bs).sets[s][w] == SlotOf(cfg, line[..], store[..], s, w);
      v := store[DataIndex(cfg, s, w) + off];
    }

    /** `cache_read`. */
    method ReadByte(bs: array<byte>, a: word, rnd: nat) returns (v: byte)
      requires Ok(bs)
      modifies this`stats, this`clock, line, store, bs
      ensures Ok(bs) && (Abs(bs), v) == Read(cfg, old(Abs(bs)), a, rnd)
    {
      ghost var m := Abs(bs);
      var tag, s, off := Decode(a);
      assert SetOk(cfg, s, m.sets[s]);
      var w := Search(bs, s, tag);
      if w < cfg.ways {
        stats := stats.(nReads := stats.nReads + 1, readHit := stats.readHit + 1);
        assert Abs(bs) == m.(stats := stats);
        v := ReadOnHit(bs, a, s, w, off);
      } else {
        stats := stats.(nReads := stats.nReads + 1, readMiss := stats.readMiss + 1);
        assert Abs(bs) == m.(stats := stats);
        v := ReadAfterMiss(bs, a, tag, s, off, rnd);
      }
    }

    method ReadOnHit(bs: array<byte>, a: word, s: nat, w: nat, off: nat) returns (v: byte)
      requires Ok(bs) && s == SetOf(cfg, a) && off == OffOf(cfg, a) && Held(cfg, Abs(bs), a) && w == HomeOf(cfg, Abs(bs), a)
      modifies this`clock, line
      ensures Ok(bs) && (Abs(bs), v) == ReadHit(cfg, old(Abs(bs)), a)
    {
      TouchLine(bs, s, w);
      v := Fetch(bs, s, w, a, off);
    }

    method ReadAfterMiss(bs: array<byte>, a: word, tag: nat, s: nat, off: nat, rnd: nat) returns (v: byte)
      requires Ok(bs) && s == SetOf(cfg, a) && tag == TagOf(cfg, a) && off == OffOf(cfg, a) && !Held(cfg, Abs(bs), a)
      modifies this`stats, this`clock, line, store, bs
      ensures Ok(bs) && (Abs(bs), v) == ReadMiss(cfg, old(Abs(bs)), a, rnd)
    {
      var w := Miss(bs, a, tag, s, rnd);
      v := Fetch(bs, s, w, a, off);
    }

    /** Change one byte of a way, and its descriptor. */
    method Patch(s: nat, w: nat, l: Line, off: nat, v: byte)
      requires Fits(cfg, line[..], store[..]) && s < cfg.sets && w < cfg.ways && off < cfg.lineBytes
      modifies line, store
      ensures Fits(cfg, line[..], store[..])
      ensures var ss := old(SetsOf(cfg, line[..], store[..]));
              ss[s][w] == old(SlotOf(cfg, line[..], store[..], s, w)) &&
              SetsOf(cfg, line[..], store[..]) == ss[s := ss[s][w := Filled(l, ss[s][w].data[off := v])]]
    {
      IndexBounds(cfg, s, w);
      var k, b := SlotIndex(cfg, s, w), DataIndex(cfg, s, w);
      ghost var bytes := SlotOf(cfg, line[..], store[..], s, w).data[off := v];
      OneSlot(cfg, line[..], store[..], s, w, l, bytes);
      store[b + off] := v;
      line[k] := l;
      assert store[..] == Splice(old(store[..]), b, bytes);
      assert line[..] == old(line[..])[k := l];
    }

    /** The last step of a store. */
    method PutByte(bs: array<byte>, s: nat, w: nat, a: word, off: nat, v: byte)
      requires Ok(bs) && s < cfg.sets && w < cfg.ways && off == OffOf(cfg, a)
      modifies this`stats, line, store, bs
      ensures Ok(bs) && Abs(bs) == StoreByte(cfg, old(Abs(bs)), s, w, a, v)
    {
      IndexBounds(cfg, s, w);
      var l := line[SlotIndex(cfg, s, w)];
      assert Abs(bs).sets[s][w] == SlotOf(cfg, line[..], store[..], s, w);
      if cfg.wpol == Through {
        Patch(s, w, l, off, v);
        bs[a] := v;
        stats := stats.(bytesOut := stats.bytesOut + 1);
      } else {
        Patch(s, w, l.(dirty := true), off, v);
      }
    }

    /** `cache_write`. */
    method WriteByte(bs: array<byte>, a: word, v: byte, rnd: nat)
      requires Ok(bs)
      modifies this`stats, this`clock, line, store, bs
      ensures Ok(bs) && Abs(bs) == Write(cfg, old(Abs(bs)), a, v, rnd)
    {
      ghost var m := Abs(bs);
      var tag, s, off := Decode(a);
      assert SetOk(cfg, s, m.sets[s]);
      var w := Search(bs, s, tag);
      if w < cfg.ways {
        stats := stats.(nWrites := stats.nWrites + 1, writeHit := stats.writeHit + 1);
        ghost var m1 := Abs(bs);
        TouchLine(bs, s, w);
        PutByte(bs, s, w, a, off, v);
        assert Abs(bs) == WriteHit(cfg, m1, a, v);
      } else {
        stats := stats.(nWrites := stats.nWrites + 1, writeMiss := stats.writeMiss + 1);
        WriteAfterMiss(bs, a, tag, s, off, v, rnd);
      }
    }

    /** A store that misses: around the cache, or into a line brought in for it. */
    method WriteAfterMiss(bs: array<byte>, a: word, tag: nat, s: nat, off: nat, v: byte, rnd: nat)
      requires Ok(bs) && s == SetOf(cfg, a) && tag == TagOf(cfg, a) && off == OffOf(cfg, a) && !Held(cfg, Abs(bs), a)
      modifies this`stats, this`clock, line, store, bs
      ensures Ok(bs) && Abs(bs) == WriteMiss(cfg, old(Abs(bs)), a, v, rnd)
    {
      if cfg.writeAlloc {
        var w := Miss(bs, a, tag, s, rnd);
        PutByte(bs, s, w, a, off, v);
      } else {
        bs[a] := v;
        stats := stats.(bytesOut := stats.bytesOut + 1, stall := stats.stall + cfg.missPenalty);
      }
    }

    /** Marking a line invalid, and clean too when `forget` is set. */
    method Discard(bs: array<byte>, s: nat, w: nat, forget: bool)
      requires Ok(bs) && s < cfg.sets && w < cfg.ways
      modifies line
      ensures Ok(bs)
      ensures Abs(bs) == if forget then SweepLine(cfg, old(Abs(bs)), Invalidating, s, w) else Drop(cfg, old(Abs(bs)), s, w)
    {
      IndexBounds(cfg, s, w);
      ghost var m := Abs(bs);
      var k := SlotIndex(cfg, s, w);
      assert SetOk(cfg, s, m.sets[s]);
      assert m.sets[s][w] == SlotOf(cfg, line[..], store[..], s, w);
      var l := if forget then line[k].(valid := false, dirty := false) else line[k].(valid := false);
      OneLine(cfg, line[..], store[..], s, w, l);
      line[k] := l;
      assert line[..] == old(line[..])[k := l];
    }

    /** What a maintenance call does to one line. */
    method SweepOne(bs: array<byte>, kind: Sweep, s: nat, w: nat)
      requires Ok(bs) && s < cfg.sets && w < cfg.ways
      modifies this`stats, line, bs
      ensures Ok(bs) && Abs(bs) == SweepLine(cfg, old(Abs(bs)), kind, s, w)
    {
      if !kind.Invalidating? {
        WriteLine(bs, s, w);
      }
      if !kind.Cleaning? {
        Discard(bs, s, w, kind.Invalidating?);
      }
    }

    /** `cache_clean`, `cache_flush` and `cache_invalidate`: every way of every set. */
    method SweepEvery(bs: array<byte>, kind: Sweep)
      requires Ok(bs)
      modifies this`stats, line, bs
      ensures Ok(bs) && Abs(bs) == SweepAll(cfg, old(Abs(bs)), kind)
    {
      hide SetOk, Placed, DistinctTags, SweepSet, SetsOf, WaysOf, SlotOf;
      ghost var m := Abs(bs);
      var s := 0;
      while s < cfg.sets
        invariant 0 <= s <= cfg.sets
        invariant Ok(bs) && Abs(bs) == SweepSets(cfg, m, kind, s)
      {
        SweepWays(bs, kind, s);
        s := s + 1;
      }
    }

    method SweepWays(bs: array<byte>, kind: Sweep, s: nat)
      requires Ok(bs) && s < cfg.sets
      modifies this`stats, line, bs
      ensures Ok(bs) && Abs(bs) == SweepSet(cfg, old(Abs(bs)), kind, s, cfg.ways)
    {
      hide SetOk, Placed, DistinctTags, SweepLine, SetsOf, WaysOf, SlotOf;
      ghost var p := Abs(bs);
      var w := 0;
      while w < cfg.ways
        invariant 0 <= w <= cfg.ways
        invariant Ok(bs) && Abs(bs) == SweepSet(cfg, p, kind, s, w)
      {
        SweepOne(bs, kind, s, w);
        w := w + 1;
      }
    }

    /** `cache_clean_addr`. */
    method CleanOne(bs: array<byte>, a: word) returns (hit: bool)
      requires Ok(bs)
      modifies this`stats, line, bs
      ensures Ok(bs) && Abs(bs) == CleanAddr(cfg, old(Abs(bs)), a) && hit == Held(cfg, old(Abs(bs)), a)
    {
      var w;
      var _, s, _ := Decode(a);
      hit, w := Probe(bs, a);
      if hit {
        WriteLine(bs, s, w);
      }
    }

    /** `cache_snoop`. */
    method SnoopOne(bs: array<byte>, a: word) returns (hit: bool)
      requires Ok(bs)
      modifies this`stats, line, bs
      ensures Ok(bs) && Abs(bs) == Snoop(cfg, old(Abs(bs)), a) && hit == Held(cfg, old(Abs(bs)), a)
    {
      var w;
      var _, s, _ := Decode(a);
      hit, w := Probe(bs, a);
      if hit {
        WriteLine(bs, s, w);
        Discard(bs, s, w, false);
        stats := stats.(invalidations := stats.invalidations + 1);
      }
    }

    /** `cache_reset_stats`. */
    method ZeroStats(bs: array<byte>)
      requires Ok(bs)
      modifies this`stats
      ensures Ok(bs) && Abs(bs) == ResetStats(old(Abs(bs)))
    {
      stats := NO_STATS;
    }

    /** `cache_config`: a refused geometry changes nothing, an accepted one starts over with an empty cache. */
    method Configure(size: nat, lineBytes: nat, ways: nat) returns (r: ConfigResult)
      requires line.Length == MAX_LINES
      modifies this, line
      ensures r == CheckGeometry(size, lineBytes, ways)
      ensures r.Refused? ==> unchanged(this) && unchanged(line)
      ensures line == old(line) && stats == old(stats)
      ensures r.Accepted? ==>
        && fresh(store)
        && cfg == old(cfg).(lineBytes := lineBytes, ways := ways, sets := r.sets) && clock == 0
        && Blank()
    {
      r := CheckGeometry(size, lineBytes, ways);
      if r.Refused? {
        return;
      }
      store := new byte[size](_ => 0);
      var i := 0;
      while i < line.Length
        invariant 0 <= i <= line.Length
        invariant forall j :: 0 <= j < i ==> line[j] == BLANK
        modifies line
      {
        line[i] := BLANK;
        i := i + 1;
      }
      cfg := cfg.(lineBytes := lineBytes, ways := ways, sets := r.sets);
      offBits, idxBits, clock := Log2(lineBytes), Log2(r.sets), 0;
      GeometryAccepted(size, lineBytes, ways, r.sets);
      SizeFits(r.sets, ways, lineBytes, size);
    }
  }

  lemma SizeFits(sets: nat, ways: nat, lineBytes: nat, size: nat)
    requires sets * (lineBytes * ways) == size
    ensures sets * ways * lineBytes == size
  {
  }

  /** Blank descriptors stand for a well-formed, empty cache over any memory. */
  lemma BlankIsCold(cfg: Config, lines: seq<Line>, data: seq<byte>, clock: nat, stats: Stats, mem: seq<byte>)
    requires Fits(cfg, lines, data) && |mem| == SPACE
    requires forall i :: 0 <= i < |lines| ==> lines[i] == BLANK
    ensures var m := Cached(SetsOf(cfg, lines, data), clock, stats, mem);
            && Shaped(cfg, m) && Empty(cfg, m) && Backed(cfg, m)
            && forall a :: 0 <= a < SPACE ==> Look(cfg, m, a) == mem[a]
  {
    var m := Cached(SetsOf(cfg, lines, data), clock, stats, mem);
    forall s, w | 0 <= s < cfg.sets && 0 <= w < cfg.ways
      ensures !m.sets[s][w].valid && |m.sets[s][w].data| == cfg.lineBytes
    {
      IndexBounds(cfg, s, w);
      assert m.sets[s][w] == SlotOf(cfg, lines, data, s, w);
    }
    forall s | 0 <= s < cfg.sets
      ensures SetOk(cfg, s, m.sets[s])
    {
    }
  }
}
