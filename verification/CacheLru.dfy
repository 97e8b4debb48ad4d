/** LRU replacement is exactly a recency list per set, so a cache with more ways never misses more. */
module CacheLru {
  import opened Bits
  import opened Geometry
  import opened CacheModel
  import opened CacheRuns

  function Dropped(xs: seq<nat>, x: nat): (r: seq<nat>)
    ensures x !in r
    ensures forall y :: y in r <==> y in xs && y != x
  {
    if xs == [] then [] else (if xs[0] == x then [] else [xs[0]]) + Dropped(xs[1..], x)
  }

  /** Move `t` to the front. */
  function Recent(list: seq<nat>, t: nat): seq<nat> {
    [t] + Dropped(list, t)
  }

  ghost predicate Distinct(xs: seq<nat>) {
    forall i, j :: 0 <= i < j < |xs| ==> xs[i] != xs[j]
  }

  function Min(a: nat, b: nat): nat { if a <= b then a else b }

  /** The first `n` entries. */
  function Front(list: seq<nat>, n: nat): seq<nat> {
    list[..Min(n, |list|)]
  }

  lemma FirstApart(xs: seq<nat>)
    requires Distinct(xs) && xs != []
    ensures xs[0] !in xs[1..] && Distinct(xs[1..])
  {
  }

  lemma ConsDistinct(x: nat, xs: seq<nat>)
    requires Distinct(xs) && x !in xs
    ensures Distinct([x] + xs)
  {
  }

  lemma {:induction false} DroppedDistinct(xs: seq<nat>, x: nat)
    requires Distinct(xs)
    ensures Distinct(Dropped(xs, x))
    ensures x !in xs ==> Dropped(xs, x) == xs
  {
    hide Distinct;
    if xs == [] {
    } else {
      FirstApart(xs);
      DroppedDistinct(xs[1..], x);
      ConsDistinct(xs[0], Dropped(xs[1..], x));
      MemberSplit(xs, x);
      assert xs == [xs[0]] + xs[1..];
      assert xs[0] == x ==> Dropped(xs, x) == Dropped(xs[1..], x);
    }
  }

  lemma MemberSplit(xs: seq<nat>, x: nat)
    requires xs != []
    ensures x in xs <==> x == xs[0] || x in xs[1..]
  {
    assert xs == [xs[0]] + xs[1..];
  }

  lemma {:induction false} DroppedAt(xs: seq<nat>, i: nat)
    requires Distinct(xs) && i < |xs|
    ensures Dropped(xs, xs[i]) == xs[..i] + xs[i + 1..]
  {
    if i == 0 {
      DroppedDistinct(xs[1..], xs[0]);
    } else {
      DroppedAt(xs[1..], i - 1);
      assert xs[1..][..i - 1] == xs[1..i] && xs[1..][i..] == xs[i + 1..];
    }
  }

  /** Past the first occurrence nothing before it moves. */
  lemma {:induction false} DroppedKeepsFront(xs: seq<nat>, x: nat, n: nat)
    requires n <= |xs| && x !in xs[..n]
    ensures n <= |Dropped(xs, x)| && Dropped(xs, x)[..n] == xs[..n]
  {
    if n > 0 {
      assert xs[0] in xs[..n];
      assert xs[1..][..n - 1] == xs[1..n];
      assert forall y :: y in xs[1..n] ==> y in xs[..n];
      DroppedKeepsFront(xs[1..], x, n - 1);
      var w := Dropped(xs[1..], x);
      assert Dropped(xs, x) == [xs[0]] + w;
      assert ([xs[0]] + w)[..n] == [xs[0]] + w[..n - 1];
      assert xs[..n] == [xs[0]] + xs[1..n];
    }
  }

  function Range(n: nat): (r: set<nat>)
    ensures |r| == n
    ensures forall x: nat :: x in r <==> x < n
  {
    if n == 0 then {} else Range(n - 1) + {n - 1}
  }

  function Elements(xs: seq<nat>): (r: set<nat>)
    ensures forall x :: x in r <==> x in xs
  {
    if xs == [] then {} else {xs[0]} + Elements(xs[1..])
  }

  lemma {:induction false} DistinctCount(xs: seq<nat>)
    requires Distinct(xs)
    ensures |Elements(xs)| == |xs|
  {
    if xs != [] {
      DistinctCount(xs[1..]);
      assert xs[0] !in xs[1..];
    }
  }

  lemma SubsetCount(s: set<nat>, t: set<nat>)
    requires s <= t
    ensures |s| <= |t|
    ensures |s| == |t| ==> s == t
  {
    if s != t {
      var x :| x in t && x !in s;
      SubsetCount(s, t - {x});
    }
  }

  lemma InRange(ord: seq<nat>, n: nat)
    requires Distinct(ord) && forall i :: 0 <= i < |ord| ==> ord[i] < n
    ensures Elements(ord) <= Range(n) && |Elements(ord)| == |ord|
  {
    DistinctCount(ord);
  }

  /** Pigeonhole for way numbers: `n` distinct ones are all of them, fewer leave a gap. */
  lemma AllWays(ord: seq<nat>, n: nat, w: nat)
    requires Distinct(ord) && forall i :: 0 <= i < |ord| ==> ord[i] < n
    requires |ord| == n && w < n
    ensures w in ord
  {
    InRange(ord, n);
    SubsetCount(Elements(ord), Range(n));
    assert w in Range(n);
  }

  lemma SomeWay(ord: seq<nat>, n: nat) returns (w: nat)
    requires Distinct(ord) && forall i :: 0 <= i < |ord| ==> ord[i] < n
    requires |ord| < n
    ensures w < n && w !in ord
  {
    InRange(ord, n);
    w := Gap(Elements(ord), Range(n));
  }

  lemma Gap(e: set<nat>, r: set<nat>) returns (w: nat)
    requires e <= r && |e| < |r|
    ensures w in r && w !in e
  {
    if r <= e {
      SubsetCount(r, e);
    }
    w :| w in r && w !in e;
  }

  predicate Has(xs: seq<Slot>, t: nat) {
    FindWay(xs, t) < |xs|
  }

  function StampOf(xs: seq<Slot>, t: nat): nat {
    if Has(xs, t) then xs[FindWay(xs, t)].stamp else 0
  }

  /** The set holds the tags at the front of `list` and no others. */
  ghost predicate Residents(xs: seq<Slot>, list: seq<nat>) {
    && DistinctTags(xs) && Distinct(list)
    && (forall t: nat :: Has(xs, t) <==> t in Front(list, |xs|))
  }

  /** Stamps fall from the front of `list` backwards. */
  ghost predicate Aged(xs: seq<Slot>, list: seq<nat>, clock: nat) {
    && (forall i :: 0 <= i < Min(|list|, |xs|) ==> StampOf(xs, list[i]) <= clock)
    && (forall i, j :: 0 <= i < j < Min(|list|, |xs|) ==> StampOf(xs, list[i]) > StampOf(xs, list[j]))
  }

  ghost predicate InOrder(xs: seq<Slot>, list: seq<nat>, clock: nat) {
    Residents(xs, list) && Aged(xs, list, clock)
  }

  lemma HasFront(xs: seq<Slot>, list: seq<nat>, i: nat)
    requires Residents(xs, list) && i < Min(|list|, |xs|)
    ensures Has(xs, list[i])
  {
    assert Front(list, |xs|)[i] == list[i];
  }

  lemma FindIs(xs: seq<Slot>, w: nat)
    requires DistinctTags(xs) && w < |xs| && xs[w].valid
    ensures FindWay(xs, xs[w].tag) == w
  {
  }

  /** The ways holding the front of the list, in that order. */
  lemma FrontWays(xs: seq<Slot>, list: seq<nat>) returns (ord: seq<nat>)
    requires Residents(xs, list)
    ensures |ord| == Min(|list|, |xs|) && Distinct(ord)
    ensures forall i :: 0 <= i < |ord| ==> ord[i] < |xs| && xs[ord[i]].valid && xs[ord[i]].tag == list[i]
                                           && xs[ord[i]].stamp == StampOf(xs, list[i])
  {
    ord := [];
    for n := 0 to Min(|list|, |xs|)
      invariant |ord| == n
      invariant forall i :: 0 <= i < n ==> ord[i] < |xs| && xs[ord[i]].valid && xs[ord[i]].tag == list[i]
                                           && xs[ord[i]].stamp == StampOf(xs, list[i])
    {
      HasFront(xs, list, n);
      ord := ord + [FindWay(xs, list[n])];
    }
    forall i, j | 0 <= i < j < |ord|
      ensures ord[i] != ord[j]
    {
      assert list[i] != list[j];
    }
  }

  /** Under LRU a miss takes an empty way while there is one, and then the way of the last list entry. */
  lemma VictimIsLast(cfg: Config, xs: seq<Slot>, list: seq<nat>, clock: nat, rnd: nat)
    requires InOrder(xs, list, clock) && clock < STAMP_MAX
    requires cfg.repl == LRU && |xs| == cfg.ways > 0
    ensures var x := xs[PickVictim(cfg, xs, rnd)];
            if |list| < cfg.ways then !x.valid else x.valid && x.tag == list[cfg.ways - 1]
  {
    var ord := FrontWays(xs, list);
    if |list| < cfg.ways {
      var v := SomeWay(ord, cfg.ways);
      if xs[v].valid {
        FindIs(xs, v);
        assert Has(xs, xs[v].tag);
      }
    } else {
      OldestIsLast(cfg, xs, list, ord, clock, rnd);
    }
  }

  lemma OldestIsLast(cfg: Config, xs: seq<Slot>, list: seq<nat>, ord: seq<nat>, clock: nat, rnd: nat)
    requires Aged(xs, list, clock) && clock < STAMP_MAX
    requires cfg.repl == LRU && |xs| == cfg.ways > 0 && |list| >= cfg.ways
    requires |ord| == cfg.ways && Distinct(ord)
    requires forall i :: 0 <= i < |ord| ==> ord[i] < |xs| && xs[ord[i]].valid && xs[ord[i]].stamp == StampOf(xs, list[i])
    ensures PickVictim(cfg, xs, rnd) == ord[cfg.ways - 1]
  {
    forall v: nat | v < cfg.ways
      ensures xs[v].valid
    {
      AllWays(ord, cfg.ways, v);
    }
    var w := PickVictim(cfg, xs, rnd);
    AllWays(ord, cfg.ways, w);
    var i :| 0 <= i < |ord| && ord[i] == w;
    var last := ord[cfg.ways - 1];
    assert xs[last].stamp == StampOf(xs, list[cfg.ways - 1]) <= clock;
    assert xs[w].stamp <= xs[last].stamp;
  }

  lemma FindUnique(xs: seq<Slot>, t: nat, w: nat)
    requires w <= |xs| && (w < |xs| ==> xs[w].valid && xs[w].tag == t)
    requires forall i :: 0 <= i < w ==> !(xs[i].valid && xs[i].tag == t)
    ensures FindWay(xs, t) == w
  {
  }

  /** Restamping one way moves no tag. */
  lemma FindAfterStamp(xs: seq<Slot>, w: nat, stamp: nat, t: nat)
    requires w < |xs|
    ensures FindWay(xs[w := xs[w].(stamp := stamp)], t) == FindWay(xs, t)
  {
    FindUnique(xs[w := xs[w].(stamp := stamp)], t, FindWay(xs, t));
  }

  lemma FindAfterFill(xs: seq<Slot>, w: nat, x: Slot, t: nat)
    requires DistinctTags(xs) && w < |xs| && x.valid && !Has(xs, x.tag)
    ensures DistinctTags(xs[w := x])
    ensures FindWay(xs[w := x], t) == if t == x.tag then w else if FindWay(xs, t) == w then |xs| else FindWay(xs, t)
  {
    FindUnique(xs[w := x], t, if t == x.tag then w else if FindWay(xs, t) == w then |xs| else FindWay(xs, t));
  }

  lemma HitInOrder(xs: seq<Slot>, list: seq<nat>, t: nat, clock: nat)
    requires InOrder(xs, list, clock) && Has(xs, t)
    ensures InOrder(xs[FindWay(xs, t) := xs[FindWay(xs, t)].(stamp := clock + 1)], Recent(list, t), clock + 1)
  {
    hide Aged, Recent;
    var w := FindWay(xs, t);
    var ys := xs[w := xs[w].(stamp := clock + 1)];
    assert t in Front(list, |xs|);
    var i :| 0 <= i < Min(|list|, |xs|) && list[i] == t;
    HitFinds(xs, t, clock + 1);
    HitResidents(xs, ys, list, i);
    HitAged(xs, ys, list, i, clock);
  }

  lemma HitFinds(xs: seq<Slot>, t: nat, stamp: nat)
    requires Has(xs, t) && DistinctTags(xs)
    ensures var ys := xs[FindWay(xs, t) := xs[FindWay(xs, t)].(stamp := stamp)];
            && DistinctTags(ys)
            && forall u: nat :: Has(ys, u) == Has(xs, u) && StampOf(ys, u) == if u == t then stamp else StampOf(xs, u)
  {
    forall u: nat {
      FindAfterStamp(xs, FindWay(xs, t), stamp, u);
    }
  }

  lemma HitResidents(xs: seq<Slot>, ys: seq<Slot>, list: seq<nat>, i: nat)
    requires |xs| == |ys| && i < Min(|list|, |xs|) && DistinctTags(ys)
    requires Residents(xs, list)
    requires forall u: nat :: Has(ys, u) == Has(xs, u)
    ensures Residents(ys, Recent(list, list[i]))
  {
    RecentAt(list, i);
    RecentFront(list, i, |xs|);
  }

  lemma HitAged(xs: seq<Slot>, ys: seq<Slot>, list: seq<nat>, i: nat, clock: nat)
    requires |xs| == |ys| && i < Min(|list|, |xs|) && Distinct(list)
    requires Aged(xs, list, clock)
    requires forall u: nat :: StampOf(ys, u) == if u == list[i] then clock + 1 else StampOf(xs, u)
    ensures Aged(ys, Recent(list, list[i]), clock + 1)
  {
    RecentAt(list, i);
    var list', n := Recent(list, list[i]), Min(|list|, |xs|);
    forall k | 0 < k < n
      ensures list'[k] == list[if k <= i then k - 1 else k] != list[i]
    {
    }
  }

  lemma RecentAt(list: seq<nat>, i: nat)
    requires Distinct(list) && i < |list|
    ensures Distinct(Recent(list, list[i]))
    ensures Recent(list, list[i]) == [list[i]] + list[..i] + list[i + 1..]
  {
    DroppedDistinct(list, list[i]);
    DroppedAt(list, i);
  }

  lemma RecentFront(list: seq<nat>, i: nat, n: nat)
    requires Distinct(list) && i < Min(|list|, n)
    ensures forall u: nat :: u in Front(Recent(list, list[i]), n) <==> u in Front(list, n)
  {
    RecentAt(list, i);
    hide Recent, Distinct;
    var r, m := Recent(list, list[i]), Min(n, |list|);
    var f, g := list[..m], r[..m];
    assert |r| == |list| && list[..m][..i] == list[..i] && list[..m][i + 1..] == list[i + 1..m];
    assert r == [list[i]] + list[..i] + list[i + 1..m] + list[m..] by {
      assert list[i + 1..] == list[i + 1..m] + list[m..];
    }
    assert g == [f[i]] + f[..i] + f[i + 1..];
    assert f == f[..i] + [f[i]] + f[i + 1..];
  }

  lemma MissInOrder(cfg: Config, xs: seq<Slot>, list: seq<nat>, x: Slot, clock: nat, rnd: nat)
    requires InOrder(xs, list, clock) && clock < STAMP_MAX
    requires cfg.repl == LRU && |xs| == cfg.ways > 0
    requires !Has(xs, x.tag) && x.valid && x.stamp == clock + 1
    ensures InOrder(xs[PickVictim(cfg, xs, rnd) := x], Recent(list, x.tag), clock + 1)
  {
    var w := PickVictim(cfg, xs, rnd);
    VictimIsLast(cfg, xs, list, clock, rnd);
    if |list| >= cfg.ways { FindIs(xs, w); }
    var ys, list', n := xs[w := x], Recent(list, x.tag), Min(|list|, cfg.ways - 1);
    MissFront(list, x.tag, cfg.ways);
    FindAfterFill(xs, w, x, x.tag);
    forall u: nat
      ensures Has(ys, u) <==> u in Front(list', cfg.ways)
      ensures u != x.tag && Has(ys, u) ==> StampOf(ys, u) == StampOf(xs, u)
    {
      FindAfterFill(xs, w, x, u);
      assert Has(xs, u) <==> u in Front(list, cfg.ways);
    }
    MissAged(xs, ys, list, x.tag, clock);
  }

  /** Putting a new tag in front drops the last of a full front and keeps the rest. */
  lemma MissFront(list: seq<nat>, t: nat, ways: nat)
    requires Distinct(list) && ways > 0 && t !in Front(list, ways)
    ensures Distinct(Recent(list, t))
    ensures Front(Recent(list, t), ways) == [t] + list[..Min(|list|, ways - 1)]
    ensures forall u: nat :: u in Front(Recent(list, t), ways) <==>
      u == t || (u in Front(list, ways) && (|list| >= ways ==> u != list[ways - 1]))
  {
    var n, n' := Min(|list|, ways), Min(|list|, ways - 1);
    DroppedDistinct(list, t);
    DroppedKeepsFront(list, t, n);
    var r := Dropped(list, t);
    assert r[..n'] == list[..n'];
    assert Front([t] + r, ways) == [t] + list[..n'];
    if |list| >= ways {
      assert list[..n] == list[..n'] + [list[n']];
    } else {
      assert list[..n] == list[..n'];
    }
  }

  lemma MissAged(xs: seq<Slot>, ys: seq<Slot>, list: seq<nat>, t: nat, clock: nat)
    requires |xs| == |ys| > 0 && Distinct(list) && t !in Front(list, |xs|)
    requires Aged(xs, list, clock)
    requires StampOf(ys, t) == clock + 1
    requires forall u: nat :: u in Front(Recent(list, t), |xs|) && u != t ==> StampOf(ys, u) == StampOf(xs, u)
    ensures Aged(ys, Recent(list, t), clock + 1)
  {
    MissFront(list, t, |xs|);
    var list', n := Recent(list, t), Min(|list|, |xs| - 1);
    var f := Front(list', |xs|);
    forall k | 0 < k <= n
      ensures list'[k] == list[k - 1] && StampOf(ys, list'[k]) == StampOf(xs, list[k - 1])
    {
      assert f[k] == list[k - 1] == Front(list, |xs|)[k - 1];
    }
  }

  /** Equal up to data and dirty bit. */
  ghost predicate SameTags(xs: seq<Slot>, ys: seq<Slot>) {
    && |xs| == |ys|
    && forall w :: 0 <= w < |xs| ==> xs[w].valid == ys[w].valid && xs[w].tag == ys[w].tag && xs[w].stamp == ys[w].stamp
  }

  lemma SameTagsInOrder(xs: seq<Slot>, ys: seq<Slot>, list: seq<nat>, clock: nat)
    requires SameTags(xs, ys) && InOrder(xs, list, clock)
    ensures InOrder(ys, list, clock)
  {
    forall t: nat
      ensures Has(xs, t) == Has(ys, t) && StampOf(xs, t) == StampOf(ys, t)
    {
      FindUnique(ys, t, FindWay(xs, t));
    }
  }

  lemma LaterInOrder(xs: seq<Slot>, list: seq<nat>, clock: nat)
    requires InOrder(xs, list, clock)
    ensures InOrder(xs, list, clock + 1)
  {
  }

  /** What an access to tag `t` does to the tags and stamps of the set it selects. */
  function Restamp(cfg: Config, xs: seq<Slot>, t: nat, clock: nat, rnd: nat): (ys: seq<Slot>)
    requires |xs| == cfg.ways > 0
    ensures |ys| == cfg.ways
  {
    if Has(xs, t) then xs[FindWay(xs, t) := xs[FindWay(xs, t)].(stamp := Tick(clock))]
    else xs[PickVictim(cfg, xs, rnd) := Slot(t, true, false, Tick(clock), 0, [])]
  }

  ghost predicate Touched(cfg: Config, m: Cached, r: Cached, a: nat, rnd: nat)
    requires Shaped(cfg, m) && Shaped(cfg, r) && a < SPACE
  {
    var s := SetOf(cfg, a);
    assert SetOk(cfg, s, m.sets[s]);
    && SameTags(Restamp(cfg, m.sets[s], TagOf(cfg, a), m.clock, rnd), r.sets[s])
    && (forall s' :: 0 <= s' < cfg.sets && s' != s ==> r.sets[s'] == m.sets[s'])
    && r.clock == Tick(m.clock)
  }

  lemma MissTouches(cfg: Config, m: Cached, a: nat, rnd: nat)
    requires Shaped(cfg, m) && a < SPACE && !Held(cfg, m, a)
    ensures Touched(cfg, m, HandleMiss(cfg, m, a, rnd).0, a, rnd)
  {
    var s := SetOf(cfg, a);
    assert SetOk(cfg, s, m.sets[s]);
    var w := PickVictim(cfg, m.sets[s], rnd);
    assert SameTags(m.sets[s], Evict(cfg, m, s, w).sets[s]);
  }

  lemma StoreByteTouches(cfg: Config, m: Cached, r: Cached, a: nat, w: nat, val: byte, rnd: nat)
    requires Shaped(cfg, m) && Shaped(cfg, r) && a < SPACE && w < cfg.ways
    requires Touched(cfg, m, r, a, rnd)
    ensures Touched(cfg, m, StoreByte(cfg, r, SetOf(cfg, a), w, a, val), a, rnd)
  {
    assert SetOk(cfg, SetOf(cfg, a), r.sets[SetOf(cfg, a)]);
  }

  lemma HitTouches(cfg: Config, m: Cached, a: nat, rnd: nat)
    requires Shaped(cfg, m) && a < SPACE && Held(cfg, m, a) && cfg.repl == LRU
    ensures Touched(cfg, m, Touch(cfg, m, SetOf(cfg, a), HomeOf(cfg, m, a)), a, rnd)
  {
  }

  predicate IsAccess(op: Op) {
    OpOk(op) && (op.Load? || op.Store?)
  }

  /** The accesses that leave their line resident: loads, stores that hit, and stores that allocate. */
  predicate Brings(cfg: Config, m: Cached, op: Op)
    requires Shaped(cfg, m)
  {
    IsAccess(op) && (op.Load? || cfg.writeAlloc || Held(cfg, m, op.a))
  }

  lemma AccessTouches(cfg: Config, m: Cached, op: Op)
    requires Shaped(cfg, m) && cfg.repl == LRU && Brings(cfg, m, op)
    ensures Touched(cfg, m, Step(cfg, m, op), op.a, op.rnd)
  {
    var a := op.a;
    var m1 := Counted(cfg, m, op);
    assert Touched(cfg, m1, Step(cfg, m, op), a, op.rnd) by {
      if Held(cfg, m1, a) {
        HitTouches(cfg, m1, a, op.rnd);
        if op.Store? {
          StoreByteTouches(cfg, m1, Touch(cfg, m1, SetOf(cfg, a), HomeOf(cfg, m1, a)), a, HomeOf(cfg, m1, a), op.val, op.rnd);
        }
      } else {
        MissTouches(cfg, m1, a, op.rnd);
        if op.Store? {
          var (m2, w) := HandleMiss(cfg, m1, a, op.rnd);
          StoreByteTouches(cfg, m1, m2, a, w, op.val, op.rnd);
        }
      }
    }
  }

  /** The counters an access bumps before it touches a line. */
  function Counted(cfg: Config, m: Cached, op: Op): (r: Cached)
    requires Shaped(cfg, m) && IsAccess(op)
    ensures Shaped(cfg, r) && r.sets == m.sets && r.mem == m.mem && r.clock == m.clock
  {
    var hit := Held(cfg, m, op.a);
    var t := m.stats;
    m.(stats :=
      if op.Load? then
        if hit then t.(nReads := t.nReads + 1, readHit := t.readHit + 1) else t.(nReads := t.nReads + 1, readMiss := t.readMiss + 1)
      else
        if hit then t.(nWrites := t.nWrites + 1, writeHit := t.writeHit + 1) else t.(nWrites := t.nWrites + 1, writeMiss := t.writeMiss + 1))
  }

  /** One recency list per set. */
  ghost predicate Tracks(cfg: Config, m: Cached, lists: seq<seq<nat>>) {
    && Shaped(cfg, m) && cfg.repl == LRU
    && |lists| == cfg.sets
    && forall s :: 0 <= s < cfg.sets ==> InOrder(m.sets[s], lists[s], m.clock)
  }

  /** A cut list without one tag: what a snoop leaves of a recency list. */
  function Cut(list: seq<nat>, ways: nat, t: nat): seq<nat> { Dropped(Front(list, ways), t) }

  /** What a call does to the recency lists.  A load, a store that hits and a store that allocates move the tag to the front;
      a store around the cache, a clean and a statistics reset leave the lists alone; a flush empties them; a snoop cuts its
      list to what is resident and takes the tag out. */
  function Track(cfg: Config, lists: seq<seq<nat>>, op: Op): (r: seq<seq<nat>>)
    requires cfg.lineBytes > 0 && cfg.sets > 0 && |lists| == cfg.sets && OpOk(op)
    ensures |r| == cfg.sets
  {
    if op.FlushAll? then seq(cfg.sets, _ => [])
    else if op.Load? || op.Store? || op.SnoopLine? then
      var s, t := SetOf(cfg, op.a), TagOf(cfg, op.a);
      if op.SnoopLine? then lists[s := Cut(lists[s], cfg.ways, t)]
      else if op.Load? || cfg.writeAlloc || t in Front(lists[s], cfg.ways) then lists[s := Recent(lists[s], t)]
      else lists
    else lists
  }

  lemma RestampInOrder(cfg: Config, xs: seq<Slot>, list: seq<nat>, t: nat, clock: nat, rnd: nat)
    requires |xs| == cfg.ways > 0 && cfg.repl == LRU && clock < STAMP_MAX
    requires InOrder(xs, list, clock)
    ensures InOrder(Restamp(cfg, xs, t, clock, rnd), Recent(list, t), clock + 1)
  {
    assert Tick(clock) == clock + 1;
    if Has(xs, t) {
      HitInOrder(xs, list, t, clock);
    } else {
      MissInOrder(cfg, xs, list, Slot(t, true, false, clock + 1, 0, []), clock, rnd);
    }
  }

  lemma TouchedTracks(cfg: Config, m: Cached, r: Cached, lists: seq<seq<nat>>, a: nat, rnd: nat)
    requires Tracks(cfg, m, lists) && Shaped(cfg, r) && a < SPACE && m.clock < STAMP_MAX
    requires Touched(cfg, m, r, a, rnd)
    ensures Tracks(cfg, r, lists[SetOf(cfg, a) := Recent(lists[SetOf(cfg, a)], TagOf(cfg, a))]) && r.clock == m.clock + 1
  {
    var s, t := SetOf(cfg, a), TagOf(cfg, a);
    assert SetOk(cfg, s, m.sets[s]);
    assert r.clock == m.clock + 1;
    RestampInOrder(cfg, m.sets[s], lists[s], t, m.clock, rnd);
    SameTagsInOrder(Restamp(cfg, m.sets[s], t, m.clock, rnd), r.sets[s], Recent(lists[s], t), r.clock);
    var lists' := lists[s := Recent(lists[s], t)];
    forall s' | 0 <= s' < cfg.sets
      ensures InOrder(r.sets[s'], lists'[s'], r.clock)
    {
      if s' != s {
        LaterInOrder(m.sets[s'], lists[s'], m.clock);
      }
    }
  }

  // ---- maintenance ----

  /** A set after a sweep over its first `n` ways: tags and stamps stay, validity stays only under a clean. */
  ghost predicate SweptSet(k: Sweep, xs: seq<Slot>, ys: seq<Slot>, n: nat) {
    && |xs| == |ys|
    && forall w :: 0 <= w < |xs| ==> ys[w].tag == xs[w].tag && ys[w].stamp == xs[w].stamp
                                     && ys[w].valid == (xs[w].valid && (k.Cleaning? || w >= n))
  }

  lemma SweepLineTags(cfg: Config, m: Cached, k: Sweep, s: nat, w: nat)
    requires Shaped(cfg, m) && s < cfg.sets && w < cfg.ways
    ensures var r := SweepLine(cfg, m, k, s, w);
            && r.clock == m.clock && |r.sets| == |m.sets|
            && (forall s' :: 0 <= s' < |m.sets| && s' != s ==> r.sets[s'] == m.sets[s'])
            && |r.sets[s]| == |m.sets[s]| == cfg.ways
            && (forall v :: 0 <= v < cfg.ways && v != w ==> r.sets[s][v] == m.sets[s][v])
            && r.sets[s][w].tag == m.sets[s][w].tag && r.sets[s][w].stamp == m.sets[s][w].stamp
            && r.sets[s][w].valid == (m.sets[s][w].valid && k.Cleaning?)
  {
    assert SetOk(cfg, s, m.sets[s]);
  }

  lemma {:induction false} SweepSetTags(cfg: Config, m: Cached, k: Sweep, s: nat, n: nat)
    requires Shaped(cfg, m) && s < cfg.sets && n <= cfg.ways
    ensures var r := SweepSet(cfg, m, k, s, n);
            && r.clock == m.clock && |r.sets| == |m.sets|
            && (forall s' :: 0 <= s' < |m.sets| && s' != s ==> r.sets[s'] == m.sets[s'])
            && SweptSet(k, m.sets[s], r.sets[s], n)
    decreases n
  {
    hide SetOk, SweepLine;
    if n > 0 {
      SweepSetTags(cfg, m, k, s, n - 1);
      SweepLineTags(cfg, SweepSet(cfg, m, k, s, n - 1), k, s, n - 1);
    }
  }

  lemma {:induction false} SweepSetsTags(cfg: Config, m: Cached, k: Sweep, n: nat)
    requires Shaped(cfg, m) && n <= cfg.sets
    ensures var r := SweepSets(cfg, m, k, n);
            && r.clock == m.clock && |r.sets| == |m.sets|
            && forall s :: 0 <= s < |m.sets| ==>
                 if s < n then SweptSet(k, m.sets[s], r.sets[s], cfg.ways) else r.sets[s] == m.sets[s]
    decreases n
  {
    hide SetOk, SweepSet, SweptSet;
    if n > 0 {
      SweepSetsTags(cfg, m, k, n - 1);
      SweepSetTags(cfg, SweepSets(cfg, m, k, n - 1), k, n - 1, cfg.ways);
    }
  }

  lemma EmptyInOrder(ys: seq<Slot>, clock: nat)
    requires forall w :: 0 <= w < |ys| ==> !ys[w].valid
    ensures InOrder(ys, [], clock)
  {
    assert Front([], |ys|) == [];
  }

  lemma SweepTracks(cfg: Config, m: Cached, lists: seq<seq<nat>>, op: Op)
    requires Tracks(cfg, m, lists) && (op.CleanAll? || op.FlushAll?)
    ensures Tracks(cfg, Step(cfg, m, op), Track(cfg, lists, op)) && Step(cfg, m, op).clock == m.clock
  {
    hide SetOk, SweepSets, InOrder;
    var k := if op.CleanAll? then Cleaning else Flushing;
    SweepSetsTags(cfg, m, k, cfg.sets);
    var r, lists' := Step(cfg, m, op), Track(cfg, lists, op);
    assert r == SweepSets(cfg, m, k, cfg.sets);
    forall s | 0 <= s < cfg.sets
      ensures InOrder(r.sets[s], lists'[s], r.clock)
    {
      SetWays(cfg, m, s);
      assert SweptSet(k, m.sets[s], r.sets[s], cfg.ways);
      if k.Cleaning? {
        assert SameTags(m.sets[s], r.sets[s]);
        SameTagsInOrder(m.sets[s], r.sets[s], lists[s], m.clock);
      } else {
        EmptyInOrder(r.sets[s], r.clock);
      }
    }
  }

  lemma SetWays(cfg: Config, m: Cached, s: nat)
    requires Shaped(cfg, m) && s < cfg.sets
    ensures |m.sets[s]| == cfg.ways && DistinctTags(m.sets[s])
  {
    assert SetOk(cfg, s, m.sets[s]);
  }

  lemma CleanLineTracks(cfg: Config, m: Cached, lists: seq<seq<nat>>, op: Op)
    requires Tracks(cfg, m, lists) && op.CleanLine? && OpOk(op)
    ensures Tracks(cfg, Step(cfg, m, op), Track(cfg, lists, op)) && Step(cfg, m, op).clock == m.clock
  {
    var r, s := Step(cfg, m, op), SetOf(cfg, op.a);
    SetWays(cfg, m, s);
    hide InOrder;
    forall s' | 0 <= s' < cfg.sets
      ensures InOrder(r.sets[s'], lists[s'], r.clock)
    {
      if s' == s {
        assert SameTags(m.sets[s], r.sets[s]);
        SameTagsInOrder(m.sets[s], r.sets[s], lists[s], m.clock);
      }
    }
  }

  /** Dropping the line with a tag takes that tag out and moves nothing else. */
  lemma FindAfterDrop(xs: seq<Slot>, ys: seq<Slot>, t: nat, u: nat)
    requires Has(xs, t) && DistinctTags(xs) && |ys| == |xs| && !ys[FindWay(xs, t)].valid
    requires forall v :: 0 <= v < |xs| && v != FindWay(xs, t) ==> ys[v] == xs[v]
    ensures Has(ys, u) <==> u != t && Has(xs, u)
    ensures u != t ==> StampOf(ys, u) == StampOf(xs, u)
  {
    FindUnique(ys, u, if u == t then |xs| else FindWay(xs, u));
  }

  lemma CutElements(list: seq<nat>, ways: nat, t: nat)
    requires Distinct(list)
    ensures var c := Cut(list, ways, t);
            && Distinct(c) && |c| <= Min(|list|, ways)
            && (t !in Front(list, ways) ==> c == Front(list, ways))
            && forall i: nat :: i < Min(|list|, ways) && list[i] == t ==> c == list[..i] + list[i + 1..Min(|list|, ways)]
  {
    var f := Front(list, ways);
    DroppedDistinct(f, t);
    forall i: nat | i < |f| && list[i] == t
      ensures Cut(list, ways, t) == list[..i] + list[i + 1..|f|]
    {
      DroppedAt(f, i);
      assert f[..i] == list[..i] && f[i + 1..] == list[i + 1..|f|];
    }
    if t in f {
      var i :| 0 <= i < |f| && f[i] == t;
      assert list[i] == t;
    }
  }

  /** A snoop that finds its line. */
  lemma DropInOrder(xs: seq<Slot>, ys: seq<Slot>, list: seq<nat>, t: nat, clock: nat)
    requires InOrder(xs, list, clock) && Has(xs, t) && |ys| == |xs| && !ys[FindWay(xs, t)].valid
    requires forall v :: 0 <= v < |xs| && v != FindWay(xs, t) ==> ys[v] == xs[v]
    ensures InOrder(ys, Cut(list, |xs|, t), clock)
  {
    hide Cut, Aged, StampOf;
    assert t in Front(list, |xs|);
    var i :| 0 <= i < Min(|list|, |xs|) && list[i] == t;
    forall u: nat
      ensures Has(ys, u) <==> u != t && Has(xs, u)
      ensures u != t ==> StampOf(ys, u) == StampOf(xs, u)
    {
      FindAfterDrop(xs, ys, t, u);
    }
    assert DistinctTags(ys);
    hide Has, FindWay, DistinctTags;
    DropResidents(xs, ys, list, t);
    DropAged(xs, ys, list, i, clock);
  }

  lemma DropResidents(xs: seq<Slot>, ys: seq<Slot>, list: seq<nat>, t: nat)
    requires Residents(xs, list) && |ys| == |xs| && DistinctTags(ys)
    requires forall u: nat :: Has(ys, u) <==> u != t && Has(xs, u)
    ensures Residents(ys, Cut(list, |xs|, t))
  {
    hide Has, DistinctTags, Distinct;
    CutElements(list, |xs|, t);
    var c := Cut(list, |xs|, t);
    assert Front(c, |ys|) == c;
  }

  lemma DropAged(xs: seq<Slot>, ys: seq<Slot>, list: seq<nat>, i: nat, clock: nat)
    requires Aged(xs, list, clock) && |ys| == |xs| && Distinct(list) && i < Min(|list|, |xs|)
    requires forall u: nat :: u != list[i] ==> StampOf(ys, u) == StampOf(xs, u)
    ensures Aged(ys, Cut(list, |xs|, list[i]), clock)
  {
    hide StampOf;
    CutElements(list, |xs|, list[i]);
    var c := Cut(list, |xs|, list[i]);
    hide Cut;
    forall j | 0 <= j < |c|
      ensures var k := if j < i then j else j + 1; c[j] == list[k] && StampOf(ys, c[j]) == StampOf(xs, list[k])
    {
    }
  }

  /** A snoop that finds nothing. */
  lemma CutInOrder(xs: seq<Slot>, list: seq<nat>, t: nat, clock: nat)
    requires InOrder(xs, list, clock) && !Has(xs, t)
    ensures InOrder(xs, Cut(list, |xs|, t), clock)
  {
    CutElements(list, |xs|, t);
    assert Has(xs, t) <==> t in Front(list, |xs|);
    var c := Cut(list, |xs|, t);
    assert Front(c, |xs|) == c == Front(list, |xs|);
  }

  lemma SnoopTracks(cfg: Config, m: Cached, lists: seq<seq<nat>>, op: Op)
    requires Tracks(cfg, m, lists) && op.SnoopLine? && OpOk(op)
    ensures Tracks(cfg, Step(cfg, m, op), Track(cfg, lists, op)) && Step(cfg, m, op).clock == m.clock
  {
    var s, t := SetOf(cfg, op.a), TagOf(cfg, op.a);
    var r := Step(cfg, m, op);
    SetWays(cfg, m, s);
    hide InOrder, Cut;
    if Held(cfg, m, op.a) {
      DropInOrder(m.sets[s], r.sets[s], lists[s], t, m.clock);
    } else {
      CutInOrder(m.sets[s], lists[s], t, m.clock);
    }
  }

  /** One call: the lists follow the cache, and the clock moves by at most one. */
  lemma StepTracks(cfg: Config, m: Cached, lists: seq<seq<nat>>, op: Op)
    requires Tracks(cfg, m, lists) && OpOk(op) && m.clock < STAMP_MAX
    ensures Tracks(cfg, Step(cfg, m, op), Track(cfg, lists, op))
    ensures Step(cfg, m, op).clock <= m.clock + 1
  {
    match op
    case Load(_, _) =>
      AccessTracks(cfg, m, lists, op);
    case Store(_, _, _) =>
      AccessTracks(cfg, m, lists, op);
    case CleanLine(_) =>
      CleanLineTracks(cfg, m, lists, op);
    case SnoopLine(_) =>
      SnoopTracks(cfg, m, lists, op);
    case CleanAll =>
      SweepTracks(cfg, m, lists, op);
    case FlushAll =>
      SweepTracks(cfg, m, lists, op);
    case ZeroStats =>
  }

  lemma AccessTracks(cfg: Config, m: Cached, lists: seq<seq<nat>>, op: Op)
    requires Tracks(cfg, m, lists) && IsAccess(op) && m.clock < STAMP_MAX
    ensures Tracks(cfg, Step(cfg, m, op), Track(cfg, lists, op))
    ensures Step(cfg, m, op).clock <= m.clock + 1
  {
    hide InOrder, Recent;
    HeldFront(cfg, m, lists, op.a);
    if Brings(cfg, m, op) {
      AccessTouches(cfg, m, op);
      TouchedTracks(cfg, m, Step(cfg, m, op), lists, op.a, op.rnd);
    }
  }

  function TrackAll(cfg: Config, lists: seq<seq<nat>>, ops: seq<Op>): (r: seq<seq<nat>>)
    requires cfg.lineBytes > 0 && cfg.sets > 0 && |lists| == cfg.sets && OpsOk(ops)
    ensures |r| == cfg.sets
    decreases |ops|
  {
    if ops == [] then lists else TrackAll(cfg, Track(cfg, lists, ops[0]), ops[1..])
  }

  /** The resident lines of every set are the first `ways` entries of its recency list, over any run of loads, stores, cleans,
      flushes, snoops and statistics resets short enough for the 32-bit clock, with or without write-allocate. */
  lemma {:induction false} LruIsRecency(cfg: Config, m: Cached, lists: seq<seq<nat>>, ops: seq<Op>)
    requires Tracks(cfg, m, lists) && OpsOk(ops) && m.clock + |ops| <= STAMP_MAX
    ensures Tracks(cfg, Run(cfg, m, ops).0, TrackAll(cfg, lists, ops))
    ensures forall a :: 0 <= a < SPACE ==>
      (Held(cfg, Run(cfg, m, ops).0, a) <==> TagOf(cfg, a) in Front(TrackAll(cfg, lists, ops)[SetOf(cfg, a)], cfg.ways))
    decreases |ops|
  {
    if ops == [] {
      forall a | 0 <= a < SPACE
        ensures Held(cfg, m, a) <==> TagOf(cfg, a) in Front(lists[SetOf(cfg, a)], cfg.ways)
      {
        HeldFront(cfg, m, lists, a);
      }
    } else {
      StepTracks(cfg, m, lists, ops[0]);
      LruIsRecency(cfg, Step(cfg, m, ops[0]), Track(cfg, lists, ops[0]), ops[1..]);
    }
  }

  lemma HeldFront(cfg: Config, m: Cached, lists: seq<seq<nat>>, a: nat)
    requires Tracks(cfg, m, lists) && a < SPACE
    ensures Held(cfg, m, a) <==> TagOf(cfg, a) in Front(lists[SetOf(cfg, a)], cfg.ways)
  {
    var s := SetOf(cfg, a);
    assert SetOk(cfg, s, m.sets[s]) && InOrder(m.sets[s], lists[s], m.clock);
    assert Has(m.sets[s], TagOf(cfg, a)) <==> TagOf(cfg, a) in Front(lists[s], cfg.ways);
  }

  function Misses(m: Cached): nat {
    m.stats.readMiss + m.stats.writeMiss
  }

  lemma MissCounted(cfg: Config, m: Cached, op: Op)
    requires Shaped(cfg, m) && OpOk(op)
    ensures Misses(Step(cfg, m, op)) ==
            if op.ZeroStats? then 0 else Misses(m) + if IsAccess(op) && !Held(cfg, m, op.a) then 1 else 0
  {
    hide SetOk, FindWay;
    match op
    case CleanAll => SweepKeepsMisses(cfg, m, Cleaning, cfg.sets);
    case FlushAll => SweepKeepsMisses(cfg, m, Flushing, cfg.sets);
    case _ =>
  }

  lemma {:induction false} SweepSetMisses(cfg: Config, m: Cached, k: Sweep, s: nat, n: nat)
    requires Shaped(cfg, m) && s < cfg.sets && n <= cfg.ways
    ensures Misses(SweepSet(cfg, m, k, s, n)) == Misses(m)
    decreases n
  {
    if n > 0 { SweepSetMisses(cfg, m, k, s, n - 1); }
  }

  lemma {:induction false} SweepKeepsMisses(cfg: Config, m: Cached, k: Sweep, n: nat)
    requires Shaped(cfg, m) && n <= cfg.sets
    ensures Misses(SweepSets(cfg, m, k, n)) == Misses(m)
    decreases n
  {
    hide SweepSet;
    if n > 0 {
      SweepKeepsMisses(cfg, m, k, n - 1);
      SweepSetMisses(cfg, SweepSets(cfg, m, k, n - 1), k, n - 1, cfg.ways);
    }
  }

  // ---- more ways ----

  ghost predicate Prefixes(lists: seq<seq<nat>>, lists': seq<seq<nat>>) {
    |lists| == |lists'| && forall s :: 0 <= s < |lists| ==> lists[s] <= lists'[s] && Distinct(lists'[s])
  }

  lemma {:induction false} DroppedAppend(xs: seq<nat>, ys: seq<nat>, x: nat)
    ensures Dropped(xs + ys, x) == Dropped(xs, x) + Dropped(ys, x)
  {
    if xs == [] {
      assert xs + ys == ys;
    } else {
      DroppedAppend(xs[1..], ys, x);
      var h := if xs[0] == x then [] else [xs[0]];
      assert Dropped(xs, x) == h + Dropped(xs[1..], x);
      assert Dropped(xs + ys, x) == h + Dropped(xs[1..] + ys, x) by {
        assert (xs + ys)[1..] == xs[1..] + ys;
      }
      hide Dropped;
      assert h + (Dropped(xs[1..], x) + Dropped(ys, x)) == (h + Dropped(xs[1..], x)) + Dropped(ys, x);
    }
  }

  lemma DroppedPrefix(xs: seq<nat>, ys: seq<nat>, x: nat)
    requires xs <= ys
    ensures Dropped(xs, x) <= Dropped(ys, x) && Recent(xs, x) <= Recent(ys, x)
  {
    DroppedAppend(xs, ys[|xs|..], x);
    assert xs + ys[|xs|..] == ys;
  }

  lemma CutPrefix(xs: seq<nat>, ys: seq<nat>, v: nat, w: nat, x: nat)
    requires xs <= ys && v <= w
    ensures Cut(xs, v, x) <= Cut(ys, w, x)
  {
    assert Front(xs, v) <= Front(ys, w);
    DroppedPrefix(Front(xs, v), Front(ys, w), x);
  }

  /** The smaller cache's lists stay prefixes of the larger one's. */
  lemma TrackPrefixes(small: Config, big: Config, lists: seq<seq<nat>>, lists': seq<seq<nat>>, op: Op)
    requires small.sets == big.sets > 0 && small.lineBytes == big.lineBytes > 0 && small.ways <= big.ways
    requires small.writeAlloc && big.writeAlloc && OpOk(op)
    requires |lists| == small.sets && Prefixes(lists, lists')
    ensures Prefixes(Track(small, lists, op), Track(big, lists', op))
  {
    hide Cut, Recent, Front;
    if op.Load? || op.Store? || op.SnoopLine? {
      var s, t := SetOf(small, op.a), TagOf(small, op.a);
      assert SetOf(big, op.a) == s && TagOf(big, op.a) == t;
      DroppedPrefix(lists[s], lists'[s], t);
      CutPrefix(lists[s], lists'[s], small.ways, big.ways, t);
      RecentDistinct(lists'[s], t);
      CutElements(lists'[s], big.ways, t);
    }
  }

  lemma RecentDistinct(list: seq<nat>, t: nat)
    requires Distinct(list)
    ensures Distinct(Recent(list, t))
  {
    DroppedDistinct(list, t);
    ConsDistinct(t, Dropped(list, t));
  }

  /** LRU inclusion: at equal sets and line size, the write-allocating cache with more ways always holds everything the other
      holds and has missed no more often, on any trace of accesses and maintenance calls, whatever the two write
      policies are. */
  lemma {:induction false} MoreWaysNeverMissMore(small: Config, big: Config, m: Cached, n: Cached,
                                                 lists: seq<seq<nat>>, lists': seq<seq<nat>>, ops: seq<Op>)
    requires small.sets == big.sets && small.lineBytes == big.lineBytes && small.ways <= big.ways
    requires small.writeAlloc && big.writeAlloc
    requires Tracks(small, m, lists) && Tracks(big, n, lists') && Prefixes(lists, lists') && OpsOk(ops)
    requires m.clock + |ops| <= STAMP_MAX && n.clock + |ops| <= STAMP_MAX
    requires Misses(n) <= Misses(m)
    ensures Misses(Run(big, n, ops).0) <= Misses(Run(small, m, ops).0)
    ensures forall a :: 0 <= a < SPACE && Held(small, Run(small, m, ops).0, a) ==> Held(big, Run(big, n, ops).0, a)
    decreases |ops|
  {
    hide Track, Prefixes, Misses;
    if ops == [] {
      forall a | 0 <= a < SPACE && Held(small, m, a)
        ensures Held(big, n, a)
      {
        Included(small, big, m, n, lists, lists', a);
      }
    } else {
      if IsAccess(ops[0]) { Included(small, big, m, n, lists, lists', ops[0].a); }
      MissCounted(small, m, ops[0]);
      MissCounted(big, n, ops[0]);
      StepTracks(small, m, lists, ops[0]);
      StepTracks(big, n, lists', ops[0]);
      TrackPrefixes(small, big, lists, lists', ops[0]);
      MoreWaysNeverMissMore(small, big, Step(small, m, ops[0]), Step(big, n, ops[0]),
                            Track(small, lists, ops[0]), Track(big, lists', ops[0]), ops[1..]);
    }
  }

  lemma Included(small: Config, big: Config, m: Cached, n: Cached, lists: seq<seq<nat>>, lists': seq<seq<nat>>, a: nat)
    requires small.sets == big.sets && small.lineBytes == big.lineBytes && small.ways <= big.ways
    requires Tracks(small, m, lists) && Tracks(big, n, lists') && Prefixes(lists, lists') && a < SPACE
    ensures Held(small, m, a) ==> Held(big, n, a)
  {
    HeldFront(small, m, lists, a);
    HeldFront(big, n, lists', a);
    var s := SetOf(small, a);
    assert s == SetOf(big, a) && TagOf(small, a) == TagOf(big, a);
    var f, g := Front(lists[s], small.ways), Front(lists'[s], big.ways);
    assert f <= g;
    assert forall t :: t in f ==> t in g;
  }

  /** A freshly configured cache tracks empty lists. */
  lemma ColdTracks(cfg: Config, m: Cached)
    requires Shaped(cfg, m) && cfg.repl == LRU && Cold(cfg, m)
    ensures Tracks(cfg, m, seq(cfg.sets, _ => []))
  {
    var lists: seq<seq<nat>> := seq(cfg.sets, _ => []);
    forall s | 0 <= s < cfg.sets
      ensures InOrder(m.sets[s], lists[s], m.clock)
    {
      SetWays(cfg, m, s);
      assert lists[s] == [];
      EmptyInOrder(m.sets[s], m.clock);
    }
  }

  /** No valid line yet. */
  ghost predicate Cold(cfg: Config, m: Cached)
    requires Shaped(cfg, m)
  {
    forall s, w :: 0 <= s < cfg.sets && 0 <= w < |m.sets[s]| ==> !m.sets[s][w].valid
  }

  /** From a cold start: after any run within the clock, an address is resident exactly when its tag is among the first
      `ways` entries of the list its set's history makes. */
  lemma RecencyFromCold(cfg: Config, m: Cached, ops: seq<Op>, a: nat)
    requires Shaped(cfg, m) && cfg.repl == LRU && Cold(cfg, m) && OpsOk(ops) && m.clock + |ops| <= STAMP_MAX && a < SPACE
    ensures Held(cfg, Run(cfg, m, ops).0, a)
            <==> TagOf(cfg, a) in Front(TrackAll(cfg, seq(cfg.sets, _ => []), ops)[SetOf(cfg, a)], cfg.ways)
  {
    ColdTracks(cfg, m);
    LruIsRecency(cfg, m, seq(cfg.sets, _ => []), ops);
  }

  /** From cold starts with zeroed counters the cache with more ways never misses more. */
  lemma MoreWaysFromCold(small: Config, big: Config, m: Cached, n: Cached, ops: seq<Op>)
    requires small.sets == big.sets && small.lineBytes == big.lineBytes && small.ways <= big.ways
    requires small.writeAlloc && big.writeAlloc && small.repl == LRU && big.repl == LRU && OpsOk(ops)
    requires Shaped(small, m) && Shaped(big, n) && Cold(small, m) && Cold(big, n)
    requires m.clock == n.clock == 0 && Misses(m) == Misses(n) == 0 && |ops| <= STAMP_MAX
    ensures Misses(Run(big, n, ops).0) <= Misses(Run(small, m, ops).0)
    ensures forall a :: 0 <= a < SPACE && Held(small, Run(small, m, ops).0, a) ==> Held(big, Run(big, n, ops).0, a)
  {
    ColdTracks(small, m);
    ColdTracks(big, n);
    MoreWaysNeverMissMore(small, big, m, n, seq(small.sets, _ => []), seq(big.sets, _ => []), ops);
  }

  /** The clock bound is needed: when the 32-bit clock wraps, a full set evicts the line just touched. */
  lemma WrapEvictsNewest(cfg: Config, xs: seq<Slot>, w: nat, rnd: nat)
    requires cfg.repl == LRU && |xs| == cfg.ways && w < |xs|
    requires forall v :: 0 <= v < |xs| ==> xs[v].valid && 0 < xs[v].stamp <= STAMP_MAX
    ensures Tick(STAMP_MAX) == 0
    ensures PickVictim(cfg, xs[w := xs[w].(stamp := Tick(STAMP_MAX))], rnd) == w
  {
    var ys := xs[w := xs[w].(stamp := Tick(STAMP_MAX))];
    assert forall v :: 0 <= v < |ys| ==> ys[v].valid;
    assert FirstInvalid(ys) == |ys|;
    assert ys[w].stamp == 0;
  }
}
