/** A stored BASIC program as a value: its records, its bytes, and line edits as updates of a finite map. */
module BasicProgram {
  import opened Bits
  import opened Text
  import opened BasicCells
  import opened BasicExpr
  import opened BasicPrint

  const AREA := 0x500

  /** A numbered line; in memory: number low, number high, record length, text, NUL. */
  datatype Rec = Rec(num: word, text: seq<byte>)

  /** Text as STORE_LINE keeps it: not blank, short enough for the length byte, no NUL, no leading space or tab. */
  predicate GoodText(t: seq<byte>) {
    0 < |t| < 252 && (forall i :: 0 <= i < |t| ==> t[i] != 0) && t[0] != 32 && t[0] != 9
  }

  function Bytes(r: Rec): (b: seq<byte>)
    requires |r.text| < 252
    ensures |b| == |r.text| + 4
  {
    [r.num % 256, r.num / 256, |r.text| + 4] + r.text + [0]
  }

  predicate GoodRecs(p: seq<Rec>) { forall k :: 0 <= k < |p| ==> GoodText(p[k].text) }

  predicate Ascending(p: seq<Rec>) { forall j, k :: 0 <= j < k < |p| ==> p[j].num < p[k].num }

  function Flat(p: seq<Rec>): seq<byte>
    requires GoodRecs(p)
  {
    if p == [] then [] else Flat(p[..|p| - 1]) + Bytes(p[|p| - 1])
  }

  ghost predicate GoodProg(p: seq<Rec>) { GoodRecs(p) && Ascending(p) && |Flat(p)| <= AREA }

  // ---- edits ----

  /** The first record whose number is not below `num`. */
  function Position(p: seq<Rec>, num: word): (k: nat)
    ensures k <= |p| && (forall j :: 0 <= j < k ==> p[j].num < num)
    ensures k < |p| ==> p[k].num >= num
    decreases |p|
  {
    if p == [] then 0
    else
      var k := Position(p[..|p| - 1], num);
      if k == |p| - 1 && p[k].num < num then |p| else k
  }

  predicate Found(p: seq<Rec>, num: word) {
    var k := Position(p, num);
    k < |p| && p[k].num == num
  }

  function Without(p: seq<Rec>, num: word): seq<Rec> {
    var k := Position(p, num);
    if Found(p, num) then p[..k] + p[k + 1..] else p
  }

  function Inserted(p: seq<Rec>, r: Rec): seq<Rec> {
    var k := Position(p, r.num);
    p[..k] + [r] + p[k..]
  }

  /** STORE_LINE: the old line goes; the new one comes if it is not blank, not too long, and fits. */
  function Edited(p: seq<Rec>, num: word, text: seq<byte>): seq<Rec>
    requires GoodRecs(p)
  {
    WithoutGood(p, num);
    var rest := Without(p, num);
    if text == [] || |text| >= 252 || |Flat(rest)| + |text| + 4 > AREA then rest else Inserted(rest, Rec(num, text))
  }

  lemma WithoutGood(p: seq<Rec>, num: word)
    requires GoodRecs(p)
    ensures GoodRecs(Without(p, num))
  {
  }

  lemma {:induction false} FlatAppend(a: seq<Rec>, b: seq<Rec>)
    requires GoodRecs(a) && GoodRecs(b)
    ensures GoodRecs(a + b) && Flat(a + b) == Flat(a) + Flat(b)
    decreases |b|
  {
    hide Bytes;
    assert forall k :: 0 <= k < |a + b| ==> (a + b)[k] == if k < |a| then a[k] else b[k - |a|];
    if b == [] {
      assert a + b == a;
    } else {
      var c := b[..|b| - 1];
      FlatAppend(a, c);
      assert (a + b)[..|a + b| - 1] == a + c;
    }
  }

  lemma FlatOne(r: Rec)
    requires GoodText(r.text)
    ensures GoodRecs([r]) && Flat([r]) == Bytes(r)
  {
    assert [r][..0] == [] && Flat([]) == [];
  }

  lemma FlatHalves(p: seq<Rec>, k: nat)
    requires GoodRecs(p) && k <= |p|
    ensures GoodRecs(p[..k]) && GoodRecs(p[k..]) && Flat(p) == Flat(p[..k]) + Flat(p[k..])
  {
    hide GoodText, Flat;
    assert p == p[..k] + p[k..];
    FlatAppend(p[..k], p[k..]);
  }

  /** The bytes of a program around record `k`. */
  lemma FlatSplit(p: seq<Rec>, k: nat)
    requires GoodRecs(p) && k < |p|
    ensures GoodRecs(p[..k]) && GoodRecs(p[k + 1..]) && GoodRecs(p[k..]) && GoodRecs(p[..k + 1])
    ensures Flat(p) == Flat(p[..k]) + Bytes(p[k]) + Flat(p[k + 1..])
    ensures Flat(p[..k + 1]) == Flat(p[..k]) + Bytes(p[k])
  {
    hide Bytes, Flat, GoodText;
    FlatHalves(p, k);
    FlatHalves(p, k + 1);
    FlatHalves(p[..k + 1], k);
    assert p[..k + 1][..k] == p[..k] && p[..k + 1][k..] == [p[k]];
    FlatOne(p[k]);
  }

  /** In an ascending program there is one place for a number. */
  lemma PositionIs(p: seq<Rec>, num: word, k: nat)
    requires Ascending(p) && k <= |p| && (forall j :: 0 <= j < k ==> p[j].num < num)
    requires k < |p| ==> p[k].num >= num
    ensures Position(p, num) == k
  {
    var i := Position(p, num);
    var atI, atK := if i < |p| then p[i].num else 0, if k < |p| then p[k].num else 0;
  }

  lemma WithoutAscending(p: seq<Rec>, num: word)
    requires Ascending(p)
    ensures Ascending(Without(p, num))
    ensures forall r :: r in Without(p, num) <==> r in p && r.num != num
  {
    var k := Position(p, num);
    if Found(p, num) {
      RemovedAscending(p, k);
    } else {
      forall j | 0 <= j < |p| ensures p[j].num != num {
        if j >= k { assert j == k || p[k].num < p[j].num; }
      }
    }
  }

  lemma RemovedAt(p: seq<Rec>, k: nat)
    requires k < |p|
    ensures var q := p[..k] + p[k + 1..];
            |q| == |p| - 1 && (forall j :: 0 <= j < k ==> q[j] == p[j]) && (forall j :: k <= j < |q| ==> q[j] == p[j + 1])
    ensures forall r :: r in p[..k] + p[k + 1..] ==> r in p
  {
  }

  lemma RemovedAscending(p: seq<Rec>, k: nat)
    requires Ascending(p) && k < |p|
    ensures Ascending(p[..k] + p[k + 1..])
    ensures forall r :: r in p[..k] + p[k + 1..] <==> r in p && r.num != p[k].num
  {
    var q := p[..k] + p[k + 1..];
    RemovedAt(p, k);
    forall i, j | 0 <= i < j < |q| ensures q[i].num < q[j].num {
      var i', j' := if i < k then i else i + 1, if j < k then j else j + 1;
      assert q[i] == p[i'] && q[j] == p[j'];
    }
    forall r | r in q ensures r.num != p[k].num {
      var j :| 0 <= j < |q| && q[j] == r;
      var j' := if j < k then j else j + 1;
      assert r == p[j'];
    }
    RemovedKeeps(p, k);
  }

  lemma RemovedKeeps(p: seq<Rec>, k: nat)
    requires k < |p|
    ensures forall r :: r in p && r.num != p[k].num ==> r in p[..k] + p[k + 1..]
  {
    RemovedAt(p, k);
    forall r | r in p && r.num != p[k].num ensures r in p[..k] + p[k + 1..] {
      var j :| 0 <= j < |p| && p[j] == r;
      if j < k {
        assert r == (p[..k] + p[k + 1..])[j];
      } else {
        assert r == (p[..k] + p[k + 1..])[j - 1];
      }
    }
  }

  lemma InsertedAt(p: seq<Rec>, r: Rec)
    ensures |Inserted(p, r)| == |p| + 1
    ensures forall j :: 0 <= j < Position(p, r.num) ==> Inserted(p, r)[j] == p[j]
    ensures Inserted(p, r)[Position(p, r.num)] == r
    ensures forall j :: Position(p, r.num) < j <= |p| ==> Inserted(p, r)[j] == p[j - 1]
  {
  }

  lemma InsertedMembers(p: seq<Rec>, r: Rec)
    ensures forall q :: q in Inserted(p, r) <==> q in p || q == r
  {
    var k, q := Position(p, r.num), Inserted(p, r);
    assert p == p[..k] + p[k..];
  }

  lemma InsertedAscending(p: seq<Rec>, r: Rec)
    requires Ascending(p) && forall q :: q in p ==> q.num != r.num
    ensures Ascending(Inserted(p, r))
    ensures forall q :: q in Inserted(p, r) <==> q in p || q == r
  {
    hide Inserted;
    InsertedAt(p, r);
    InsertedMembers(p, r);
    hide Position;
    var k, q := Position(p, r.num), Inserted(p, r);
    assert k < |p| ==> p[k] in p && p[k].num > r.num;
    forall i, j | 0 <= i < j < |q| ensures q[i].num < q[j].num {
      var x, y := q[i], q[j];
      if j < k {
        assert x == p[i] && y == p[j];
      } else if j == k {
        assert x == p[i] && y == r;
      } else if i < k {
        assert x == p[i] && y == p[j - 1];
      } else if i == k {
        assert x == r && y == p[j - 1];
        assert k == j - 1 || p[k].num < p[j - 1].num;
      } else {
        assert x == p[i - 1] && y == p[j - 1];
      }
    }
  }

  /** Bytes of a program with a record put in or taken out. */
  lemma InsertedFlat(p: seq<Rec>, r: Rec)
    requires GoodRecs(p) && GoodText(r.text)
    ensures GoodRecs(Inserted(p, r))
    ensures var k := Position(p, r.num);
            Flat(Inserted(p, r)) == Flat(p[..k]) + Bytes(r) + Flat(p[k..])
    ensures |Flat(Inserted(p, r))| == |Flat(p)| + |r.text| + 4
  {
    var k := Position(p, r.num);
    FlatHalves(p, k);
    FlatOne(r);
    FlatAppend(p[..k], [r]);
    FlatAppend(p[..k] + [r], p[k..]);
  }

  lemma WithoutFlat(p: seq<Rec>, num: word)
    requires GoodRecs(p)
    ensures GoodRecs(Without(p, num))
    ensures Found(p, num) ==> var k := Position(p, num);
                              Flat(Without(p, num)) == Flat(p[..k]) + Flat(p[k + 1..])
                              && |Flat(p)| == |Flat(Without(p, num))| + |p[k].text| + 4
  {
    if Found(p, num) {
      var k := Position(p, num);
      FlatSplit(p, k);
      FlatAppend(p[..k], p[k + 1..]);
    }
  }

  /** Every edit keeps the program well-formed, ascending and inside its area. */
  lemma EditedGood(p: seq<Rec>, num: word, text: seq<byte>)
    requires GoodProg(p) && (text != [] && |text| < 252 ==> GoodText(text))
    ensures GoodProg(Edited(p, num, text))
  {
    hide Position, Bytes;
    WithoutFlat(p, num);
    WithoutAscending(p, num);
    var rest := Without(p, num);
    if !(text == [] || |text| >= 252 || |Flat(rest)| + |text| + 4 > AREA) {
      InsertedFlat(rest, Rec(num, text));
      InsertedAscending(rest, Rec(num, text));
    }
  }

  // ---- the finite map ----

  /** The program's lines as a map. */
  ghost predicate Represents(p: seq<Rec>, m: map<word, seq<byte>>) {
    forall n: word, t: seq<byte> :: Rec(n, t) in p <==> n in m && m[n] == t
  }

  /** The bytes a set of lines takes up. */
  ghost function Weight(m: map<word, seq<byte>>): nat
    decreases |m|
  {
    if m == map[] then 0
    else
      var n :| n in m;
      |m[n]| + 4 + Weight(m - {n})
  }

  lemma {:induction false} WeightOf(m: map<word, seq<byte>>, n: word)
    requires n in m
    ensures Weight(m) == |m[n]| + 4 + Weight(m - {n})
    decreases |m|
  {
    var x :| x in m && Weight(m) == |m[x]| + 4 + Weight(m - {x});
    if x != n {
      WeightOf(m - {x}, n);
      WeightOf(m - {n}, x);
      assert m - {x} - {n} == m - {n} - {x};
    }
  }

  lemma LineOf(p: seq<Rec>, m: map<word, seq<byte>>, n: word)
    requires Represents(p, m) && n in m
    ensures Rec(n, m[n]) in p
  {
  }

  lemma NoLines(p: seq<Rec>, m: map<word, seq<byte>>)
    requires Represents(p, m) && p == []
    ensures m == map[]
  {
    hide Represents;
    forall n | n in m ensures Rec(n, m[n]) in p { LineOf(p, m, n); }
  }

  lemma {:induction false} FlatWeight(p: seq<Rec>, m: map<word, seq<byte>>)
    requires GoodRecs(p) && Ascending(p) && Represents(p, m)
    ensures |Flat(p)| == Weight(m)
    decreases |p|
  {
    if p == [] {
      NoLines(p, m);
    } else {
      var last := p[|p| - 1];
      var q := p[..|p| - 1];
      assert Rec(last.num, last.text) in p;
      WeightOf(m, last.num);
      forall n: word, t: seq<byte> ensures Rec(n, t) in q <==> n in m - {last.num} && (m - {last.num})[n] == t {
        if Rec(n, t) in q {
          var j :| 0 <= j < |q| && q[j] == Rec(n, t);
          assert p[j].num < last.num && Rec(n, t) in p;
        }
        if n in m - {last.num} && m[n] == t {
          assert Rec(n, t) in p;
          var j :| 0 <= j < |p| && p[j] == Rec(n, t);
          assert j < |q| && q[j] == Rec(n, t);
        }
      }
      FlatWeight(q, m - {last.num});
    }
  }

  /** An edit as an update of the map of lines. */
  ghost function EditedMap(m: map<word, seq<byte>>, num: word, text: seq<byte>): map<word, seq<byte>> {
    var rest := m - {num};
    if text == [] || |text| >= 252 || Weight(rest) + |text| + 4 > AREA then rest else rest[num := text]
  }

  lemma PutRepresents(p: seq<Rec>, q: seq<Rec>, m: map<word, seq<byte>>, num: word, text: seq<byte>)
    requires Represents(p, m) && num !in m && forall r :: r in q <==> r in p || r == Rec(num, text)
    ensures Represents(q, m[num := text])
  {
  }

  /** STORE_LINE refines the map: a blank text deletes, an oversize new line changes nothing, an oversize replacement
      leaves the old line deleted, anything else is stored. */
  lemma EditRefinesMap(p: seq<Rec>, m: map<word, seq<byte>>, num: word, text: seq<byte>)
    requires GoodProg(p) && Represents(p, m)
    ensures Represents(Edited(p, num, text), EditedMap(m, num, text))
  {
    hide Position, Flat, Weight, Without, Inserted, GoodRecs;
    WithoutFlat(p, num);
    WithoutAscending(p, num);
    var rest, left := Without(p, num), m - {num};
    assert Represents(rest, left);
    FlatWeight(rest, left);
    if !(text == [] || |text| >= 252 || |Flat(rest)| + |text| + 4 > AREA) {
      InsertedAscending(rest, Rec(num, text));
      PutRepresents(rest, Inserted(rest, Rec(num, text)), left, num, text);
    }
  }

  /** An edit as typed: a number and a text. */
  datatype Edit = Edit(num: word, text: seq<byte>)

  predicate GoodEdit(e: Edit) { e.text != [] && |e.text| < 252 ==> GoodText(e.text) }

  function AfterEdits(edits: seq<Edit>): (p: seq<Rec>)
    requires forall k :: 0 <= k < |edits| ==> GoodEdit(edits[k])
    ensures GoodProg(p)
    decreases |edits|
  {
    if edits == [] then []
    else
      var p := AfterEdits(edits[..|edits| - 1]);
      var e := edits[|edits| - 1];
      assert GoodEdit(e);
      EditedGood(p, e.num, e.text);
      Edited(p, e.num, e.text)
  }

  ghost function MapAfter(edits: seq<Edit>): map<word, seq<byte>>
    decreases |edits|
  {
    if edits == [] then map[]
    else EditedMap(MapAfter(edits[..|edits| - 1]), edits[|edits| - 1].num, edits[|edits| - 1].text)
  }

  /** After any sequence of edits the stored program is the edited map, in ascending order. */
  lemma {:induction false} EditsRefineMap(edits: seq<Edit>)
    requires forall k :: 0 <= k < |edits| ==> GoodEdit(edits[k])
    ensures Represents(AfterEdits(edits), MapAfter(edits)) && GoodProg(AfterEdits(edits))
    decreases |edits|
  {
    if edits != [] {
      var e := edits[|edits| - 1];
      EditsRefineMap(edits[..|edits| - 1]);
      EditRefinesMap(AfterEdits(edits[..|edits| - 1]), MapAfter(edits[..|edits| - 1]), e.num, e.text);
    }
  }
}
