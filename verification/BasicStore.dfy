/** The line store in raw memory: records found by walking, gaps opened and closed by moving bytes. */
module BasicStore {
  import opened Bits
  import opened Text
  import opened BasicCells
  import opened BasicExpr
  import opened BasicNumbers
  import opened BasicPrint
  import opened BasicProgram

  const PROG := 0x300
  const LIMIT := 0x800

  /** The bytes at the start of record `k`, and where the next one starts. */
  lemma RecordHead(p: seq<Rec>, k: nat)
    requires GoodRecs(p) && k < |p|
    ensures GoodRecs(p[..k]) && GoodRecs(p[..k + 1])
    ensures var o, n := |Flat(p[..k])|, |p[k].text| + 4;
            && |Flat(p[..k + 1])| == o + n <= |Flat(p)| && n < 256
            && Flat(p)[o] == p[k].num % 256 && Flat(p)[o + 1] == p[k].num / 256 && Flat(p)[o + 2] == n
            && Flat(p)[..o] == Flat(p[..k]) && Flat(p)[o + n..] == Flat(p[k + 1..])
  {
    FlatSplit(p, k);
    hide Flat;
    var o, b := |Flat(p[..k])|, Bytes(p[k]);
    assert (Flat(p[..k]) + b + Flat(p[k + 1..]))[o..o + |b|] == b;
    assert Flat(p)[o] == b[0] && Flat(p)[o + 1] == b[1] && Flat(p)[o + 2] == b[2];
  }

  lemma RecordSlice(p: seq<Rec>, k: nat)
    requires GoodRecs(p) && k < |p|
    ensures GoodRecs(p[..k])
    ensures var o, n := |Flat(p[..k])|, |p[k].text| + 4; o + n <= |Flat(p)| && Flat(p)[o..o + n] == Bytes(p[k])
  {
    FlatSplit(p, k);
    hide Flat, Bytes, GoodText;
    var a, b, c := Flat(p[..k]), Bytes(p[k]), Flat(p[k + 1..]);
    assert (a + b + c)[|a|..|a| + |b|] == b;
  }

  lemma FlatNone(p: seq<Rec>, k: nat)
    requires GoodRecs(p) && k == |p|
    ensures p[..k] == p && GoodRecs(p[..k]) && |Flat(p[..k])| == |Flat(p)|
  {
  }

  /** The bytes of a program with a new record. */
  lemma InsertedBytes(p: seq<Rec>, r: Rec)
    requires GoodProg(p) && !Found(p, r.num) && GoodText(r.text) && |Flat(p)| + |r.text| + 4 <= AREA
    ensures GoodRecs(p) && GoodRecs(p[..Position(p, r.num)])
    ensures GoodProg(Inserted(p, r)) && GoodRecs(Inserted(p, r))
    ensures var o := |Flat(p[..Position(p, r.num)])|;
            && o <= |Flat(p)| && Flat(Inserted(p, r)) == Flat(p)[..o] + Bytes(r) + Flat(p)[o..]
  {
    hide Flat, Position, Bytes, Inserted;
    FlatHalves(p, Position(p, r.num));
    InsertedFlat(p, r);
    WithoutAscending(p, r.num);
    InsertedAscending(p, r);
  }

  function AsString(t: seq<byte>): (r: string)
    ensures |r| == |t| && forall i :: 0 <= i < |t| ==> r[i] == t[i] as char
  {
    if t == [] then "" else [t[0] as char] + AsString(t[1..])
  }

  /** A line as LIST prints it. */
  function Listed(r: Rec): string { Decimal(r.num) + " " + AsString(r.text) }

  /** What LIST prints: every line, and a carriage return and a line feed behind it. */
  function Listing(p: seq<Rec>): string {
    if p == [] then "" else Listed(p[0]) + "\r\n" + Listing(p[1..])
  }

  lemma TextByte(r: Rec, y: nat)
    requires |r.text| < 252 && 3 <= y <= |r.text| + 3 && GoodText(r.text)
    ensures y < |r.text| + 3 ==> Bytes(r)[y] == r.text[y - 3]
    ensures Bytes(r)[y] == 0 <==> y == |r.text| + 3
  {
  }

  lemma ThreeParts(m: seq<byte>, a: nat, b: nat, c: nat, d: nat)
    requires a <= b <= c <= d <= |m|
    ensures m[a..d] == m[a..b] + m[b..c] + m[c..d]
  {
  }

  lemma SliceOf(m: seq<byte>, a: nat, e: nat, o: nat, n: nat)
    requires a + o + n <= e <= |m|
    ensures m[a..e][o..o + n] == m[a + o..a + o + n]
  {
    var x, y := m[a..e][o..o + n], m[a + o..a + o + n];
    assert forall i :: 0 <= i < n ==> x[i] == y[i] == m[a + o + i];
  }

  class Store {
    const mem: array<byte>
    var pend: nat
    var eptr: nat
    ghost var prog: seq<Rec>

    ghost predicate Valid()
      reads this, mem
    {
      && mem.Length == LIMIT && GoodProg(prog)
      && pend == PROG + |Flat(prog)| && mem[PROG..pend] == Flat(prog)
    }

    constructor ()
      ensures Valid() && fresh(mem) && prog == []
    {
      mem := new byte[LIMIT];
      pend, eptr, prog := PROG, PROG, [];
    }

    /** Where record `k` starts. */
    ghost function Start(k: nat): nat
      requires k <= |prog| && GoodRecs(prog[..k])
      reads this
    {
      PROG + |Flat(prog[..k])|
    }

    /** `FIND_LINE`: EPTR at the record with this number, or where it would go. */
    method FindLine(num: word) returns (found: bool)
      requires Valid()
      modifies this`eptr
      ensures Valid() && found == Found(prog, num)
      ensures GoodRecs(prog[..Position(prog, num)]) && eptr == Start(Position(prog, num))
    {
      hide Flat, Position;
      eptr := PROG;
      ghost var k: nat := 0;
      NoRecords();
      while true
        invariant Valid() && k <= |prog| && GoodRecs(prog[..k]) && eptr == Start(k)
        invariant forall j :: 0 <= j < k ==> prog[j].num < num
        decreases |prog| - k
      {
        if k < |prog| { RecordHead(prog, k); } else { FlatNone(prog, k); }
        if eptr >= pend {
          PositionIs(prog, num, k);
          return false;
        }
        ghost var o := eptr - PROG;
        assert forall x {:trigger mem[x]} :: PROG <= x < pend ==> mem[x] == mem[PROG..pend][x - PROG];
        var hi, lo: int := mem[eptr + 1], mem[eptr];
        assert lo + 256 * hi == prog[k].num;
        if hi != num / 256 {
          if hi > num / 256 {
            PositionIs(prog, num, k);
            return false;
          }
        } else if lo >= num % 256 {
          PositionIs(prog, num, k);
          return lo == num % 256;
        }
        eptr := eptr + mem[eptr + 2];
        k := k + 1;
      }
    }

    lemma NoRecords()
      ensures |Flat(prog[..0])| == 0
    {
    }

    /** `shift_right`: everything from EPTR up moved by `n` bytes, the last byte first. */
    method ShiftRight(n: nat)
      requires mem.Length == LIMIT && eptr <= pend && pend + n <= LIMIT
      modifies this`pend, mem
      ensures pend == old(pend) + n
      ensures mem[eptr + n..pend] == old(mem[eptr..pend]) && mem[..eptr] == old(mem[..eptr])
    {
      var count := pend - eptr;
      while count > 0
        modifies mem
        invariant 0 <= count <= pend - eptr
        invariant forall a :: eptr + n + count <= a < pend + n ==> mem[a] == old(mem[a - n])
        invariant forall a :: 0 <= a < eptr + count ==> mem[a] == old(mem[a])
      {
        var sp1 := eptr + count - 1;
        mem[sp1 + n] := mem[sp1];
        count := count - 1;
      }
      pend := pend + n;
    }

    /** `shift_left`: everything above the `n` bytes at EPTR moved down over them, the first byte first. */
    method ShiftLeft(n: nat)
      requires mem.Length == LIMIT && eptr + n <= pend <= LIMIT
      modifies this`pend, mem
      ensures pend == old(pend) - n
      ensures mem[eptr..pend] == old(mem[eptr + n..pend]) && mem[..eptr] == old(mem[..eptr])
    {
      var sp2 := eptr;
      var count := pend - (eptr + n);
      while count > 0
        modifies mem
        invariant count >= 0 && sp2 + n + count == pend && eptr <= sp2
        invariant forall a :: eptr <= a < sp2 ==> mem[a] == old(mem[a + n])
        invariant forall a :: 0 <= a < eptr ==> mem[a] == old(mem[a])
        invariant forall a :: sp2 + n <= a < pend ==> mem[a] == old(mem[a])
      {
        mem[sp2] := mem[sp2 + n];
        sp2 := sp2 + 1;
        count := count - 1;
      }
      pend := pend - n;
    }

    /** The text and its terminator copied to `at`. */
    method PutText(at: nat, text: seq<byte>)
      requires mem.Length == LIMIT && at + |text| + 1 <= LIMIT
      modifies mem
      ensures mem[at..at + |text| + 1] == text + [0]
      ensures mem[..at] == old(mem[..at]) && mem[at + |text| + 1..] == old(mem[at + |text| + 1..])
    {
      var y := 0;
      while y < |text|
        invariant 0 <= y <= |text|
        invariant forall a :: at <= a < at + y ==> mem[a] == text[a - at]
        invariant forall a :: 0 <= a < LIMIT && (a < at || at + |text| < a) ==> mem[a] == old(mem[a])
      {
        mem[at + y] := text[y];
        y := y + 1;
      }
      mem[at + |text|] := 0;
    }

    /** Header, text and terminator at EPTR. */
    method PutRecord(num: word, text: seq<byte>)
      requires mem.Length == LIMIT && |text| < 252 && eptr + |text| + 4 <= LIMIT
      modifies mem
      ensures mem[eptr..eptr + |text| + 4] == Bytes(Rec(num, text))
      ensures mem[..eptr] == old(mem[..eptr]) && mem[eptr + |text| + 4..] == old(mem[eptr + |text| + 4..])
    {
      mem[eptr] := num % 256;
      mem[eptr + 1] := num / 256;
      mem[eptr + 2] := |text| + 4;
      ghost var head, tail := mem[..eptr + 3], mem[eptr + |text| + 4..];
      assert head[..eptr] == old(mem[..eptr]) && tail == old(mem[eptr + |text| + 4..]);
      assert head[eptr..] == [num % 256, num / 256, |text| + 4];
      PutText(eptr + 3, text);
      assert mem[..eptr] == mem[..eptr + 3][..eptr];
      assert mem[eptr..eptr + |text| + 4] == mem[..eptr + 3][eptr..] + mem[eptr + 3..eptr + |text| + 4];
    }

    /** A gap opened at EPTR and a record put into it. */
    method OpenAndPut(num: word, text: seq<byte>)
      requires mem.Length == LIMIT && |text| < 252 && PROG <= eptr <= pend && pend + |text| + 4 <= LIMIT
      modifies this`pend, mem
      ensures pend == old(pend) + |text| + 4
      ensures mem[PROG..pend] == old(mem[PROG..eptr]) + Bytes(Rec(num, text)) + old(mem[eptr..pend])
    {
      hide Bytes;
      var n := |text| + 4;
      ghost var from := mem[eptr..pend];
      ShiftRight(n);
      ghost var rest := mem[eptr + n..];
      assert rest[..pend - eptr - n] == mem[eptr + n..pend] == from;
      PutRecord(num, text);
      assert mem[eptr + n..pend] == rest[..pend - eptr - n];
      assert mem[PROG..eptr] == mem[..eptr][PROG..] == old(mem[..eptr])[PROG..] == old(mem[PROG..eptr]);
      ThreeParts(mem[..], PROG, eptr, eptr + n, pend);
    }

    /** The record at EPTR taken out. */
    method Delete(num: word)
      requires Valid() && Found(prog, num) && GoodRecs(prog[..Position(prog, num)])
      requires eptr == Start(Position(prog, num))
      modifies this`pend, this`prog, mem
      ensures Valid() && prog == Without(old(prog), num)
    {
      hide Flat, Position, Bytes;
      ghost var k := Position(prog, num);
      RecordHead(prog, k);
      WithoutFlat(prog, num);
      WithoutAscending(prog, num);
      ghost var flat, o := Flat(prog), eptr - PROG;
      var n := mem[eptr + 2];
      assert n == flat[o + 2] by { assert mem[eptr + 2] == mem[PROG..pend][o + 2]; }
      assert mem[..eptr][PROG..] == flat[..o] && mem[eptr + n..pend] == flat[o + n..];
      ShiftLeft(n);
      assert mem[PROG..pend] == mem[..eptr][PROG..] + mem[eptr..pend];
      assert mem[..eptr][PROG..] == flat[..o] && mem[eptr..pend] == flat[o + n..];
      prog := Without(prog, num);
    }

    /** The record for a number not in the program put in at EPTR. */
    method Insert(num: word, text: seq<byte>)
      requires Valid() && !Found(prog, num) && GoodRecs(prog[..Position(prog, num)])
      requires eptr == Start(Position(prog, num)) && GoodText(text) && pend + |text| + 4 <= LIMIT
      modifies this`pend, this`prog, mem
      ensures Valid() && prog == Inserted(old(prog), Rec(num, text))
    {
      hide Flat, Position, Bytes, Inserted, GoodProg, Found;
      InsertedBytes(prog, Rec(num, text));
      ghost var flat, o := Flat(prog), eptr - PROG;
      assert mem[PROG..pend] == flat && PROG + o == eptr <= pend <= LIMIT;
      assert mem[PROG..pend] == mem[PROG..eptr] + mem[eptr..pend];
      assert mem[PROG..eptr] == flat[..o];
      assert mem[eptr..pend] == flat[o..];
      OpenAndPut(num, text);
      prog := Inserted(prog, Rec(num, text));
    }

    /** STORE_LINE from the parsed number on; `tooBig` when the message is printed. */
    method StoreLine(num: word, text: seq<byte>) returns (tooBig: bool)
      requires Valid() && |text| <= 254 && GoodEdit(Edit(num, text))
      modifies this, mem
      ensures Valid() && prog == Edited(old(prog), num, text)
      ensures tooBig <==> text != [] && !(|text| < 252 && |Flat(Without(old(prog), num))| + |text| + 4 <= AREA)
    {
      hide Flat, Position, Inserted, Bytes;
      ghost var p := prog;
      var found := FindLine(num);
      if found {
        Delete(num);
        if text == [] { return false; }
        WithoutAscending(p, num);
        NotFoundAfter(p, num);
        found := FindLine(num);
      }
      if text == [] { return false; }
      if |text| >= 252 { return true; }
      if pend + |text| + 4 > LIMIT { return true; }
      Insert(num, text);
      tooBig := false;
    }

    /** The text of the record at `at`, from its fourth byte to the NUL. */
    method ListText(at: nat, end: byte, ghost r: Rec) returns (out: string)
      requires mem.Length == LIMIT && GoodText(r.text) && end == |r.text| + 4 && at + |r.text| + 4 <= LIMIT
      requires mem[at..at + |r.text| + 4] == Bytes(r)
      ensures out == AsString(r.text)
    {
      ghost var b := Bytes(r);
      assert forall i :: 0 <= i < |b| ==> mem[at + i] == mem[at..at + |r.text| + 4][i] == b[i];
      out := "";
      var y: nat := 3;
      while y != end && mem[at + y] != 0
        invariant 3 <= y <= |r.text| + 3 && |out| == y - 3
        invariant forall i :: 0 <= i < |out| ==> out[i] == r.text[i] as char
        decreases |r.text| + 3 - y
      {
        TextByte(r, y);
        out := out + [mem[at + y] as char];
        y := y + 1;
      }
      TextByte(r, y);
      assert out == AsString(r.text);
    }

    /** `cmd_LIST`: from PROG by the length bytes to PEND; what it prints is the program's listing. */
    method List(zp: array<byte>) returns (out: string)
      requires Valid() && zp.Length == 256 && zp != mem
      modifies zp
      ensures Valid() && out == Listing(prog)
    {
      hide Flat, Listed, Decimal, Bytes, Wide;
      out := "";
      var tmp: nat := PROG;
      ghost var k: nat := 0;
      NoRecords();
      assert prog[0..] == prog;
      while tmp != pend
        invariant Valid() && k <= |prog| && GoodRecs(prog[..k]) && tmp == Start(k)
        invariant out + Listing(prog[k..]) == Listing(prog)
        decreases |prog| - k
      {
        if k < |prog| { RecordHead(prog, k); } else { FlatNone(prog, k); }
        var line := ListLine(zp, tmp, k);
        ghost var rest := Listing(prog[k + 1..]);
        assert Listing(prog[k..]) == Listed(prog[k]) + "\r\n" + rest by {
          assert prog[k..][0] == prog[k] && prog[k..][1..] == prog[k + 1..];
        }
        assert out + (line + rest) == (out + line) + rest;
        out := out + line;
        RecordBytes(k);
        tmp := tmp + mem[tmp + 2];
        k := k + 1;
      }
      if k < |prog| { RecordHead(prog, k); }
      assert k == |prog| && prog[k..] == [];
    }

    /** One line of the listing. */
    method ListLine(zp: array<byte>, tmp: nat, ghost k: nat) returns (out: string)
      requires Valid() && zp.Length == 256 && zp != mem
      requires k < |prog| && GoodRecs(prog[..k]) && tmp == Start(k)
      modifies zp
      ensures Valid() && out == Listed(prog[k]) + "\r\n"
    {
      hide Flat, Decimal, Bytes;
      RecordBytes(k);
      zp[AR] := mem[tmp];
      zp[AR + 1] := mem[tmp + 1];
      assert Pair(zp, AR) == prog[k].num;
      var number := PrintU16(zp);
      zp[AR + 2] := mem[tmp + 2];
      var text := ListText(tmp, zp[AR + 2], prog[k]);
      out := number + " " + text + "\r\n";
    }

    /** Record `k` as it lies in memory. */
    lemma RecordBytes(k: nat)
      requires Valid() && k < |prog| && GoodRecs(prog[..k])
      ensures var r, a := prog[k], Start(k);
              && a + |r.text| + 4 <= pend <= LIMIT && mem[a..a + |r.text| + 4] == Bytes(r)
              && mem[a] == r.num % 256 && mem[a + 1] == r.num / 256 && mem[a + 2] == |r.text| + 4
    {
      hide Flat, Bytes, GoodText;
      RecordHead(prog, k);
      RecordSlice(prog, k);
      var o, n := |Flat(prog[..k])|, |prog[k].text| + 4;
      SliceOf(mem[..], PROG, pend, o, n);
      var all := mem[PROG..pend];
      assert all[o] == mem[PROG + o] && all[o + 1] == mem[PROG + o + 1] && all[o + 2] == mem[PROG + o + 2];
    }
  }

  lemma NotFoundAfter(p: seq<Rec>, num: word)
    requires Ascending(p)
    ensures !Found(Without(p, num), num) && Without(Without(p, num), num) == Without(p, num)
  {
    hide Position;
    WithoutAscending(p, num);
    var q := Without(p, num);
    var k := Position(q, num);
    assert k < |q| ==> q[k] in q;
  }
}
