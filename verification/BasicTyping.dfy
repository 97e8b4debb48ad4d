/** The console side of the line store: READLINE with its case folding and backspace, lines typed at the prompt, and what
    becomes of a listing that is typed back in. */
module BasicTyping {
  import opened Bits
  import opened Text
  import opened BasicCells
  import opened BasicExpr
  import opened BasicPrint
  import opened BasicProgram
  import opened BasicStore

  // ---- READLINE ----

  /** What READLINE has so far: the buffer and the in-quotes flag. */
  datatype Typing = Typing(buf: string, quoted: bool)

  predicate LineEnd(c: char) { c == '\r' || c == '\n' }

  predicate Rubout(c: char) { c as int == 8 || c as int == 127 }

  function Upper(c: char): char { if 'a' <= c <= 'z' then (c as int - 32) as char else c }

  /** One key.  A rubout takes the last character back but not a flip of the flag; a full buffer drops the character but not
      the flip; letters are folded outside quotes. */
  function Press(t: Typing, c: char): (r: Typing)
    requires |t.buf| <= 255
    ensures |r.buf| <= 255
  {
    if Rubout(c) then t.(buf := if t.buf == "" then "" else t.buf[..|t.buf| - 1])
    else
      var k := if c == '"' || t.quoted then c else Upper(c);
      Typing(if |t.buf| < 255 then t.buf + [k] else t.buf, t.quoted != (c == '"'))
  }

  /** All keys up to the first line end. */
  function Pressed(t: Typing, keys: string): (r: Typing)
    requires |t.buf| <= 255
    ensures |r.buf| <= 255
    decreases |keys|
  {
    if keys == "" || LineEnd(keys[0]) then t else Pressed(Press(t, keys[0]), keys[1..])
  }

  const NOTHING := Typing("", false)

  /** The line READLINE makes of the keys. */
  function Line(keys: string): string { Pressed(NOTHING, keys).buf }

  /** The number of keys before the first line end. */
  function LineLen(keys: string): (n: nat)
    ensures n <= |keys| && (n < |keys| ==> LineEnd(keys[n])) && forall i :: 0 <= i < n ==> !LineEnd(keys[i])
  {
    if keys == "" || LineEnd(keys[0]) then 0 else 1 + LineLen(keys[1..])
  }

  /** `READLINE`: X counts the buffer, Y is the flag; it waits for a line end. */
  method ReadLine(keys: string, inbuf: array<char>) returns (used: nat)
    requires inbuf.Length == 256 && LineLen(keys) < |keys|
    modifies inbuf
    ensures used == LineLen(keys) + 1
    ensures var line := Line(keys); |line| <= 255 && inbuf[..|line|] == line && inbuf[|line|] == '\0'
  {
    hide Press;
    var x: nat, y := 0, false;
    used := 0;
    assert keys[0..] == keys;
    while !LineEnd(keys[used])
      invariant used <= LineLen(keys) && x <= 255
      invariant Pressed(Typing(inbuf[..x], y), keys[used..]) == Pressed(NOTHING, keys)
      decreases LineLen(keys) - used
    {
      assert keys[used..][0] == keys[used] && keys[used..][1..] == keys[used + 1..];
      x, y := StoreKey(inbuf, x, y, keys[used]);
      used := used + 1;
    }
    assert keys[used..][0] == keys[used];
    inbuf[x] := '\0';
    assert inbuf[..x] == Line(keys);
    used := used + 1;
  }

  /** The body of the loop behind the line-end tests. */
  method StoreKey(inbuf: array<char>, x: nat, y: bool, key: char) returns (x': nat, y': bool)
    requires inbuf.Length == 256 && x <= 255
    modifies inbuf
    ensures x' <= 255 && Typing(inbuf[..x'], y') == Press(Typing(old(inbuf[..x]), y), key)
  {
    x', y' := x, y;
    var c := key;
    if c as int == 8 || c as int == 127 {
      if x != 0 { x' := x - 1; }
    } else {
      if c == '"' {
        y' := !y;
      } else if !y && 'a' <= c <= 'z' {
        c := (c as int - 32) as char;
      }
      if x < 255 {
        inbuf[x] := c;
        x' := x + 1;
        assert inbuf[..x'] == old(inbuf[..x]) + [c];
      }
    }
  }

  // ---- the prompt ----

  predicate Ascii(line: string) { forall i :: 0 <= i < |line| ==> line[i] < 256 as char }

  function AsBytes(line: string): (r: seq<byte>)
    requires Ascii(line)
    ensures |r| == |line| && forall i :: 0 <= i < |line| ==> r[i] == line[i] as int
  {
    if line == "" then [] else [line[0] as int] + AsBytes(line[1..])
  }

  /** The line up to its NUL. */
  function Cut(line: string): (s: string)
    ensures |s| <= |line| && s <= line && forall i :: 0 <= i < |s| ==> s[i] != '\0'
  {
    ToNulIs(line, 0);
    line[..ToNul(line, 0)]
  }

  lemma {:induction false} ToNulIs(s: string, i: nat)
    requires i <= |s|
    ensures forall k :: i <= k < ToNul(s, i) ==> s[k] != '\0'
    ensures ToNul(s, i) < |s| ==> s[ToNul(s, i)] == '\0'
    decreases |s| - i
  {
    if Peek(s, i) != '\0' {
      ToNulIs(s, i + 1);
    }
  }

  /** Number and text of a line that begins with a digit at `i`. */
  function EditOf(s: string, i: nat): Edit
    requires Ascii(s) && i <= |s|
  {
    var (num, j) := ScanDec(s, i, 0);
    Edit(num, AsBytes(s[Skip(s, j)..]))
  }

  lemma EditOfGood(s: string, i: nat)
    requires Ascii(s) && i <= |s| && forall k :: 0 <= k < |s| ==> s[k] != '\0'
    ensures GoodEdit(EditOf(s, i))
  {
    var (num, j) := ScanDec(s, i, 0);
    var k := Skip(s, j);
    assert k < |s| ==> Peek(s, k) == s[k] && s[k..][0] == s[k];
  }

  /** The program after one line at the prompt: a line that begins with a digit is an edit, any other a statement. */
  function Entered(p: seq<Rec>, line: string): (q: seq<Rec>)
    requires GoodProg(p) && Ascii(line)
    ensures GoodProg(q)
  {
    var s := Cut(line);
    var i := Skip(s, 0);
    if IsDigit(Peek(s, i)) then
      EditOfGood(s, i);
      var e := EditOf(s, i);
      EditedGood(p, e.num, e.text);
      Edited(p, e.num, e.text)
    else p
  }

  lemma {:induction false} PressedAscii(t: Typing, keys: string)
    requires |t.buf| <= 255 && Ascii(t.buf) && Ascii(keys)
    ensures Ascii(Pressed(t, keys).buf)
    decreases |keys|
  {
    if keys != "" && !LineEnd(keys[0]) {
      PressedAscii(Press(t, keys[0]), keys[1..]);
    }
  }

  /** The program after a stretch of typing; the keys behind the last line end are still waiting for one. */
  function Session(p: seq<Rec>, keys: string): (q: seq<Rec>)
    requires GoodProg(p) && Ascii(keys)
    ensures GoodProg(q)
    decreases |keys|
  {
    var n := LineLen(keys);
    PressedAscii(NOTHING, keys);
    if n == |keys| then p else Session(Entered(p, Line(keys)), keys[n + 1..])
  }

  // ---- what can be stored by typing ----

  /** No byte that READLINE acts on instead of storing it. */
  predicate Keyable(t: seq<byte>) {
    forall i :: 0 <= i < |t| ==> t[i] != 8 && t[i] != 127 && t[i] != 13 && t[i] != 10
  }

  predicate KeyableLine(s: string) {
    forall i :: 0 <= i < |s| ==> !LineEnd(s[i]) && !Rubout(s[i])
  }

  predicate AllKeyable(p: seq<Rec>) { forall r :: r in p ==> Keyable(r.text) }

  lemma {:induction false} PressedKeyable(t: Typing, keys: string)
    requires |t.buf| <= 255 && KeyableLine(t.buf)
    ensures KeyableLine(Pressed(t, keys).buf)
    decreases |keys|
  {
    if keys != "" && !LineEnd(keys[0]) {
      PressedKeyable(Press(t, keys[0]), keys[1..]);
    }
  }

  lemma EditedMembers(p: seq<Rec>, num: word, text: seq<byte>)
    requires GoodProg(p)
    ensures forall r :: r in Edited(p, num, text) ==> r in p || r == Rec(num, text)
  {
    hide Inserted, Position, Flat;
    WithoutFlat(p, num);
    WithoutAscending(p, num);
    InsertedMembers(Without(p, num), Rec(num, text));
  }

  lemma EnteredKeyable(p: seq<Rec>, line: string)
    requires GoodProg(p) && Ascii(line) && KeyableLine(line) && AllKeyable(p)
    ensures AllKeyable(Entered(p, line))
  {
    hide GoodProg, Edited, Skip;
    var s := Cut(line);
    var i := Skip(s, 0);
    var e := EditOf(s, i);
    EditedMembers(p, e.num, e.text);
  }

  /** Nothing typed can bring a control byte into a stored text. */
  lemma {:induction false} SessionKeyable(p: seq<Rec>, keys: string)
    requires GoodProg(p) && Ascii(keys) && AllKeyable(p)
    ensures AllKeyable(Session(p, keys))
    decreases |keys|
  {
    hide GoodProg, AllKeyable, Entered;
    var n := LineLen(keys);
    PressedAscii(NOTHING, keys);
    if n < |keys| {
      PressedKeyable(NOTHING, keys);
      EnteredKeyable(p, Line(keys));
      SessionKeyable(Entered(p, Line(keys)), keys[n + 1..]);
    }
  }

  // ---- a listed line typed back in ----

  /** Lower-case letters outside quotes made upper-case. */
  function Folded(t: seq<byte>, quoted: bool): (r: seq<byte>)
    ensures |r| == |t|
  {
    if t == [] then []
    else [if !quoted && 97 <= t[0] <= 122 then t[0] - 32 else t[0]] + Folded(t[1..], quoted != (t[0] == 34))
  }

  /** Is position `i` of the text behind an odd number of quotation marks? */
  function InQuotes(t: seq<byte>, i: nat): bool
    requires i <= |t|
  {
    i > 0 && (InQuotes(t, i - 1) != (t[i - 1] == 34))
  }

  lemma {:induction false} QuotesShift(t: seq<byte>, i: nat)
    requires 0 < i <= |t|
    ensures InQuotes(t, i) == (InQuotes(t[1..], i - 1) != (t[0] == 34))
  {
    if i > 1 {
      QuotesShift(t, i - 1);
    }
  }

  lemma {:induction false} FoldedAt(t: seq<byte>, quoted: bool, i: nat)
    requires i < |t|
    ensures Folded(t, quoted)[i] == if InQuotes(t, i) == quoted && 97 <= t[i] <= 122 then t[i] - 32 else t[i]
  {
    if i > 0 {
      QuotesShift(t, i);
      FoldedAt(t[1..], quoted != (t[0] == 34), i - 1);
    }
  }

  /** Every lower-case letter stands in quotes. */
  predicate Settled(t: seq<byte>) {
    forall i :: 0 <= i < |t| && 97 <= t[i] <= 122 ==> InQuotes(t, i)
  }

  lemma FoldedKeeps(t: seq<byte>)
    ensures Folded(t, false) == t <==> Settled(t)
  {
    hide InQuotes, Folded;
    forall i | 0 <= i < |t|
      ensures Folded(t, false)[i] == if !InQuotes(t, i) && 97 <= t[i] <= 122 then t[i] - 32 else t[i]
    {
      FoldedAt(t, false, i);
    }
  }

  lemma FoldedGood(t: seq<byte>)
    requires GoodText(t)
    ensures GoodText(Folded(t, false)) && (Keyable(t) ==> Keyable(Folded(t, false)))
  {
    hide InQuotes, Folded;
    forall i | 0 <= i < |t|
      ensures Folded(t, false)[i] == if !InQuotes(t, i) && 97 <= t[i] <= 122 then t[i] - 32 else t[i]
    {
      FoldedAt(t, false, i);
    }
  }

  function Short(line: string): string { if |line| <= 255 then line else line[..255] }

  lemma {:induction false} PressedText(t: Typing, text: seq<byte>)
    requires |t.buf| <= 255 && Keyable(text)
    ensures Pressed(t, AsString(text)).buf == Short(t.buf + AsString(Folded(text, t.quoted)))
    decreases |text|
  {
    hide Short;
    if text == [] {
      ShortFits(t.buf, "");
    } else {
      var keys, f := AsString(text), Folded(text, t.quoted);
      var t' := Press(t, keys[0]);
      PressedText(t', text[1..]);
      assert keys[1..] == AsString(text[1..]);
      assert AsString(f) == [f[0] as char] + AsString(f[1..]) && f[1..] == Folded(text[1..], t'.quoted);
      hide Pressed, Folded, AsString;
      assert t'.buf == if |t.buf| < 255 then t.buf + [f[0] as char] else t.buf;
      ShortStep(t.buf, f[0] as char, AsString(f[1..]));
    }
  }

  lemma ShortFits(a: string, b: string)
    requires |a| <= 255 && (b == "" || |a| == 255)
    ensures Short(a + b) == a
  {
    assert (a + b)[..|a|] == a;
  }

  lemma ShortStep(a: string, c: char, b: string)
    requires |a| <= 255
    ensures Short(a + ([c] + b)) == Short((if |a| < 255 then a + [c] else a) + b)
  {
    hide Short;
    assert a + ([c] + b) == (a + [c]) + b;
    if |a| == 255 {
      ShortFits(a, [c] + b);
      ShortFits(a, b);
    }
  }

  /** Digits and spaces go into the buffer as they are. */
  lemma {:induction false} PressedPlain(t: Typing, a: string, b: string)
    requires |t.buf| + |a| <= 255 && forall i :: 0 <= i < |a| ==> IsDigit(a[i]) || a[i] == ' '
    ensures Pressed(t, a + b) == Pressed(t.(buf := t.buf + a), b)
    decreases |a|
  {
    if a == "" {
      assert a + b == b && t.buf + a == t.buf;
    } else {
      assert (a + b)[0] == a[0] && (a + b)[1..] == a[1..] + b;
      assert Press(t, a[0]) == t.(buf := t.buf + [a[0]]);
      PressedPlain(t.(buf := t.buf + [a[0]]), a[1..], b);
      assert (t.buf + [a[0]]) + a[1..] == t.buf + a;
    }
  }

  lemma DecimalShort(n: word)
    ensures |Decimal(n)| <= 5
  {
    var a, b, c, d := n / 10, n / 100, n / 1000, n / 10000;
    assert d < 10 && |Decimal(d)| == 1;
    assert c / 10 == d && |Decimal(c)| <= 2;
    assert b / 10 == c && |Decimal(b)| <= 3;
    assert a / 10 == b && |Decimal(a)| <= 4;
  }

  /** What comes back of a record: its text folded, and cut to what the buffer holds behind number and space. */
  function Back(r: Rec): Rec {
    var room, f := 254 - |Decimal(r.num)|, Folded(r.text, false);
    r.(text := if room < 0 || |f| <= room then f else f[..room])
  }

  lemma BackGood(r: Rec)
    requires GoodText(r.text)
    ensures GoodText(Back(r).text) && |Back(r).text| <= |r.text| && Back(r).num == r.num
    ensures Short(Decimal(r.num) + " " + AsString(Folded(r.text, false))) == Listed(Back(r))
    ensures Back(r) == r <==> |Listed(r)| <= 255 && Settled(r.text)
  {
    hide Folded, Settled, Decimal;
    DecimalShort(r.num);
    FoldedGood(r.text);
    FoldedKeeps(r.text);
    var d, f := Decimal(r.num), Folded(r.text, false);
    var line := d + " " + AsString(f);
    if |line| > 255 {
      assert line[..255] == d + " " + AsString(f[..254 - |d|]);
    }
  }

  /** READLINE's buffer after a listed line. */
  lemma LineBack(r: Rec)
    requires GoodText(r.text) && Keyable(r.text)
    ensures Line(Listed(r)) == Listed(Back(r))
  {
    hide Folded, Decimal, Pressed, Back;
    DecimalShort(r.num);
    BackGood(r);
    var a := Decimal(r.num) + " ";
    PressedPlain(NOTHING, a, AsString(r.text));
    assert "" + a == a;
    PressedText(Typing(a, false), r.text);
  }

  /** A well-formed line at the prompt is the edit it spells. */
  lemma EnteredRecord(p: seq<Rec>, r: Rec)
    requires GoodProg(p) && GoodText(r.text)
    ensures Ascii(Listed(r)) && Entered(p, Listed(r)) == Edited(p, r.num, r.text)
  {
    hide Decimal, Edited, Listed, GoodProg, Skip, EditOf, Ascii;
    ListedChars(r);
    var line := Listed(r);
    CutWhole(line);
    assert Skip(line, 0) == 0 by {
      assert Peek(line, 0) == line[0];
      SkipNone(line, 0);
    }
    EditOfListed(r);
  }

  lemma SkipNone(s: string, i: nat)
    requires !IsSpace(Peek(s, i))
    ensures Skip(s, i) == i
  {
  }

  lemma ListedChars(r: Rec)
    requires GoodText(r.text)
    ensures Ascii(Listed(r)) && (forall i :: 0 <= i < |Listed(r)| ==> Listed(r)[i] != '\0')
    ensures |Listed(r)| > 0 && IsDigit(Listed(r)[0])
  {
    hide Decimal, AsString;
    var line, d, s := Listed(r), Decimal(r.num), AsString(r.text);
    forall i | 0 <= i < |line|
      ensures line[i] != '\0' && line[i] < 256 as char
    {
      assert i < |d| ==> IsDigit(d[i]);
      assert i > |d| ==> line[i] == s[i - |d| - 1];
    }
    assert line[0] == d[0];
  }

  lemma EditOfListed(r: Rec)
    requires GoodText(r.text) && Ascii(Listed(r))
    ensures EditOf(Listed(r), 0) == Edit(r.num, r.text)
  {
    hide Decimal, AsString, AsBytes, Ascii;
    var line, d, s := Listed(r), Decimal(r.num), AsString(r.text);
    assert line[0..|d|] == d && line[|d|] == ' ' && line[|d| + 1] == s[0] && line[|d| + 1..] == s;
    ScanPart(line, 0, r.num);
    assert ScanDec(line, |d|, r.num) == (r.num, |d|);
    SkipNone(line, |d| + 1);
    assert Skip(line, |d|) == |d| + 1;
    BytesBack(r.text);
  }

  lemma BytesBack(t: seq<byte>)
    ensures Ascii(AsString(t)) && AsBytes(AsString(t)) == t
  {
  }

  lemma CutWhole(line: string)
    requires forall i :: 0 <= i < |line| ==> line[i] != '\0'
    ensures Cut(line) == line
  {
    ToNulIs(line, 0);
  }

  /** A line above all others is appended. */
  lemma AppendEdit(q: seq<Rec>, r: Rec)
    requires GoodProg(q) && GoodText(r.text) && |Flat(q)| + |r.text| + 4 <= AREA
    requires forall k :: 0 <= k < |q| ==> q[k].num < r.num
    ensures Edited(q, r.num, r.text) == q + [r] && GoodProg(q + [r]) && |Flat(q + [r])| == |Flat(q)| + |r.text| + 4
  {
    hide Position, Flat, Bytes;
    PositionIs(q, r.num, |q|);
    assert q[..|q|] + [r] + q[|q|..] == q + [r];
    FlatOne(r);
    FlatAppend(q, [r]);
    EditedGood(q, r.num, r.text);
  }

  // ---- whole listings ----

  lemma {:induction false} LineLenAt(line: string, rest: string)
    requires KeyableLine(line) && rest != "" && LineEnd(rest[0])
    ensures LineLen(line + rest) == |line|
  {
    var keys := line + rest;
    forall i | 0 <= i < |line| ensures !LineEnd(keys[i]) { assert keys[i] == line[i]; }
    assert keys[|line|] == rest[0];
  }

  lemma {:induction false} PressedStops(t: Typing, line: string, rest: string)
    requires |t.buf| <= 255 && rest != "" && LineEnd(rest[0])
    ensures Pressed(t, line + rest) == Pressed(t, line)
    decreases |line|
  {
    if line == "" {
      assert line + rest == rest;
    } else {
      assert (line + rest)[0] == line[0] && (line + rest)[1..] == line[1..] + rest;
      if !LineEnd(line[0]) {
        PressedStops(Press(t, line[0]), line[1..], rest);
      }
    }
  }

  /** A line, its two line ends, and what follows. */
  lemma SessionLine(q: seq<Rec>, line: string, rest: string)
    requires GoodProg(q) && KeyableLine(line) && Ascii(line) && Ascii(rest) && Ascii(Line(line))
    ensures Ascii(line + "\r\n" + rest)
    ensures Session(q, line + "\r\n" + rest) == Session(Entered(q, Line(line)), rest)
  {
    hide GoodProg, Entered, Pressed;
    var tail := "\r\n" + rest;
    var keys := line + tail;
    assert line + "\r\n" + rest == keys;
    assert Ascii(keys);
    LineLenAt(line, tail);
    PressedStops(NOTHING, line, tail);
    assert keys[|line| + 1..] == "\n" + rest;
    EmptyLine(Entered(q, Line(line)), rest);
  }

  lemma EmptyLine(q: seq<Rec>, rest: string)
    requires GoodProg(q) && Ascii(rest)
    ensures Ascii("\n" + rest) && Session(q, "\n" + rest) == Session(q, rest)
  {
    hide GoodProg;
    var keys := "\n" + rest;
    assert keys[0] == '\n' && LineLen(keys) == 0;
    assert Line(keys) == "";
    assert Cut("") == "";
    assert keys[1..] == rest;
  }

  function AllBack(p: seq<Rec>): (q: seq<Rec>)
    ensures |q| == |p| && forall k :: 0 <= k < |p| ==> q[k] == Back(p[k])
  {
    if p == [] then [] else [Back(p[0])] + AllBack(p[1..])
  }

  lemma {:induction false} ListingAscii(p: seq<Rec>)
    requires GoodRecs(p)
    ensures Ascii(Listing(p))
  {
    hide Listed;
    if p != [] {
      ListedChars(p[0]);
      ListingAscii(p[1..]);
    }
  }

  lemma KeyableListed(r: Rec)
    requires GoodText(r.text) && Keyable(r.text)
    ensures KeyableLine(Listed(r))
  {
    hide Decimal, AsString;
    var line, d, s := Listed(r), Decimal(r.num), AsString(r.text);
    forall i | 0 <= i < |line|
      ensures !LineEnd(line[i]) && !Rubout(line[i])
    {
      assert i < |d| ==> line[i] == d[i] && IsDigit(d[i]);
      assert i > |d| ==> line[i] == s[i - |d| - 1];
    }
  }

  /** One listed line typed into a store that holds only smaller numbers. */
  lemma LineTyped(q: seq<Rec>, r: Rec, rest: string)
    requires GoodProg(q) && GoodText(r.text) && Keyable(r.text) && |Flat(q)| + |r.text| + 4 <= AREA
    requires Below(q, r.num) && Ascii(rest)
    ensures GoodText(Back(r).text) && GoodProg(q + [Back(r)]) && |Flat(q + [Back(r)])| <= |Flat(q)| + |r.text| + 4
    ensures Ascii(Listed(r) + "\r\n" + rest)
    ensures Session(q, Listed(r) + "\r\n" + rest) == Session(q + [Back(r)], rest)
  {
    hide Listed, Back, Entered, Edited, GoodText, Bytes, Flat, Keyable, Session, Line, GoodProg, Ascii, KeyableLine;
    var b := Back(r);
    BackGood(r);
    LineBack(r);
    KeyableListed(r);
    ListedChars(r);
    EnteredRecord(q, b);
    AppendEdit(q, b);
    SessionLine(q, Listed(r), rest);
  }

  predicate Below(q: seq<Rec>, num: word) { forall i :: 0 <= i < |q| ==> q[i].num < num }

  lemma Tail(p: seq<Rec>)
    requires GoodRecs(p) && Ascending(p) && AllKeyable(p) && p != []
    ensures GoodRecs(p[1..]) && Ascending(p[1..]) && AllKeyable(p[1..])
    ensures GoodText(p[0].text) && Keyable(p[0].text) && (|p| > 1 ==> p[0].num < p[1].num)
    ensures |Flat(p)| == |p[0].text| + 4 + |Flat(p[1..])|
  {
    hide GoodText, Keyable, Flat;
    FlatSplit(p, 0);
    FlatNothing(p);
    assert p[0] in p;
    assert forall x :: x in p[1..] ==> x in p;
  }

  lemma BelowNext(q: seq<Rec>, r: Rec, num: word)
    requires Below(q, r.num) && r.num < num
    ensures Below(q + [r], num)
  {
  }

  /** Typing the listing of `p` into a store that holds smaller numbers appends what comes back of every line. */
  lemma {:induction false} ListingTyped(q: seq<Rec>, p: seq<Rec>)
    requires GoodProg(q) && GoodRecs(p) && Ascending(p) && AllKeyable(p) && |Flat(q)| + |Flat(p)| <= AREA
    requires p != [] ==> Below(q, p[0].num)
    ensures Ascii(Listing(p)) && Session(q, Listing(p)) == q + AllBack(p)
    decreases |p|
  {
    hide Listed, Back, GoodText, Flat, Keyable, Session, GoodProg, Ascii, GoodRecs, Ascending, AllKeyable, Below;
    ListingAscii(p);
    if p == [] {
      assert q + AllBack(p) == q;
      NoKeys(q);
    } else {
      var r, b, p' := p[0], Back(p[0]), p[1..];
      Tail(p);
      ListingAscii(p');
      LineTyped(q, r, Listing(p'));
      BackGood(r);
      if p' != [] { BelowNext(q, b, p[1].num); }
      ListingTyped(q + [b], p');
      assert (q + [b]) + AllBack(p') == q + ([b] + AllBack(p'));
    }
  }

  lemma FlatNothing(p: seq<Rec>)
    requires GoodRecs(p[..0])
    ensures |Flat(p[..0])| == 0
  {
  }

  lemma NoKeys(q: seq<Rec>)
    requires GoodProg(q)
    ensures Ascii("") && Session(q, "") == q
  {
  }

  /** Does a stored line survive being listed and typed back? */
  predicate Survives(r: Rec) { |Listed(r)| <= 255 && Settled(r.text) && Keyable(r.text) }

  lemma AllBackKeeps(p: seq<Rec>)
    requires GoodRecs(p) && AllKeyable(p)
    ensures AllBack(p) == p <==> forall k :: 0 <= k < |p| ==> Survives(p[k])
  {
    hide Listed, Settled, Keyable, Back, GoodText;
    var q := AllBack(p);
    forall k | 0 <= k < |p|
      ensures q[k] == p[k] <==> Survives(p[k])
    {
      assert p[k] in p;
      BackGood(p[k]);
    }
  }

  lemma NotKeyable(p: seq<Rec>)
    requires !AllKeyable(p)
    ensures !forall k :: 0 <= k < |p| ==> Survives(p[k])
  {
    hide Listed, Settled, Keyable;
    var r :| r in p && !Keyable(r.text);
    var k :| 0 <= k < |p| && p[k] == r;
    assert !Survives(p[k]);
  }

  /** Typing what LIST prints into an empty store rebuilds the program, byte by byte, exactly when every listed line fits the 255
      characters of the line buffer, has its lower-case letters in quotes, and holds no byte that READLINE acts on. */
  lemma ListingRebuilds(p: seq<Rec>)
    requires GoodProg(p)
    ensures GoodProg([]) && Ascii(Listing(p))
    ensures Flat(Session([], Listing(p))) == Flat(p) <==> forall k :: 0 <= k < |p| ==> Survives(p[k])
  {
    hide Listing, Session, Flat, Survives, AllKeyable, GoodText;
    ListingAscii(p);
    Nothing();
    var q := Session([], Listing(p));
    NoRecord();
    SessionKeyable([], Listing(p));
    if AllKeyable(p) {
      ListingTyped([], p);
      assert [] + AllBack(p) == AllBack(p);
      AllBackKeeps(p);
    } else {
      NotKeyable(p);
    }
    if Flat(q) == Flat(p) {
      FlatInjective(q, p);
    }
  }

  lemma NoRecord()
    ensures AllKeyable([])
  {
  }

  lemma Nothing()
    ensures GoodProg([]) && |Flat([])| == 0
  {
  }

  /** The bytes determine the program. */
  lemma {:induction false} FlatInjective(p: seq<Rec>, q: seq<Rec>)
    requires GoodRecs(p) && GoodRecs(q) && Flat(p) == Flat(q)
    ensures p == q
    decreases |p|
  {
    hide Flat, Bytes;
    if p == [] || q == [] {
      FlatLonger(p);
      FlatLonger(q);
    } else {
      FlatFirst(p);
      FlatFirst(q);
      var a, b, m, n := Bytes(p[0]), Bytes(q[0]), Flat(p[1..]), Flat(q[1..]);
      assert (a + m)[2] == a[2] && (b + n)[2] == b[2];
      BytesHead(p[0]);
      BytesHead(q[0]);
      assert |a| == |b|;
      assert (a + m)[..|a|] == a && (b + n)[..|b|] == b && (a + m)[|a|..] == m && (b + n)[|b|..] == n;
      BytesInjective(p[0], q[0]);
      FlatInjective(p[1..], q[1..]);
      assert p == [p[0]] + p[1..] && q == [q[0]] + q[1..];
    }
  }

  lemma FlatLonger(p: seq<Rec>)
    requires GoodRecs(p)
    ensures |Flat(p)| > 0 <==> p != []
  {
    if p != [] { FlatFirst(p); } else { Nothing(); }
  }

  lemma FlatFirst(p: seq<Rec>)
    requires GoodRecs(p) && p != []
    ensures GoodRecs(p[1..]) && Flat(p) == Bytes(p[0]) + Flat(p[1..])
  {
    FlatSplit(p, 0);
    FlatNothing(p);
    hide Flat, Bytes;
    assert Flat(p[..0]) == [];
  }

  lemma BytesHead(r: Rec)
    requires |r.text| < 252
    ensures Bytes(r)[2] == |Bytes(r)|
  {
  }

  lemma BytesInjective(r: Rec, s: Rec)
    requires |r.text| < 252 && |s.text| < 252 && Bytes(r) == Bytes(s)
    ensures r == s
  {
    var a, b := Bytes(r), Bytes(s);
    assert a[0] == b[0] && a[1] == b[1] && a[2] == b[2];
    assert r.num == 256 * (r.num / 256) + r.num % 256 && s.num == 256 * (s.num / 256) + s.num % 256;
    assert r.text == a[3..|a| - 1] && s.text == b[3..|b| - 1];
  }

  /** A line that does not survive: a quotation mark rubbed out leaves the flag set, so the letter behind it is stored in lower
      case; its listing, typed back in, stores it in upper case. */
  lemma RubbedQuote()
    ensures GoodProg([]) && Ascii(RUBBED) && Session([], RUBBED) == [Rec(10, [97])]
    ensures Ascii(Listing([Rec(10, [97])])) && Session([], Listing([Rec(10, [97])])) == [Rec(10, [65])]
  {
    hide Session, Entered, Edited, Listed, Listing, Flat, Line, GoodProg, Back, Bytes;
    var r := Rec(10, [97]);
    Nothing();
    FlatOne(r);
    ListedChars(r);
    RubbedLine();
    OneLine(RUBBED);
    EnteredRecord([], r);
    AppendEdit([], r);
    assert [] + [r] == [r];
    ListingTyped([], [r]);
    FoldedBack();
    assert AllBack([r]) == [Back(r)] && [] + [Back(r)] == [Back(r)];
  }

  /** `10 "`, a backspace, `a`, return. */
  const RUBBED := "10 " + ['"', 8 as char, 'a', '\r']

  lemma FoldedBack()
    ensures Back(Rec(10, [97])) == Rec(10, [65])
  {
    assert Folded([97], false) == [65];
    DecimalShort(10);
  }

  lemma PressOne(t: Typing, c: char, rest: string)
    requires |t.buf| <= 255 && !LineEnd(c)
    ensures Pressed(t, [c] + rest) == Pressed(Press(t, c), rest)
  {
    assert ([c] + rest)[1..] == rest;
  }

  lemma Ten()
    ensures Decimal(10) == "10"
  {
    assert Decimal(1) == "1";
  }

  lemma RubbedLine()
    ensures Line(RUBBED) == Listed(Rec(10, [97]))
  {
    hide Pressed, Decimal;
    var t0, t1, t2 := Typing("10 ", false), Typing("10 \"", true), Typing("10 ", true);
    PressedPlain(NOTHING, "10 ", ['"', 8 as char, 'a', '\r']);
    assert "" + "10 " == "10 ";
    PressOne(t0, '"', [8 as char, 'a', '\r']);
    assert ['"'] + [8 as char, 'a', '\r'] == ['"', 8 as char, 'a', '\r'] && Press(t0, '"') == t1;
    PressOne(t1, 8 as char, ['a', '\r']);
    assert [8 as char] + ['a', '\r'] == [8 as char, 'a', '\r'] && Press(t1, 8 as char) == t2;
    PressOne(t2, 'a', ['\r']);
    assert ['a'] + ['\r'] == ['a', '\r'];
    Stops(Press(t2, 'a'), "\r");
    Ten();
    assert AsString([97]) == "a";
  }

  lemma Stops(t: Typing, keys: string)
    requires |t.buf| <= 255 && keys != "" && LineEnd(keys[0])
    ensures Pressed(t, keys) == t
  {
  }

  lemma OneLine(keys: string)
    requires Ascii(keys) && |keys| == 7 && keys[6] == '\r' && forall i :: 0 <= i < 6 ==> !LineEnd(keys[i])
    requires GoodProg([]) && Ascii(Line(keys))
    ensures Session([], keys) == Entered([], Line(keys))
  {
    hide Line, Entered, GoodProg;
    assert LineLen(keys) == 6;
    assert keys[7..] == "";
    NoKeys(Entered([], Line(keys)));
  }
}
