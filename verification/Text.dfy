/** Characters, decimal numerals and substrings, as both the assembler and BASIC read them. */
module Text {

  datatype Option<T> = None | Some(value: T)

  /** The character at a cursor, NUL at the end. */
  function Peek(s: string, i: nat): char {
    if i < |s| then s[i] else '\0'
  }

  predicate IsDigit(c: char) { '0' <= c <= '9' }

  /** A number's decimal digits, without leading zeros. */
  function Decimal(n: nat): (r: string)
    ensures r != "" && forall k :: 0 <= k < |r| ==> IsDigit(r[k])
  {
    var d := ('0' as int + n % 10) as char;
    if n < 10 then [d] else Decimal(n / 10) + [d]
  }

  /** `t` stands in `s` at `i`. */
  predicate Spelled(s: string, i: nat, t: string) {
    i + |t| <= |s| && s[i..i + |t|] == t
  }

  lemma SpelledSplit(s: string, i: nat, a: string, b: string)
    requires Spelled(s, i, a + b)
    ensures Spelled(s, i, a) && Spelled(s, i + |a|, b)
    ensures a != "" ==> Peek(s, i) == a[0] && i < |s|
    ensures b != "" ==> Peek(s, i + |a|) == b[0] && i + |a| < |s|
  {
    var w := s[i..i + |a| + |b|];
    assert s[i..i + |a|] == w[..|a|];
    assert s[i + |a|..i + |a| + |b|] == w[|a|..];
    if b != "" { assert w[|a|] == b[0]; }
    if a != "" { assert w[0] == a[0]; }
  }
}
