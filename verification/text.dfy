/**
 * String operations the analyzer and the upload step rely on: substring
 * search (`in` on Python strings and the `str.contains` regex), the file
 * extension after the last dot, ASCII lower-casing, joining phrases with
 * ", " and writing a positive integer in decimal.
 */
module Text {

  /** `p` is a prefix of `s`. */
  predicate IsPrefix(p: string, s: string) {
    |p| <= |s| && s[..|p|] == p
  }

  /** `p` starts at position `k` of `s`: the declarative reading of "substring". */
  predicate OccursAt(s: string, p: string, k: int) {
    0 <= k && k + |p| <= |s| && s[k..k + |p|] == p
  }

  /** Substring test: `p in s` on Python strings. */
  predicate Contains(s: string, p: string) {
    exists k :: 0 <= k <= |s| - |p| && OccursAt(s, p, k)
  }

  /** A prefix is a substring. */
  lemma PrefixContained(s: string, p: string)
    requires IsPrefix(p, s)
    ensures Contains(s, p)
  {
    assert OccursAt(s, p, 0);
  }

  /** What the tail of a string contains, the string contains. */
  lemma TailContained(s: string, p: string)
    requires |s| > 0 && Contains(s[1..], p)
    ensures Contains(s, p)
  {
    var k :| 0 <= k <= |s[1..]| - |p| && OccursAt(s[1..], p, k);
    assert s[1..][k..k + |p|] == s[k + 1..k + 1 + |p|];
    assert OccursAt(s, p, k + 1);
  }

  /** A substring of a substring is a substring. */
  lemma ContainsTransitive(s: string, q: string, p: string)
    requires Contains(s, q) && Contains(q, p)
    ensures Contains(s, p)
  {
    var k :| 0 <= k <= |s| - |q| && OccursAt(s, q, k);
    var m :| 0 <= m <= |q| - |p| && OccursAt(q, p, m);
    forall j | 0 <= j < |p|
      ensures s[k + m + j] == p[j]
    {
      assert p[j] == q[m..m + |p|][j] == q[m + j];
      assert q[m + j] == s[k..k + |q|][m + j];
    }
    assert s[k + m..k + m + |p|] == p;
    assert OccursAt(s, p, k + m);
  }

  /** A string cannot contain a pattern holding a character the string lacks. */
  lemma MissingCharNotContained(s: string, p: string, c: char)
    requires c in p && c !in s
    ensures !Contains(s, p)
  {
  }

  /** Lower-cases an ASCII capital letter and leaves every other character alone. */
  function LowerChar(c: char): (r: char)
    ensures !('A' <= r <= 'Z')
    ensures 'a' <= c <= 'z' ==> r == c
  {
    if 'A' <= c <= 'Z' then (c as int + 32) as char else c
  }

  /** Character-wise ASCII lower-casing, as Python's `str.lower` does on ASCII text. */
  function Lower(s: string): (r: string)
    ensures |r| == |s|
    ensures forall i :: 0 <= i < |s| ==> r[i] == LowerChar(s[i])
  {
    seq(|s|, i requires 0 <= i < |s| => LowerChar(s[i]))
  }

  /** Lower-casing a string with one more character appends that character lower-cased. */
  lemma LowerSnoc(s: string, c: char)
    ensures Lower(s + [c]) == Lower(s) + [LowerChar(c)]
  {
    assert forall i :: 0 <= i < |s| ==> (s + [c])[i] == s[i];
  }

  /** Lower-casing twice is lower-casing once, and it fixes text that has no capitals. */
  lemma LowerIdempotent(s: string)
    ensures Lower(Lower(s)) == Lower(s)
    ensures (forall i :: 0 <= i < |s| ==> !('A' <= s[i] <= 'Z')) ==> Lower(s) == s
  {
  }

  /**
   * The text after the last '.' of `s`, or all of `s` when it has no dot: the last
   * element of Python's `s.split('.')`.
   */
  function LastSegment(s: string): (r: string)
    ensures '.' !in r
    ensures |r| <= |s| && r == s[|s| - |r|..]
    ensures |r| < |s| ==> s[|s| - |r| - 1] == '.'
    decreases |s|
  {
    if |s| == 0 then ""
    else if s[|s| - 1] == '.' then ""
    else
      var init := s[..|s| - 1];
      var prev := LastSegment(init);
      var r := prev + [s[|s| - 1]];
      assert s[|s| - |r|..] == init[|init| - |prev|..] + [s[|s| - 1]];
      assert |r| < |s| ==> s[|s| - |r| - 1] == init[|init| - |prev| - 1];
      r
  }

  /** `LastSegment` is the whole name exactly when the name has no dot. */
  lemma LastSegmentWhole(s: string)
    ensures LastSegment(s) == s <==> '.' !in s
  {
  }

  /** The separator Python's `', '.join` puts between phrases. */
  const Separator: string := ", "

  /** `', '.join(parts)`. */
  function Join(parts: seq<string>): string {
    if |parts| == 0 then ""
    else if |parts| == 1 then parts[0]
    else parts[0] + Separator + Join(parts[1..])
  }

  /** Cuts `s` at every ", ", the inverse of `Join` (Python's `s.split(', ')`). */
  function Split(s: string): (parts: seq<string>)
    ensures |parts| >= 1
    decreases |s|
  {
    if |s| == 0 then [""]
    else if IsPrefix(Separator, s) then [""] + Split(s[2..])
    else
      var rest := Split(s[1..]);
      [[s[0]] + rest[0]] + rest[1..]
  }

  /** Dropping the first character of a separator-free piece keeps it separator-free. */
  lemma FreeOfSeparator(p: string)
    requires |p| > 0 && !Contains(p, Separator)
    ensures !Contains(p[1..], Separator) && !IsPrefix(Separator, p)
  {
    if Contains(p[1..], Separator) {
      TailContained(p, Separator);
    }
    if IsPrefix(Separator, p) {
      PrefixContained(p, Separator);
    }
  }

  /** A piece free of the separator comes back whole. */
  lemma {:induction false} SplitPiece(p: string)
    requires !Contains(p, Separator)
    ensures Split(p) == [p]
    decreases |p|
  {
    if |p| > 0 {
      FreeOfSeparator(p);
      SplitPiece(p[1..]);
      assert [p[0]] + p[1..] == p;
    }
  }

  /** Splitting a separator-free piece followed by the separator peels that piece off. */
  lemma {:induction false} SplitAfterPiece(p: string, rest: string)
    requires !Contains(p, Separator)
    ensures Split(p + Separator + rest) == [p] + Split(rest)
    decreases |p|
  {
    var s := p + Separator + rest;
    if |p| == 0 {
      assert s == Separator + rest;
      assert IsPrefix(Separator, s);
      assert s[2..] == rest;
    } else {
      assert s[0] == p[0];
      FreeOfSeparator(p);
      if |p| == 1 {
        assert s[1] == ',';
      } else {
        assert s[..2] == p[..2];
      }
      assert !IsPrefix(Separator, s);
      assert s[1..] == p[1..] + Separator + rest;
      SplitAfterPiece(p[1..], rest);
      assert [p[0]] + p[1..] == p;
    }
  }

  /** Joining separator-free phrases and splitting the result gives the phrases back. */
  lemma {:induction false} SplitJoin(parts: seq<string>)
    requires |parts| >= 1
    requires forall i :: 0 <= i < |parts| ==> !Contains(parts[i], Separator)
    ensures Split(Join(parts)) == parts
    decreases |parts|
  {
    if |parts| == 1 {
      SplitPiece(parts[0]);
    } else {
      SplitJoin(parts[1..]);
      SplitAfterPiece(parts[0], Join(parts[1..]));
      assert [parts[0]] + parts[1..] == parts;
    }
  }

  /** A joined list of non-empty phrases starts with the first phrase. */
  lemma JoinStartsWithFirst(parts: seq<string>)
    requires |parts| >= 1
    ensures IsPrefix(parts[0], Join(parts))
  {
  }

  /** The character for a decimal digit. */
  function DigitChar(d: nat): (c: char)
    requires d < 10
    ensures '0' <= c <= '9'
  {
    ('0' as int + d) as char
  }

  /** The value of a decimal digit character. */
  function DigitValue(c: char): (d: nat)
    requires '0' <= c <= '9'
    ensures d < 10
  {
    c as int - '0' as int
  }

  predicate AllDigits(s: string) {
    forall i :: 0 <= i < |s| ==> '0' <= s[i] <= '9'
  }

  /** Python's `str(n)` for a non-negative integer: its decimal digits. */
  function NatToString(n: nat): (s: string)
    ensures |s| >= 1 && AllDigits(s)
  {
    if n < 10 then [DigitChar(n)] else NatToString(n / 10) + [DigitChar(n % 10)]
  }

  /** Reads a string of decimal digits back as a number. */
  function ParseNat(s: string): nat
    requires AllDigits(s)
  {
    if |s| == 0 then 0 else 10 * ParseNat(s[..|s| - 1]) + DigitValue(s[|s| - 1])
  }

  /** Writing a number in decimal and reading it back gives the number. */
  lemma {:induction false} ParseNatToString(n: nat)
    ensures ParseNat(NatToString(n)) == n
  {
    var s := NatToString(n);
    if n >= 10 {
      ParseNatToString(n / 10);
      assert s[..|s| - 1] == NatToString(n / 10);
    }
  }

  /** Different numbers are written differently. */
  lemma NatToStringInjective(a: nat, b: nat)
    ensures NatToString(a) == NatToString(b) ==> a == b
  {
    ParseNatToString(a);
    ParseNatToString(b);
  }
}
