/**
 * The string operations of Python that the modelled code relies on:
 * `str.split`, `str.join`, `str.count`, `str.rstrip`, `str.startswith`,
 * `str(int)` and, restricted to ASCII, `str.isalnum` and `str.title`.
 */
module Text {

  /** `s.count(c)` for a one-character `c`. */
  function Count(s: string, c: char): (n: nat)
    ensures n == 0 <==> c !in s
    ensures n <= |s|
  {
    if |s| == 0 then 0
    else (if s[0] == c then 1 else 0) + Count(s[1..], c)
  }

  /** `s.split(c)` for a one-character separator `c`. */
  function Split(s: string, c: char): (parts: seq<string>)
    ensures |parts| >= 1
  {
    if |s| == 0 then [""]
    else
      var rest := Split(s[1..], c);
      if s[0] == c then [""] + rest else [[s[0]] + rest[0]] + rest[1..]
  }

  /** `c.join(parts)` for a one-character separator `c`. */
  function Join(parts: seq<string>, c: char): string {
    if |parts| == 0 then ""
    else if |parts| == 1 then parts[0]
    else parts[0] + [c] + Join(parts[1..], c)
  }

  /** Joining the pieces of a split gives the string back. */
  lemma {:induction false} JoinSplit(s: string, c: char)
    ensures Join(Split(s, c), c) == s
  {
    if |s| > 0 {
      JoinSplit(s[1..], c);
      var rest := Split(s[1..], c);
      if s[0] != c && |rest| > 1 {
        assert ([[s[0]] + rest[0]] + rest[1..])[1..] == rest[1..];
      }
      if s[0] == c {
        assert ([""] + rest)[1..] == rest;
      }
      assert s == [s[0]] + s[1..];
    }
  }

  /** A split yields one more piece than there are separators, and no piece holds a separator. */
  lemma {:induction false} SplitPieces(s: string, c: char)
    ensures |Split(s, c)| == Count(s, c) + 1
    ensures forall p :: p in Split(s, c) ==> c !in p
  {
    if |s| > 0 {
      SplitPieces(s[1..], c);
      var rest := Split(s[1..], c);
      if s[0] != c {
        assert forall p :: p in rest[1..] ==> p in rest;
      }
    }
  }

  /** The last piece of a join is preceded by the join of the others and one separator. */
  lemma {:induction false} JoinLast(parts: seq<string>, c: char)
    requires |parts| >= 2
    ensures Join(parts, c) == Join(parts[..|parts| - 1], c) + [c] + parts[|parts| - 1]
  {
    if |parts| > 2 {
      JoinLast(parts[1..], c);
      assert parts[1..][..|parts| - 2] == parts[..|parts| - 1][1..];
    }
  }

  /** The text after the last `/` of `s`, or `s` itself when it has none:
      `s.split('/')[-1] if '/' in s else s`. */
  function LastSegment(s: string): string {
    if '/' in s then
      var parts := Split(s, '/');
      parts[|parts| - 1]
    else s
  }

  /** The last segment is the part of `s` after its last `/`: a suffix of
      `s` without `/`, preceded by `/` when it is not all of `s`. */
  lemma LastSegmentLaws(s: string)
    ensures '/' !in LastSegment(s)
    ensures |LastSegment(s)| <= |s| && s[|s| - |LastSegment(s)|..] == LastSegment(s)
    ensures |LastSegment(s)| < |s| ==> s[|s| - |LastSegment(s)| - 1] == '/'
  {
    if '/' in s {
      var parts := Split(s, '/');
      SplitPieces(s, '/');
      JoinSplit(s, '/');
      JoinLast(parts, '/');
      assert parts[|parts| - 1] in parts;
    }
  }

  /** With a `/` in `s`, the pieces before the last `/` rejoined, a `/`, and
      the last segment give back `s`. */
  lemma ParentAndLast(s: string, parts: seq<string>)
    requires '/' in s && parts == Split(s, '/')
    ensures |parts| >= 2
    ensures Join(parts[..|parts| - 1], '/') + "/" + LastSegment(s) == s
  {
    assert LastSegment(s) == parts[|parts| - 1];
    SplitSeveral(s, '/');
    JoinSplit(s, '/');
    Rejoin(s, parts, LastSegment(s));
  }

  /** A string holding the separator splits into at least two pieces. */
  lemma SplitSeveral(s: string, c: char)
    requires c in s
    ensures |Split(s, c)| >= 2
  {
    SplitPieces(s, c);
  }

  /** The pieces but the last, rejoined, then a `/` and the last piece. */
  lemma Rejoin(s: string, parts: seq<string>, last: string)
    requires |parts| >= 2 && Join(parts, '/') == s && last == parts[|parts| - 1]
    ensures Join(parts[..|parts| - 1], '/') + "/" + last == s
  {
    JoinLast(parts, '/');
  }

  /** `s.rstrip(c)`: `s` without its trailing run of `c`. */
  function RStrip(s: string, c: char): string {
    if |s| > 0 && s[|s| - 1] == c then RStrip(s[..|s| - 1], c) else s
  }

  /** Stripping keeps a prefix that does not end in `c`, and removes only
      copies of `c`. */
  lemma {:induction false} RStripLaws(s: string, c: char)
    ensures |RStrip(s, c)| <= |s| && RStrip(s, c) == s[..|RStrip(s, c)|]
    ensures |RStrip(s, c)| > 0 ==> RStrip(s, c)[|RStrip(s, c)| - 1] != c
    ensures forall i :: |RStrip(s, c)| <= i < |s| ==> s[i] == c
  {
    if |s| > 0 && s[|s| - 1] == c {
      RStripLaws(s[..|s| - 1], c);
    }
  }

  /** `count` adds up over a concatenation. */
  lemma {:induction false} CountAppend(a: string, b: string, c: char)
    ensures Count(a + b, c) == Count(a, c) + Count(b, c)
  {
    if |a| > 0 {
      CountAppend(a[1..], b, c);
      assert (a + b)[1..] == a[1..] + b;
    } else {
      assert a + b == b;
    }
  }

  /** Appending a `/`-free name to a prefix that is empty or ends in `/`
      makes that name the last segment. */
  lemma LastSegmentAfter(p: string, x: string)
    requires '/' !in x
    requires p == "" || p[|p| - 1] == '/'
    ensures LastSegment(p + x) == x
  {
    var s := p + x;
    LastSegmentLaws(s);
    assert s[|s| - |x|..] == x;
  }

  /** `rstrip` drops a trailing separator and keeps a string that does not end in one. */
  lemma RStripSeparator(s: string, c: char)
    requires |s| == 0 || s[|s| - 1] != c
    ensures RStrip(s + [c], c) == s
  {
    assert (s + [c])[..|s|] == s;
  }

  /** The join of non-empty pieces ends with the last piece's last character. */
  lemma {:induction false} JoinEnd(parts: seq<string>, c: char)
    requires |parts| >= 1 && |parts[|parts| - 1]| > 0
    ensures |Join(parts, c)| > 0
    ensures Join(parts, c)[|Join(parts, c)| - 1] == parts[|parts| - 1][|parts[|parts| - 1]| - 1]
  {
    if |parts| >= 2 {
      JoinLast(parts, c);
    }
  }

  predicate StartsWith(s: string, prefix: string) {
    |prefix| <= |s| && s[..|prefix|] == prefix
  }

  function Digit(d: nat): char
    requires d < 10
  {
    ('0' as int + d) as char
  }

  /** The number a string of decimal digits denotes, read left to right. */
  function DigitsValue(s: string): int {
    if |s| == 0 then 0
    else DigitsValue(s[..|s| - 1]) * 10 + (s[|s| - 1] as int - '0' as int)
  }

  /** `str(n)` for a natural number: decimal digits that denote `n`, with no
      leading zero unless `n` is 0. */
  function NatToString(n: nat): (r: string)
    ensures |r| >= 1
    ensures forall i :: 0 <= i < |r| ==> '0' <= r[i] <= '9'
    ensures DigitsValue(r) == n
    ensures r[0] == '0' <==> n == 0
    decreases n
  {
    if n < 10 then [Digit(n)]
    else
      var r := NatToString(n / 10) + [Digit(n % 10)];
      assert r[..|r| - 1] == NatToString(n / 10);
      r
  }

  /** Different numbers have different decimal strings. */
  lemma NatToStringInjective(m: nat, n: nat)
    requires NatToString(m) == NatToString(n)
    ensures m == n
  {
  }

  /** `str(i)` for an integer. */
  function IntToString(i: int): string {
    if i < 0 then "-" + NatToString(-i) else NatToString(i)
  }

  predicate IsAsciiUpper(c: char) { 'A' <= c <= 'Z' }
  predicate IsAsciiLower(c: char) { 'a' <= c <= 'z' }
  predicate IsAsciiLetter(c: char) { IsAsciiUpper(c) || IsAsciiLower(c) }

  /** `c.isalnum()`, restricted to ASCII letters and digits. */
  predicate IsAlnum(c: char) {
    IsAsciiLetter(c) || '0' <= c <= '9'
  }

  function ToUpper(c: char): char {
    if IsAsciiLower(c) then (c as int - 32) as char else c
  }

  function ToLower(c: char): char {
    if IsAsciiUpper(c) then (c as int + 32) as char else c
  }

  /** `s.title()` over ASCII: a letter that follows a letter is lower-cased, any other letter upper-cased. */
  function Title(s: string): (r: string)
    ensures |r| == |s|
  {
    TitleAfter(s, false)
  }

  function TitleAfter(s: string, afterLetter: bool): (r: string)
    ensures |r| == |s|
  {
    if |s| == 0 then ""
    else if IsAsciiLetter(s[0]) then
      [if afterLetter then ToLower(s[0]) else ToUpper(s[0])] + TitleAfter(s[1..], true)
    else [s[0]] + TitleAfter(s[1..], false)
  }

  /** Each character of `TitleAfter(s, after)`: a letter is lower-cased when
      it follows a letter (or, at the start, when `after` says so) and
      upper-cased otherwise; any other character is kept. */
  lemma {:induction false} TitleAfterAt(s: string, after: bool, i: nat)
    requires i < |s|
    ensures TitleAfter(s, after)[i] ==
      if !IsAsciiLetter(s[i]) then s[i]
      else if (if i == 0 then after else IsAsciiLetter(s[i - 1])) then ToLower(s[i])
      else ToUpper(s[i])
  {
    if i > 0 {
      TitleAfterAt(s[1..], IsAsciiLetter(s[0]), i - 1);
    }
  }

  /** `s.title()` character by character: a letter that does not follow a
      letter is upper-cased, a letter that follows one is lower-cased, and
      every other character is kept. */
  lemma TitleAt(s: string, i: nat)
    requires i < |s|
    ensures Title(s)[i] ==
      if !IsAsciiLetter(s[i]) then s[i]
      else if i > 0 && IsAsciiLetter(s[i - 1]) then ToLower(s[i])
      else ToUpper(s[i])
  {
    TitleAfterAt(s, false, i);
  }
}
