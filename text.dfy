/**
 * The Python `str` operations the core relies on, on `seq<char>`.
 * Character classes are those of ASCII: `isspace` is true for the code
 * points 9-13 and 28-32, `isalnum` for ASCII letters and digits, and
 * `lower` maps only 'A'-'Z'.
 */
module Text {

  /** `c.isspace()` for ASCII characters. */
  predicate IsSpace(c: char) {
    (9 <= c as int <= 13) || (28 <= c as int <= 32)
  }

  predicate IsDigit(c: char) { '0' <= c <= '9' }
  predicate IsUpper(c: char) { 'A' <= c <= 'Z' }
  predicate IsLowerLetter(c: char) { 'a' <= c <= 'z' }

  /** `c.isalnum()` for ASCII characters. */
  predicate IsAlnum(c: char) { IsDigit(c) || IsUpper(c) || IsLowerLetter(c) }

  /** A character `clean_text` may keep: a lower-case letter, a digit or white space. */
  predicate IsCleanChar(c: char) { IsLowerLetter(c) || IsDigit(c) || IsSpace(c) }

  /** `c.lower()` */
  function Lower(c: char): (r: char)
    ensures !IsUpper(r)
    ensures IsAlnum(c) <==> IsAlnum(r)
    ensures IsSpace(c) <==> IsSpace(r)
    ensures !IsUpper(c) ==> r == c
  {
    if IsUpper(c) then (c as int + 32) as char else c
  }

  /** `s.lower()` */
  function LowerStr(s: string): (r: string)
    ensures |r| == |s|
    ensures forall i :: 0 <= i < |s| ==> r[i] == Lower(s[i])
  {
    seq(|s|, i requires 0 <= i < |s| => Lower(s[i]))
  }

  predicate AllSpace(s: string) { forall i :: 0 <= i < |s| ==> IsSpace(s[i]) }

  /** `s.lstrip()`: drops the leading white space. */
  function StripStart(s: string): (r: string)
    ensures |r| <= |s| && r == s[|s| - |r|..]
    ensures AllSpace(s[..|s| - |r|])
    ensures r != [] ==> !IsSpace(r[0])
  {
    if s != [] && IsSpace(s[0]) then StripStart(s[1..]) else s
  }

  /** `s.rstrip()`: drops the trailing white space. */
  function StripEnd(s: string): (r: string)
    ensures |r| <= |s| && r == s[..|r|]
    ensures AllSpace(s[|r|..])
    ensures r != [] ==> !IsSpace(r[|r| - 1])
  {
    if s != [] && IsSpace(s[|s| - 1]) then StripEnd(s[..|s| - 1]) else s
  }

  /** `s.strip()` */
  function Strip(s: string): (r: string)
    ensures r != [] ==> !IsSpace(r[0]) && !IsSpace(r[|r| - 1])
    ensures |r| <= |s|
    ensures (forall i :: 0 <= i < |s| ==> IsCleanChar(s[i])) ==> (forall i :: 0 <= i < |r| ==> IsCleanChar(r[i]))
    ensures (forall i :: 0 <= i < |s| ==> !IsUpper(s[i])) ==> (forall i :: 0 <= i < |r| ==> !IsUpper(r[i]))
  {
    StripEnd(StripStart(s))
  }

  /** `''.join(c for c in s if c.isalnum() or c.isspace())` */
  function KeepAlnumSpace(s: string): (r: string)
    ensures forall i :: 0 <= i < |r| ==> IsAlnum(r[i]) || IsSpace(r[i])
    ensures (forall i :: 0 <= i < |s| ==> !IsUpper(s[i])) ==> (forall i :: 0 <= i < |r| ==> IsCleanChar(r[i]))
    ensures |r| <= |s|
  {
    if s == [] then []
    else if IsAlnum(s[0]) || IsSpace(s[0]) then [s[0]] + KeepAlnumSpace(s[1..])
    else KeepAlnumSpace(s[1..])
  }

  /** `needle in hay`: true when `needle` occurs at some position of `hay`
      (so the empty string occurs everywhere). */
  predicate IsSubstring(needle: string, hay: string)
  {
    needle <= hay || (hay != [] && IsSubstring(needle, hay[1..]))
  }

  /** `s.find(c)`: the first index of `c`, or -1. */
  function Find(s: string, c: char): (r: int)
    ensures -1 <= r < |s|
    ensures r == -1 <==> c !in s
    ensures r >= 0 ==> s[r] == c && c !in s[..r]
  {
    if s == [] then -1
    else if s[0] == c then 0
    else var k := Find(s[1..], c); if k == -1 then -1 else k + 1
  }

  /** `s.split(c)[0]`: the text before the first `c`, or all of `s`. */
  function BeforeFirst(s: string, c: char): (r: string)
    ensures r <= s && c !in r
    ensures |r| < |s| ==> s[|r|] == c
  {
    var k := Find(s, c);
    if k == -1 then s else s[..k]
  }

  /** `s.split(c)`: the pieces between the occurrences of `c`. */
  function Split(s: string, c: char): (r: seq<string>)
    ensures |r| >= 1
    ensures forall i :: 0 <= i < |r| ==> c !in r[i]
    decreases |s|
  {
    var k := Find(s, c);
    if k == -1 then [s] else [s[..k]] + Split(s[k + 1..], c)
  }

  /** `c.join(parts)` */
  function Join(parts: seq<string>, c: char): string
    requires |parts| >= 1
  {
    if |parts| == 1 then parts[0] else parts[0] + [c] + Join(parts[1..], c)
  }

  /** Joining the pieces of a split gives back the string. */
  lemma {:induction false} JoinSplit(s: string, c: char)
    ensures Join(Split(s, c), c) == s
    decreases |s|
  {
    var k := Find(s, c);
    if k != -1 {
      var rest := Split(s[k + 1..], c);
      JoinSplit(s[k + 1..], c);
      var parts := [s[..k]] + rest;
      assert Split(s, c) == parts;
      assert parts[1..] == rest;
      assert Join(parts, c) == s[..k] + [c] + Join(rest, c);
      assert s == s[..k] + [c] + s[k + 1..];
    }
  }

  /** Splitting a string with no separator in it gives the string alone. */
  lemma SplitWithoutSeparator(s: string, c: char)
    requires c !in s
    ensures Split(s, c) == [s]
  {
  }

  /** The first separator after a separator-free prefix is found right after it. */
  lemma {:induction false} FindAfter(a: string, b: string, c: char)
    requires c !in a
    ensures Find(a + [c] + b, c) == |a|
    decreases |a|
  {
    if a != [] {
      assert (a + [c] + b)[1..] == a[1..] + [c] + b;
      FindAfter(a[1..], b, c);
    }
  }

  /** Splitting the join of separator-free pieces gives back the pieces. */
  lemma {:induction false} SplitJoin(parts: seq<string>, c: char)
    requires |parts| >= 1 && forall i :: 0 <= i < |parts| ==> c !in parts[i]
    ensures Split(Join(parts, c), c) == parts
    decreases |parts|
  {
    if |parts| == 1 {
      SplitWithoutSeparator(parts[0], c);
    } else {
      var rest := Join(parts[1..], c);
      var s := parts[0] + [c] + rest;
      FindAfter(parts[0], rest, c);
      assert s[..|parts[0]|] == parts[0];
      assert s[|parts[0]| + 1..] == rest;
      SplitJoin(parts[1..], c);
      assert parts == [parts[0]] + parts[1..];
    }
  }
}
