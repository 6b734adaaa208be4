/**
 * Whitespace and `str.strip()` as the note editor uses them.
 */
module Text {

  /** The characters Python's `str.isspace` accepts, by code point. */
  predicate IsWhitespace(c: char) {
    var n := c as int;
    (9 <= n <= 13) || (28 <= n <= 32) || n == 0x85 || n == 0xA0 || n == 0x1680
    || (0x2000 <= n <= 0x200A) || n == 0x2028 || n == 0x2029 || n == 0x202F
    || n == 0x205F || n == 0x3000
  }

  /**
   * Among ASCII characters the whitespace ones are space, tab, newline, carriage
   * return, vertical tab, form feed and the four information separators.
   */
  lemma AsciiWhitespace(c: char)
    requires c as int < 128
    ensures IsWhitespace(c) <==> c in " \t\n\r\U{B}\U{C}\U{1C}\U{1D}\U{1E}\U{1F}"
  {
  }

  predicate AllWhitespace(s: string) {
    forall k :: 0 <= k < |s| ==> IsWhitespace(s[k])
  }

  /** Neither the first nor the last character is whitespace. */
  predicate IsStripped(s: string) {
    s == [] || (!IsWhitespace(s[0]) && !IsWhitespace(s[|s| - 1]))
  }

  /** Drops leading whitespace (Python's `s.lstrip()`). */
  function TrimStart(s: string): (r: string)
    ensures |r| <= |s|
    ensures r == [] || !IsWhitespace(r[0])
  {
    if s != [] && IsWhitespace(s[0]) then TrimStart(s[1..]) else s
  }

  /** Drops trailing whitespace (Python's `s.rstrip()`). */
  function TrimEnd(s: string): (r: string)
    ensures |r| <= |s|
    ensures r == [] || !IsWhitespace(r[|r| - 1])
  {
    if s != [] && IsWhitespace(s[|s| - 1]) then TrimEnd(s[..|s| - 1]) else s
  }

  /** What `TrimStart` drops is a whitespace-only head: the rest is a suffix of `s`. */
  lemma {:induction false} TrimStartDrops(s: string)
    ensures TrimStart(s) == s[|s| - |TrimStart(s)|..]
    ensures AllWhitespace(s[..|s| - |TrimStart(s)|])
  {
    if s != [] && IsWhitespace(s[0]) {
      TrimStartDrops(s[1..]);
      var m := |s| - |TrimStart(s)|;
      assert s[..m] == [s[0]] + s[1..][..m - 1];
    }
  }

  /** What `TrimEnd` drops is a whitespace-only tail: the rest is a prefix of `s`. */
  lemma {:induction false} TrimEndDrops(s: string)
    ensures TrimEnd(s) == s[..|TrimEnd(s)|]
    ensures AllWhitespace(s[|TrimEnd(s)|..])
  {
    if s != [] && IsWhitespace(s[|s| - 1]) {
      TrimEndDrops(s[..|s| - 1]);
      var m := |TrimEnd(s)|;
      assert s[m..] == s[..|s| - 1][m..] + [s[|s| - 1]];
    }
  }

  /** Python's `s.strip()`: the result has no whitespace at either end. */
  function Strip(s: string): (r: string)
    ensures IsStripped(r)
    ensures |r| <= |s|
  {
    var t := TrimEnd(s);
    TrimStartDrops(t);
    TrimStart(t)
  }

  /** `Strip(s)` is the slice of `s` left after cutting a whitespace-only head and tail. */
  lemma StripIsSlice(s: string) returns (i: nat, j: nat)
    ensures i <= j <= |s|
    ensures Strip(s) == s[i..j]
    ensures AllWhitespace(s[..i]) && AllWhitespace(s[j..])
  {
    var t := TrimEnd(s);
    TrimEndDrops(s);
    TrimStartDrops(t);
    j := |t|;
    i := j - |Strip(s)|;
    assert s[..i] == t[..i];
  }

  /** The strip is empty exactly when the string is nothing but whitespace. */
  lemma StripEmptyIffAllWhitespace(s: string)
    ensures Strip(s) == [] <==> AllWhitespace(s)
  {
    var i, j := StripIsSlice(s);
    if Strip(s) == [] {
      assert s == s[..i] + s[j..];
    } else {
      assert s[i] == Strip(s)[0];
    }
  }

  /** A string with no whitespace at either end is its own strip. */
  lemma StripStripped(s: string)
    requires IsStripped(s)
    ensures Strip(s) == s
  {
  }

  /** Stripping twice is stripping once. */
  lemma StripIdempotent(s: string)
    ensures Strip(Strip(s)) == Strip(s)
  {
    StripStripped(Strip(s));
  }

  /** A trailing newline, such as the one a Tk text widget appends, does not change the strip. */
  lemma StripIgnoresTrailingNewline(s: string)
    ensures Strip(s + "\n") == Strip(s)
  {
  }
}
