/**
 * The few pieces of Python's string and list semantics that the player relies on:
 * str.isspace / str.strip / str.lstrip(c), ASCII case folding, str.startswith,
 * and list indexing with negative indices.
 */
module PyText {

  /** The characters for which Python's str.isspace() holds, i.e. what str.strip() removes. */
  predicate IsSpace(c: char) {
    || c == ' '
    || ('\t' <= c <= '\r')
    || ('\U{1c}' <= c <= '\U{1f}')
    || c == '\U{85}' || c == '\U{a0}' || c == '\U{1680}'
    || ('\U{2000}' <= c <= '\U{200a}')
    || c == '\U{2028}' || c == '\U{2029}' || c == '\U{202f}' || c == '\U{205f}' || c == '\U{3000}'
  }

  /** str.lstrip(): drops the longest prefix of whitespace (see LStripSpec). */
  function LStrip(s: string): (r: string)
    ensures |r| <= |s|
  {
    if |s| > 0 && IsSpace(s[0]) then LStrip(s[1..]) else s
  }

  /** str.rstrip(): drops the longest suffix of whitespace (see RStripSpec). */
  function RStrip(s: string): (r: string)
    ensures |r| <= |s|
  {
    if |s| > 0 && IsSpace(s[|s| - 1]) then RStrip(s[..|s| - 1]) else s
  }

  /** str.strip(): whitespace removed at both ends (see StripSpec). */
  function Strip(s: string): (r: string)
    ensures |r| <= |s|
  {
    RStrip(LStrip(s))
  }

  /** str.lstrip(c) for a single character c: drops every leading copy of c (see LStripCharSpec). */
  function LStripChar(s: string, c: char): (r: string)
    ensures |r| <= |s|
  {
    if |s| > 0 && s[0] == c then LStripChar(s[1..], c) else s
  }

  /** lstrip returns the suffix left after the whitespace run that starts the string. */
  lemma {:induction false} LStripSpec(s: string)
    ensures var r := LStrip(s);
      && r == s[|s| - |r|..]
      && (forall k :: 0 <= k < |s| - |r| ==> IsSpace(s[k]))
      && (|r| > 0 ==> !IsSpace(r[0]))
  {
    if |s| > 0 && IsSpace(s[0]) {
      LStripSpec(s[1..]);
    }
  }

  /** rstrip returns the prefix left before the whitespace run that ends the string. */
  lemma {:induction false} RStripSpec(s: string)
    ensures var r := RStrip(s);
      && r == s[..|r|]
      && (forall k :: |r| <= k < |s| ==> IsSpace(s[k]))
      && (|r| > 0 ==> !IsSpace(r[|r| - 1]))
  {
    if |s| > 0 && IsSpace(s[|s| - 1]) {
      RStripSpec(s[..|s| - 1]);
    }
  }

  /** strip leaves no whitespace at either end, and is empty exactly for all-whitespace strings. */
  lemma StripSpec(s: string)
    ensures var r := Strip(s);
      && (|r| > 0 ==> !IsSpace(r[0]) && !IsSpace(r[|r| - 1]))
      && (r == [] <==> forall k :: 0 <= k < |s| ==> IsSpace(s[k]))
  {
    var l := LStrip(s);
    LStripSpec(s);
    RStripSpec(l);
    var r := RStrip(l);
    if |r| > 0 {
      assert r[0] == l[0];
    }
  }

  /** lstrip(c) removes exactly the run of c at the start. */
  lemma {:induction false} LStripCharSpec(s: string, c: char)
    ensures var r := LStripChar(s, c);
      && r == s[|s| - |r|..]
      && (forall k :: 0 <= k < |s| - |r| ==> s[k] == c)
      && (|r| > 0 ==> r[0] != c)
  {
    if |s| > 0 && s[0] == c {
      LStripCharSpec(s[1..], c);
    }
  }

  /** Strip leaves a string alone when neither end is whitespace. */
  lemma StripNoSpace(s: string)
    requires |s| > 0 && !IsSpace(s[0]) && !IsSpace(s[|s| - 1])
    ensures Strip(s) == s
  {
  }

  /** Lower-casing of one character, for the ASCII letters (the only ones the model compares). */
  function LowerChar(c: char): (r: char)
    ensures 'A' <= c <= 'Z' ==> 'a' <= r <= 'z' && r as int - c as int == 32
    ensures !('A' <= c <= 'Z') ==> r == c
  {
    if 'A' <= c <= 'Z' then (c as int + 32) as char else c
  }

  /** str.lower() restricted to ASCII letters; the length never changes. */
  function Lower(s: string): (r: string)
    ensures |r| == |s| && forall k :: 0 <= k < |s| ==> r[k] == LowerChar(s[k])
  {
    seq(|s|, k requires 0 <= k < |s| => LowerChar(s[k]))
  }

  /** str.startswith(p). */
  predicate StartsWith(s: string, p: string) {
    |p| <= |s| && s[..|p|] == p
  }

  /** An index i is valid for a Python list of length n: -n <= i < n. */
  predicate InRange(n: int, i: int) {
    -n <= i < n
  }

  /** Python's xs[i]: a negative index counts from the end. */
  function At<T>(xs: seq<T>, i: int): (r: T)
    requires InRange(|xs|, i)
    ensures i >= 0 ==> r == xs[i]
    ensures i < 0 ==> r == xs[|xs| + i]
  {
    if i < 0 then xs[|xs| + i] else xs[i]
  }
}
