/**
 * The few standard-library string operations the scanner relies on:
 * `strings.ToLower`, `strings.Contains`, `filepath.Ext` (with the Windows
 * path separators) and the decimal rendering done by `%d`.
 */
module Strings {

  /** Lower-casing of one character; only ASCII upper-case letters change. */
  function LowerChar(c: char): char
  {
    if 'A' <= c <= 'Z' then (c as int + 32) as char else c
  }

  predicate IsUpper(c: char)
  {
    'A' <= c <= 'Z'
  }

  /** `strings.ToLower`, restricted to ASCII case mapping. */
  function Lower(s: string): (r: string)
    ensures |r| == |s|
    ensures forall i :: 0 <= i < |r| ==> !IsUpper(r[i])
  {
    seq(|s|, i requires 0 <= i < |s| => LowerChar(s[i]))
  }

  /** Lower-casing twice is lower-casing once. */
  lemma LowerIdempotent(s: string)
    ensures Lower(Lower(s)) == Lower(s)
  {
    assert forall i :: 0 <= i < |s| ==> Lower(Lower(s))[i] == Lower(s)[i];
  }

  predicate OccursAt(s: string, sub: string, i: nat)
  {
    i + |sub| <= |s| && s[i..i + |sub|] == sub
  }

  /** `strings.Contains(s, sub)`: `sub` occurs somewhere in `s` (the empty string occurs everywhere). */
  predicate Contains(s: string, sub: string)
  {
    exists i: nat :: i <= |s| && OccursAt(s, sub, i)
  }

  /** A word, whatever its letter case and whatever surrounds it, is found in the lower-cased text in lower case. */
  lemma ContainsLowered(pre: string, word: string, post: string)
    ensures Contains(Lower(pre + word + post), Lower(word))
  {
    var s := pre + word + post;
    var i := |pre|;
    assert s[i..i + |word|] == word;
    assert Lower(s)[i..i + |word|] == Lower(word);
    assert OccursAt(Lower(s), Lower(word), i);
  }

  /** On Windows `os.IsPathSeparator` accepts both slashes. */
  predicate IsPathSeparator(c: char)
  {
    c == '\\' || c == '/'
  }

  /**
   * `filepath.Ext(path)`: the suffix starting at the last '.' of the final
   * path element, or "" when that element has no dot.
   */
  function Ext(path: string): (r: string)
    ensures |r| <= |path| && r == path[|path| - |r|..]
    ensures r == [] || r[0] == '.'
    ensures forall k :: 0 <= k < |r| ==> !IsPathSeparator(r[k])
    ensures forall k :: 1 <= k < |r| ==> r[k] != '.'
  {
    ExtScan(path, |path|)
  }

  /** Scans `path[..n]` backwards; everything after position `n` is already known to hold neither a dot nor a separator. */
  function ExtScan(path: string, n: nat): (r: string)
    requires n <= |path|
    requires forall k :: n <= k < |path| ==> !IsPathSeparator(path[k]) && path[k] != '.'
    ensures |r| <= |path| && r == path[|path| - |r|..]
    ensures r == [] || (|r| >= |path| - n + 1 && r[0] == '.')
    ensures forall k :: 0 <= k < |r| ==> !IsPathSeparator(r[k])
    ensures forall k :: 1 <= k < |r| ==> r[k] != '.'
    decreases n
  {
    if n == 0 then ""
    else if IsPathSeparator(path[n - 1]) then ""
    else if path[n - 1] == '.' then path[n - 1..]
    else ExtScan(path, n - 1)
  }

  function DigitChar(d: nat): (c: char)
    requires d < 10
    ensures '0' <= c <= '9'
  {
    ('0' as int + d) as char
  }

  /** Decimal rendering of a natural number, as `%d` prints it. */
  function NatToString(n: nat): (r: string)
    ensures |r| >= 1
    ensures forall k :: 0 <= k < |r| ==> '0' <= r[k] <= '9'
    ensures (r[0] == '0') <==> (n == 0)
  {
    if n < 10 then [DigitChar(n)] else NatToString(n / 10) + [DigitChar(n % 10)]
  }
}
