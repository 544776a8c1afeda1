/**
 * The few JavaScript string primitives the application relies on, written out over
 * sequences of code points: `trim`, `length` (in UTF-16 code units), `includes`,
 * `endsWith`, the first-occurrence `replace` and ASCII case-insensitive matching.
 */
module Text {
  import opened Wrappers

  /** The code points `String.prototype.trim` removes: WhiteSpace and LineTerminator of ECMAScript. */
  predicate IsSpace(c: char) {
    || c == '\t' || c == '\n' || c == '\U{000B}' || c == '\U{000C}' || c == '\r'
    || c == ' ' || c == '\U{00A0}' || c == '\U{1680}'
    || ('\U{2000}' <= c <= '\U{200A}')
    || c == '\U{2028}' || c == '\U{2029}' || c == '\U{202F}' || c == '\U{205F}'
    || c == '\U{3000}' || c == '\U{FEFF}'
  }

  predicate AllSpace(s: string) {
    forall i :: 0 <= i < |s| ==> IsSpace(s[i])
  }

  /** Number of leading white-space code points. */
  function LeadingSpaces(s: string): (n: nat)
    ensures n <= |s|
    ensures AllSpace(s[..n])
    ensures n == |s| || !IsSpace(s[n])
  {
    if |s| > 0 && IsSpace(s[0]) then
      var n := 1 + LeadingSpaces(s[1..]);
      assert s[..n] == [s[0]] + s[1..][..n - 1];
      n
    else 0
  }

  /** Number of trailing white-space code points. */
  function TrailingSpaces(s: string): (n: nat)
    ensures n <= |s|
    ensures AllSpace(s[|s| - n..])
    ensures n == |s| || !IsSpace(s[|s| - n - 1])
  {
    if |s| > 0 && IsSpace(s[|s| - 1]) then
      var n := 1 + TrailingSpaces(s[..|s| - 1]);
      assert s[|s| - n..] == s[..|s| - 1][|s| - n..] + [s[|s| - 1]];
      n
    else 0
  }

  /**
   * `String.prototype.trim`: the slice of `s` that remains once the white space at both
   * ends is gone. The result starts and ends with a non-space code point, or is empty.
   */
  function Trim(s: string): (r: string)
    ensures var i := LeadingSpaces(s); i + |r| <= |s| && r == s[i..i + |r|] && AllSpace(s[i + |r|..])
    ensures r == [] || (!IsSpace(r[0]) && !IsSpace(r[|r| - 1]))
  {
    var i := LeadingSpaces(s);
    var rest := s[i..];
    var j := TrailingSpaces(rest);
    var r := rest[..|rest| - j];
    assert r == s[i..i + |r|];
    assert s[i + |r|..] == rest[|rest| - j..];
    assert r != [] ==> r[0] == s[i] && r[|r| - 1] == rest[|rest| - j - 1];
    r
  }

  /** Trimming twice is trimming once. */
  lemma TrimIdempotent(s: string)
    ensures Trim(Trim(s)) == Trim(s)
  {
    var r := Trim(s);
    if r != [] {
      assert LeadingSpaces(r) == 0;
      assert r[0..] == r;
      assert TrailingSpaces(r) == 0;
    }
  }

  /** A string trims to nothing exactly when all of it is white space. */
  lemma TrimEmptyIffAllSpace(s: string)
    ensures Trim(s) == [] <==> AllSpace(s)
  {
    var i := LeadingSpaces(s);
    if Trim(s) == [] {
      assert s == s[..i];
    }
  }

  /**
   * `String.prototype.length`: the number of UTF-16 code units, where a code point
   * outside the Basic Multilingual Plane takes two.
   */
  function Utf16Length(s: string): (n: nat)
    ensures |s| <= n <= 2 * |s|
  {
    if s == [] then 0 else (if s[0] as int >= 0x1_0000 then 2 else 1) + Utf16Length(s[1..])
  }

  predicate StartsWith(s: string, p: string) {
    |p| <= |s| && s[..|p|] == p
  }

  predicate EndsWith(s: string, p: string) {
    |p| <= |s| && s[|s| - |p|..] == p
  }

  /** `p` occurs in `s` starting at index `i`. */
  predicate OccursAt(s: string, i: nat, p: string) {
    i + |p| <= |s| && s[i..i + |p|] == p
  }

  /** `String.prototype.includes`. */
  predicate Contains(s: string, p: string) {
    exists i: nat | i <= |s| :: OccursAt(s, i, p)
  }

  /** `String.prototype.indexOf`: the first index at which `p` occurs, if any. */
  function IndexOf(s: string, p: string, from: nat := 0): (r: Option<nat>)
    requires from <= |s|
    decreases |s| - from
    ensures r.Some? ==> from <= r.value && OccursAt(s, r.value, p)
    ensures forall k: nat :: from <= k && (r.None? || k < r.value) ==> !OccursAt(s, k, p)
  {
    if OccursAt(s, from, p) then Some(from)
    else if from == |s| then None
    else IndexOf(s, p, from + 1)
  }

  /** `s.replace(p, '')` for a string pattern: the first occurrence of `p` is cut out. */
  function RemoveFirst(s: string, p: string): (r: string)
    ensures IndexOf(s, p).None? ==> r == s
    ensures IndexOf(s, p).Some? ==>
      var i := IndexOf(s, p).value; r == s[..i] + s[i + |p|..]
  {
    match IndexOf(s, p)
    case None => s
    case Some(i) => s[..i] + s[i + |p|..]
  }

  /** The case folding of a regular expression with the `i` flag, restricted to ASCII letters. */
  function FoldCase(c: char): (f: char)
    ensures f == c || ('a' <= c <= 'z' && 'A' <= f <= 'Z')
  {
    if 'a' <= c <= 'z' then (c as int - 32) as char else c
  }

  /** `p` occurs in `s` at index `i` up to case. */
  predicate OccursAtIgnoringCase(s: string, i: nat, p: string) {
    i + |p| <= |s| && forall k :: 0 <= k < |p| ==> FoldCase(s[i + k]) == FoldCase(p[k])
  }

  /** The index of the leftmost case-insensitive match of the literal pattern `p`, if any. */
  function IndexOfIgnoringCase(s: string, p: string, from: nat := 0): (r: Option<nat>)
    requires from <= |s|
    decreases |s| - from
    ensures r.Some? ==> from <= r.value && OccursAtIgnoringCase(s, r.value, p)
    ensures forall k: nat :: from <= k && (r.None? || k < r.value) ==> !OccursAtIgnoringCase(s, k, p)
  {
    if OccursAtIgnoringCase(s, from, p) then Some(from)
    else if from == |s| then None
    else IndexOfIgnoringCase(s, p, from + 1)
  }

  /** `s.replace(/p/i, '')`: the first case-insensitive occurrence of `p` is cut out. */
  function RemoveFirstIgnoringCase(s: string, p: string): (r: string)
    ensures IndexOfIgnoringCase(s, p).None? ==> r == s
    ensures IndexOfIgnoringCase(s, p).Some? ==>
      var i := IndexOfIgnoringCase(s, p).value; r == s[..i] + s[i + |p|..]
  {
    match IndexOfIgnoringCase(s, p)
    case None => s
    case Some(i) => s[..i] + s[i + |p|..]
  }

  /** An exact occurrence is also a case-insensitive one. */
  lemma ExactOccurrenceIgnoresCase(s: string, i: nat, p: string)
    requires OccursAt(s, i, p)
    ensures OccursAtIgnoringCase(s, i, p)
  {
    forall k | 0 <= k < |p| ensures FoldCase(s[i + k]) == FoldCase(p[k]) {
      assert s[i + k] == s[i..i + |p|][k];
    }
  }

  /** The index of the first occurrence of the code point `c`, if any. */
  function IndexOfChar(s: string, c: char): (r: Option<nat>)
    ensures r.None? <==> c !in s
    ensures r.Some? ==> r.value < |s| && s[r.value] == c && c !in s[..r.value]
  {
    if s == [] then None
    else if s[0] == c then Some(0)
    else match IndexOfChar(s[1..], c)
      case None => None
      case Some(i) =>
        assert s[..i + 1] == [s[0]] + s[1..][..i];
        Some(i + 1)
  }
}
