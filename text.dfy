/**
 * Character classes and string primitives of the two runtimes the sources run on:
 * JavaScript (the clients and the mock server) and Java (the backend seeder).
 * They differ in what `\s`, `.` and `trim()` accept, so each primitive takes the engine.
 */
module Text {

  datatype Engine = Js | Java

  /** The `\s` class of the engine's regular expressions (Java without UNICODE_CHARACTER_CLASS). */
  predicate IsSpace(e: Engine, c: char) {
    match e
    case Java => c == ' ' || '\t' <= c <= '\r'
    case Js =>
      || c == ' ' || '\t' <= c <= '\r' || c == '\U{00A0}' || c == '\U{1680}'
      || '\U{2000}' <= c <= '\U{200A}' || c == '\U{2028}' || c == '\U{2029}'
      || c == '\U{202F}' || c == '\U{205F}' || c == '\U{3000}' || c == '\U{FEFF}'
  }

  /** The characters the regular-expression `.` does not match. */
  predicate IsLineTerminator(e: Engine, c: char) {
    match e
    case Java => c == '\n' || c == '\r' || c == '\U{0085}' || c == '\U{2028}' || c == '\U{2029}'
    case Js => c == '\n' || c == '\r' || c == '\U{2028}' || c == '\U{2029}'
  }

  /** The characters `trim()` removes: JS removes `\s`, Java removes every char up to U+0020. */
  predicate IsTrimmable(e: Engine, c: char) {
    match e
    case Java => c <= ' '
    case Js => IsSpace(Js, c)
  }

  lemma SpaceIsTrimmable(e: Engine, c: char)
    requires IsSpace(e, c)
    ensures IsTrimmable(e, c)
  {
  }

  /** Number of trimmable characters at the front of `s`. */
  function LeadingTrimmable(e: Engine, s: string): (n: nat)
    ensures n <= |s|
    ensures forall k :: 0 <= k < n ==> IsTrimmable(e, s[k])
    ensures n < |s| ==> !IsTrimmable(e, s[n])
  {
    if s == [] || !IsTrimmable(e, s[0]) then 0 else 1 + LeadingTrimmable(e, s[1..])
  }

  /** Number of trimmable characters at the back of `s`. */
  function TrailingTrimmable(e: Engine, s: string): (n: nat)
    ensures n <= |s|
    ensures forall k :: |s| - n <= k < |s| ==> IsTrimmable(e, s[k])
    ensures n < |s| ==> !IsTrimmable(e, s[|s| - 1 - n])
  {
    if s == [] || !IsTrimmable(e, s[|s| - 1]) then 0 else 1 + TrailingTrimmable(e, s[..|s| - 1])
  }

  /** `String.prototype.trim` / `String.trim`. */
  function Trim(e: Engine, s: string): (r: string)
    ensures |r| <= |s|
    ensures r == [] || (!IsTrimmable(e, r[0]) && !IsTrimmable(e, r[|r| - 1]))
    ensures |r| == 0 <==> forall k :: 0 <= k < |s| ==> IsTrimmable(e, s[k])
  {
    var a := LeadingTrimmable(e, s);
    var rest := s[a..];
    var b := TrailingTrimmable(e, rest);
    var r := rest[..|rest| - b];
    assert r == s[a..|s| - b];
    assert |r| == 0 ==> a == |s|;
    r
  }

  /** The trim is the slice left after dropping trimmable characters at both ends. */
  lemma TrimSlice(e: Engine, s: string)
    ensures exists i, j ::
              && 0 <= i <= j <= |s| && Trim(e, s) == s[i..j]
              && (forall k :: 0 <= k < i ==> IsTrimmable(e, s[k]))
              && (forall k :: j <= k < |s| ==> IsTrimmable(e, s[k]))
  {
    var a := LeadingTrimmable(e, s);
    var b := TrailingTrimmable(e, s[a..]);
    assert Trim(e, s) == s[a..|s| - b];
    forall k | |s| - b <= k < |s| ensures IsTrimmable(e, s[k]) {
      assert s[k] == s[a..][k - a];
    }
  }

  /** True when the text is empty or only trimmable characters. */
  predicate IsBlank(e: Engine, s: string) {
    LeadingTrimmable(e, s) == |s|
  }

  /** A text is blank iff its trim is empty (`!text || text.trim().length === 0`, `trim().isEmpty()`). */
  lemma BlankIffTrimEmpty(e: Engine, s: string)
    ensures IsBlank(e, s) <==> Trim(e, s) == []
  {
  }

  /** `w` occurs in `s` starting at position `i`. */
  predicate StartsAt(s: string, i: nat, w: string) {
    i + |w| <= |s| && s[i..i + |w|] == w
  }

  /** `s.includes(w)` / `s.contains(w)`. */
  predicate Contains(s: string, w: string) {
    exists i: nat | i <= |s| :: StartsAt(s, i, w)
  }

  lemma EmptyIsContained(s: string)
    ensures Contains(s, "")
  {
    assert StartsAt(s, 0, "");
  }

  /** Length of the run of `\s` characters at the front of `s`. */
  function SpaceRun(e: Engine, s: string): (n: nat)
    ensures n <= |s|
    ensures forall k :: 0 <= k < n ==> IsSpace(e, s[k])
    ensures n < |s| ==> !IsSpace(e, s[n])
  {
    if s == [] || !IsSpace(e, s[0]) then 0 else 1 + SpaceRun(e, s[1..])
  }

  /** The `\s` run is the only length whose prefix is all `\s` and which stops at a non-`\s` or the end. */
  lemma {:induction false} SpaceRunAt(e: Engine, s: string, n: nat)
    requires n <= |s|
    requires forall k :: 0 <= k < n ==> IsSpace(e, s[k])
    requires n < |s| ==> !IsSpace(e, s[n])
    ensures SpaceRun(e, s) == n
  {
    if n > 0 {
      SpaceRunAt(e, s[1..], n - 1);
    }
  }

  /** No two adjacent `\s` characters. */
  predicate NoDoubleSpace(e: Engine, s: string) {
    forall k :: 0 <= k < |s| - 1 ==> !(IsSpace(e, s[k]) && IsSpace(e, s[k + 1]))
  }

  /** `s.replace(/\s+/g, ' ')` / `s.replaceAll("\\s+", " ")`. */
  function CollapseSpaces(e: Engine, s: string): (r: string)
    ensures NoDoubleSpace(e, r)
    ensures forall k :: 0 <= k < |r| && IsSpace(e, r[k]) ==> r[k] == ' '
    ensures |s| > 0 && !IsSpace(e, s[0]) ==> |r| > 0 && r[0] == s[0]
    ensures |s| > 0 && IsSpace(e, s[0]) ==> |r| > 0 && r[0] == ' '
    ensures |r| <= |s|
  {
    if s == [] then []
    else if IsSpace(e, s[0]) then
      var n := SpaceRun(e, s);
      [' '] + CollapseSpaces(e, s[n..])
    else
      [s[0]] + CollapseSpaces(e, s[1..])
  }

  /** Whitespace-normalised: no `\s` at either end and no run of two or more. */
  predicate IsCollapsed(e: Engine, s: string) {
    && NoDoubleSpace(e, s)
    && (s == [] || (!IsSpace(e, s[0]) && !IsSpace(e, s[|s| - 1])))
  }

  /** Trimming a string with no double space leaves a whitespace-normalised string. */
  lemma TrimCollapsed(e: Engine, s: string)
    requires NoDoubleSpace(e, s)
    ensures IsCollapsed(e, Trim(e, s))
  {
    var r := Trim(e, s);
    TrimSlice(e, s);
    var i, j :| 0 <= i <= j <= |s| && r == s[i..j];
    forall k | 0 <= k < |r| - 1 ensures !(IsSpace(e, r[k]) && IsSpace(e, r[k + 1])) {
      assert r[k] == s[i + k] && r[k + 1] == s[i + k + 1];
    }
    if r != [] {
      if IsSpace(e, r[0]) { SpaceIsTrimmable(e, r[0]); }
      if IsSpace(e, r[|r| - 1]) { SpaceIsTrimmable(e, r[|r| - 1]); }
    }
  }

  /** The `.replace(/\s+/g, ' ').trim()` tail of every clean-text pipeline. */
  function Normalize(e: Engine, s: string): (r: string)
    ensures IsCollapsed(e, r)
  {
    TrimCollapsed(e, CollapseSpaces(e, s));
    Trim(e, CollapseSpaces(e, s))
  }

  /** ASCII case folding; `toLowerCase` on other letters is not modelled. */
  function LowerChar(c: char): char {
    if 'A' <= c <= 'Z' then (c as int + 32) as char else c
  }

  function ToLower(s: string): (r: string)
    ensures |r| == |s| && forall k :: 0 <= k < |s| ==> r[k] == LowerChar(s[k])
  {
    seq(|s|, k requires 0 <= k < |s| => LowerChar(s[k]))
  }
}
