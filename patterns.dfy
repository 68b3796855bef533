/**
 * The regular expressions of the three seed transformers, written as scanners over strings.
 *
 * Every pattern ends in the "times" word `مرا?ت?` (مرة / مرات without the final letter).
 * Each scanner returns the match that the backtracking engines of JavaScript and Java choose:
 * the leftmost start position and, at that position, the first alternative in backtracking
 * order (greedy quantifiers take as much as they can, lazy ones as little).
 */
module Patterns {
  import opened Wrappers
  import opened Text
  import opened Numbers

  const Meem: char := 'م'
  const Reh: char := 'ر'
  const Alef: char := 'ا'
  const Teh: char := 'ت'

  /** `\s*مرا?ت?` anchored at `p`; the end of the greedy match. */
  function TimesWordAt(e: Engine, s: string, p: nat): (r: Option<nat>)
    requires p <= |s|
    ensures r.Some? ==> p + 2 <= r.value <= |s|
  {
    var q := p + SpaceRun(e, s[p..]);
    if q + 2 <= |s| && s[q] == Meem && s[q + 1] == Reh then
      var a := if q + 2 < |s| && s[q + 2] == Alef then q + 3 else q + 2;
      Some(if a < |s| && s[a] == Teh then a + 1 else a)
    else None
  }

  /** `\s*مرا?ت?\s*\)` anchored at `p`; the end just past the closing parenthesis. */
  function ParenTailAt(e: Engine, s: string, p: nat): (r: Option<nat>)
    requires p <= |s|
    ensures r.Some? ==> p < r.value <= |s| && s[r.value - 1] == ')'
  {
    match TimesWordAt(e, s, p)
    case None => None
    case Some(t) =>
      var c := t + SpaceRun(e, s[t..]);
      if c < |s| && s[c] == ')' then Some(c + 1) else None
  }

  /** The class of the lazy group: `[^)]` or `.` (anything but a line terminator). */
  datatype GroupClass = NotCloseParen | AnyButLineTerminator

  predicate InGroup(e: Engine, g: GroupClass, c: char) {
    match g
    case NotCloseParen => c != ')'
    case AnyButLineTerminator => !IsLineTerminator(e, c)
  }

  /** Offsets of a parenthesised match: the capture group and the end of the whole match. */
  datatype ParenMatch = ParenMatch(groupStart: nat, groupEnd: nat, end: nat)

  /** The lazy group started at `a` tries to stop at `p`, then at `p + 1`, and so on. */
  function LazyGroup(e: Engine, g: GroupClass, s: string, a: nat, p: nat): (r: Option<ParenMatch>)
    requires a <= p <= |s|
    ensures r.Some? ==> r.value.groupStart == a && p <= r.value.groupEnd < r.value.end <= |s|
    ensures r.Some? ==> s[r.value.end - 1] == ')'
    decreases |s| - p
  {
    match ParenTailAt(e, s, p)
    case Some(end) => Some(ParenMatch(a, p, end))
    case None => if p < |s| && InGroup(e, g, s[p]) then LazyGroup(e, g, s, a, p + 1) else None
  }

  /** `\(\s*(G*?)\s*مرا?ت?\s*\)` anchored at `i`. */
  function ParenAt(e: Engine, g: GroupClass, s: string, i: nat): (r: Option<ParenMatch>)
    requires i <= |s|
    ensures r.Some? ==> i < r.value.groupStart <= r.value.groupEnd < r.value.end <= |s|
    ensures r.Some? ==> s[i] == '(' && s[r.value.end - 1] == ')'
  {
    if i < |s| && s[i] == '(' then
      LazyGroup(e, g, s, i + 1 + SpaceRun(e, s[i + 1..]), i + 1 + SpaceRun(e, s[i + 1..]))
    else None
  }

  /** The leftmost parenthesised match at or after `i`, with its start. */
  function FindParen(e: Engine, g: GroupClass, s: string, i: nat): (r: Option<(nat, ParenMatch)>)
    requires i <= |s|
    ensures r.Some? ==> i <= r.value.0 <= |s| && Some(r.value.1) == ParenAt(e, g, s, r.value.0)
    decreases |s| - i
  {
    match ParenAt(e, g, s, i)
    case Some(m) => Some((i, m))
    case None => if i == |s| then None else FindParen(e, g, s, i + 1)
  }

  /** The capture group of the first parenthesised "times" marker. */
  function ParenGroup(e: Engine, g: GroupClass, s: string): Option<string> {
    match FindParen(e, g, s, 0)
    case Some((_, m)) => Some(s[m.groupStart..m.groupEnd])
    case None => None
  }

  /** `[٠-٩]` or `\d` (ASCII only, in both engines). */
  datatype DigitClass = Eastern | Ascii

  predicate IsDigitOf(d: DigitClass, c: char) {
    match d
    case Eastern => IsEasternDigit(c)
    case Ascii => IsAsciiDigit(c)
  }

  /** End of the maximal run of digits of class `d` starting at `i`. */
  function RunEnd(d: DigitClass, s: string, i: nat): (j: nat)
    requires i <= |s|
    ensures i <= j <= |s|
    ensures forall k :: i <= k < j ==> IsDigitOf(d, s[k])
    ensures j < |s| ==> !IsDigitOf(d, s[j])
    decreases |s| - i
  {
    if i < |s| && IsDigitOf(d, s[i]) then RunEnd(d, s, i + 1) else i
  }

  /** `([D]+)\s*مرا?ت?` anchored at `i`: the end of the group and of the match. */
  function DigitsAt(e: Engine, d: DigitClass, s: string, i: nat): (r: Option<(nat, nat)>)
    requires i <= |s|
    ensures r.Some? ==> i < r.value.0 < r.value.1 <= |s|
    ensures r.Some? ==> forall k :: i <= k < r.value.0 ==> IsDigitOf(d, s[k])
  {
    if i < |s| && IsDigitOf(d, s[i]) then
      var j := RunEnd(d, s, i);
      match TimesWordAt(e, s, j)
      case Some(t) => Some((j, t))
      case None => None
    else None
  }

  /** The leftmost digits-then-"times" match at or after `i`: its start, group end and end. */
  function FindDigits(e: Engine, d: DigitClass, s: string, i: nat): (r: Option<(nat, nat, nat)>)
    requires i <= |s|
    ensures r.Some? ==> i <= r.value.0 <= |s| && DigitsAt(e, d, s, r.value.0) == Some((r.value.1, r.value.2))
    decreases |s| - i
  {
    match DigitsAt(e, d, s, i)
    case Some((j, t)) => Some((i, j, t))
    case None => if i == |s| then None else FindDigits(e, d, s, i + 1)
  }

  /** The capture group (a run of digits) of the first digits-then-"times" marker. */
  function DigitsGroup(e: Engine, d: DigitClass, s: string): (r: Option<string>)
    ensures r.Some? ==> |r.value| > 0 && forall k :: 0 <= k < |r.value| ==> IsDigitOf(d, r.value[k])
  {
    match FindDigits(e, d, s, 0)
    case Some((i, j, _)) => Some(s[i..j])
    case None => None
  }

  /** The written numbers of the cleaning alternation, in the order they are tried. */
  const NumberWords: seq<string> := ["ثلاث", "أربع", "خمس", "ست", "سبع", "ثمان", "تسع", "عشر", "مائة"]

  /** `(w1|w2|...)\s*مرا?ت?` anchored at `i`: the first alternative whose whole match succeeds. */
  function WordMarkerAt(e: Engine, words: seq<string>, s: string, i: nat): (r: Option<nat>)
    requires i <= |s|
    requires forall k :: 0 <= k < |words| ==> |words[k]| > 0
    ensures r.Some? ==> i < r.value <= |s|
  {
    if words == [] then None
    else if StartsAt(s, i, words[0]) && TimesWordAt(e, s, i + |words[0]|).Some? then
      TimesWordAt(e, s, i + |words[0]|)
    else WordMarkerAt(e, words[1..], s, i)
  }

  /** The three repeat-marker patterns the clean-text pipelines remove. */
  datatype Marker =
    | ParenMarker   // `\(\s*.*?\s*مرا?ت?\s*\)`
    | DigitMarker   // `([٠-٩]+|\d+)\s*مرا?ت?`
    | WordMarker    // `(ثلاث|أربع|...|مائة)\s*مرا?ت?`

  /** The end of the match of marker `m` anchored at `i`. */
  function MarkerAt(e: Engine, m: Marker, s: string, i: nat): (r: Option<nat>)
    requires i <= |s|
    ensures r.Some? ==> i < r.value <= |s|
  {
    match m
    case ParenMarker =>
      (match ParenAt(e, AnyButLineTerminator, s, i)
       case Some(pm) => Some(pm.end)
       case None => None)
    case DigitMarker =>
      (match DigitsAt(e, Eastern, s, i)
       case Some((_, t)) => Some(t)
       case None =>
         match DigitsAt(e, Ascii, s, i)
         case Some((_, t)) => Some(t)
         case None => None)
    case WordMarker => WordMarkerAt(e, NumberWords, s, i)
  }

  /** `s.replace(/M/g, '')` from position `i` on. */
  function RemoveFrom(e: Engine, m: Marker, s: string, i: nat): (r: string)
    requires i <= |s|
    ensures |r| <= |s| - i
    decreases |s| - i
  {
    if i == |s| then []
    else
      match MarkerAt(e, m, s, i)
      case Some(end) => RemoveFrom(e, m, s, end)
      case None => [s[i]] + RemoveFrom(e, m, s, i + 1)
  }

  /** `s.replace(/M/g, '')` / `s.replaceAll(M, "")`. */
  function Remove(e: Engine, m: Marker, s: string): string {
    RemoveFrom(e, m, s, 0)
  }

  /** A string in which marker `m` never matches is left unchanged by its removal. */
  lemma {:induction false} RemoveWithoutMatch(e: Engine, m: Marker, s: string, i: nat)
    requires i <= |s|
    requires forall k :: i <= k < |s| ==> MarkerAt(e, m, s, k).None?
    ensures RemoveFrom(e, m, s, i) == s[i..]
    decreases |s| - i
  {
    if i < |s| {
      RemoveWithoutMatch(e, m, s, i + 1);
    }
  }

  /** One substring check of a written-number chain: `text.includes(phrase) || text.includes(word)`. */
  datatype WordCheck = WordCheck(phrase: string, word: string, value: int)

  /** The value of the first check in `checks` whose phrase or word occurs in `text`. */
  function FirstWordCount(checks: seq<WordCheck>, text: string): (r: Option<int>)
    ensures r.Some? ==> exists k :: (0 <= k < |checks| && r.value == checks[k].value
              && (Contains(text, checks[k].phrase) || Contains(text, checks[k].word)))
    ensures r.None? <==> forall k :: 0 <= k < |checks| ==>
              !Contains(text, checks[k].phrase) && !Contains(text, checks[k].word)
  {
    if checks == [] then None
    else if Contains(text, checks[0].phrase) || Contains(text, checks[0].word) then Some(checks[0].value)
    else
      var r := FirstWordCount(checks[1..], text);
      assert forall k :: 1 <= k < |checks| ==> checks[k] == checks[1..][k - 1];
      r
  }

  /** The written-number table both `parseArabicNumber` implementations consult. */
  function WrittenNumber(w: string): (r: Option<int>)
    ensures r.Some? ==> r.value in {3, 4, 5, 6, 7, 8, 9, 10, 100}
  {
    if w == "ثلاث" || w == "ثلاثة" then Some(3)
    else if w == "أربع" || w == "أربعة" then Some(4)
    else if w == "خمس" || w == "خمسة" then Some(5)
    else if w == "ست" || w == "ستة" then Some(6)
    else if w == "سبع" || w == "سبعة" then Some(7)
    else if w == "ثمان" || w == "ثمانية" then Some(8)
    else if w == "تسع" || w == "تسعة" then Some(9)
    else if w == "عشر" || w == "عشرة" then Some(10)
    else if w == "مائة" then Some(100)
    else None
  }

  /** No word of the table is a string of ASCII digits. */
  lemma DigitsAreNotWritten(w: string)
    requires |w| > 0 && forall k :: 0 <= k < |w| ==> IsAsciiDigit(w[k])
    ensures WrittenNumber(w).None?
  {
    assert IsAsciiDigit(w[0]);
  }

  /** Without an opening parenthesis at or after `i` no parenthesised marker starts there. */
  lemma {:induction false} FindParenNeedsParen(e: Engine, g: GroupClass, s: string, i: nat)
    requires i <= |s|
    requires forall k :: i <= k < |s| ==> s[k] != '('
    ensures FindParen(e, g, s, i).None?
    decreases |s| - i
  {
    if i < |s| {
      FindParenNeedsParen(e, g, s, i + 1);
    }
  }

  /** Without a digit of class `d` at or after `i` no digits-then-"times" marker starts there. */
  lemma {:induction false} FindDigitsNeedsDigit(e: Engine, d: DigitClass, s: string, i: nat)
    requires i <= |s|
    requires forall k :: i <= k < |s| ==> !IsDigitOf(d, s[k])
    ensures FindDigits(e, d, s, i).None?
    decreases |s| - i
  {
    if i < |s| {
      FindDigitsNeedsDigit(e, d, s, i + 1);
    }
  }
}
