/**
 * The mobile app's bundled data service (`apps/mobile/src/services/mockData.ts`): it turns the
 * combined morning/evening section of the bundled document into a morning and an evening list.
 */
module MobileSeed {
  import opened Wrappers
  import opened Azkar
  import opened Text
  import opened Numbers
  import opened Patterns

  /** `parseArabicNumber`: Eastern digits become ASCII, then the written-number table, then `parseInt`. `None` is `NaN`. */
  function ParseArabicNumber(s: string): (r: Option<int>)
    ensures r.Some? ==>
              || WrittenNumber(Trim(Js, EasternToAscii(s))).Some?
              || exists k :: 0 <= k < |s| && (IsAsciiDigit(s[k]) || IsEasternDigit(s[k]))
  {
    var english := EasternToAscii(s);
    match WrittenNumber(Trim(Js, english))
    case Some(n) => Some(n)
    case None =>
      var r := JsParseInt(english, true);
      EasternToAsciiPointwise(s);
      assert r.Some? ==> exists k :: 0 <= k < |s| && IsAsciiDigit(english[k]);
      r
  }

  /** The trimmed capture group of extraction pattern `k`: `(…مرات)`, then `[٠-٩]+ مرات`, then `\d+ مرات`. */
  function PatternCapture(k: nat, text: string): Option<string>
    requires k < 3
  {
    var group :=
      if k == 0 then ParenGroup(Js, NotCloseParen, text)
      else if k == 1 then DigitsGroup(Js, Eastern, text)
      else DigitsGroup(Js, Ascii, text);
    match group
    case Some(g) => Some(Trim(Js, g))
    case None => None
  }

  /** What pattern `k` contributes: its parsed capture, only when it is a positive number. */
  function PatternCount(k: nat, text: string): (r: Option<int>)
    requires k < 3
    ensures r.Some? ==> r.value > 0
  {
    match PatternCapture(k, text)
    case None => None
    case Some(c) =>
      match ParseArabicNumber(c)
      case Some(n) => if n > 0 then Some(n) else None
      case None => None
  }

  /** The substring checks after the patterns, in the order they are tried. */
  const WordChecks: seq<WordCheck> := [
    WordCheck("ثلاث مرات", "ثلاث", 3),
    WordCheck("أربع مرات", "أربع", 4),
    WordCheck("خمس مرات", "خمس", 5),
    WordCheck("ست مرات", "ست", 6),
    WordCheck("سبع مرات", "سبع", 7),
    WordCheck("عشر مرات", "عشر", 10),
    WordCheck("مائة مرة", "مائة", 100)
  ]

  /** The count decided from pattern `k` on: the first positive pattern, else the word checks, else 1. */
  function CountFrom(k: nat, text: string): (r: int)
    requires k <= 3
    ensures r >= 1
    decreases 3 - k
  {
    if k == 3 then
      assert forall j :: 0 <= j < |WordChecks| ==> WordChecks[j].value > 0;
      FirstWordCount(WordChecks, text).GetOr(1)
    else
      match PatternCount(k, text)
      case Some(n) => n
      case None => CountFrom(k + 1, text)
  }

  /** The repetition count `extractRepeatCount` returns. */
  function RepeatCount(text: string): (r: int)
    ensures r >= 1
  {
    CountFrom(0, text)
  }

  /** `extractRepeatCount`: tries the three patterns in order, then the written words, then 1. */
  method ExtractRepeatCount(text: string) returns (n: int)
    ensures n == RepeatCount(text)
    ensures n >= 1
  {
    var k := 0;
    while k < 3
      invariant 0 <= k <= 3
      invariant CountFrom(k, text) == RepeatCount(text)
    {
      var capture := PatternCapture(k, text);
      if capture.Some? {
        var parsed := ParseArabicNumber(capture.value);
        if parsed.Some? && parsed.value > 0 {
          return parsed.value;
        }
      }
      k := k + 1;
    }
    n := FirstWordCount(WordChecks, text).GetOr(1);
  }

  /** `cleanText`: removes the three markers (trimming after each) and collapses whitespace. */
  function CleanText(text: string): (r: string)
    ensures IsCollapsed(Js, r)
  {
    var t1 := Trim(Js, Remove(Js, ParenMarker, text));
    var t2 := Trim(Js, Remove(Js, DigitMarker, t1));
    var t3 := Trim(Js, Remove(Js, WordMarker, t2));
    Normalize(Js, t3)
  }

  /** `footnoteArray[index] || null`: a missing or empty footnote becomes null. */
  function Footnote(footnotes: seq<string>, i: nat): (r: Option<string>)
    ensures r.Some? <==> i < |footnotes| && footnotes[i] != ""
  {
    if i < |footnotes| && footnotes[i] != "" then Some(footnotes[i]) else None
  }

  /**
   * The zikr built from source entry `i`; `slot` is 1 for morning and 2 for evening. The list
   * functions below take the text cleaner and the count extractor as parameters so that their
   * lemmas do not unfold the text scanners; `SeedList` passes `CleanText` and `RepeatCount`.
   */
  function SeedZikr(texts: seq<string>, footnotes: seq<string>, i: nat, slot: int, clean: string -> string, count: string -> int): Zikr
    requires i < |texts|
  {
    Zikr((i + 1) * 100 + slot, clean(texts[i]), Footnote(footnotes, i), count(texts[i]), i + 1)
  }

  /** The source indices of the non-blank entries among the first `n`, in order. */
  function NonBlankIndices(texts: seq<string>, n: nat): (r: seq<nat>)
    requires n <= |texts|
    ensures forall k :: 0 <= k < |r| ==> r[k] < n
  {
    if n == 0 then []
    else if IsBlank(Js, texts[n - 1]) then NonBlankIndices(texts, n - 1)
    else NonBlankIndices(texts, n - 1) + [n - 1]
  }

  /** Exactly the non-blank entries are kept. */
  lemma {:induction false} NonBlankIndicesExact(texts: seq<string>, n: nat)
    requires n <= |texts|
    ensures forall i: nat :: i in NonBlankIndices(texts, n) <==> (i < n && !IsBlank(Js, texts[i]))
  {
    if n > 0 {
      NonBlankIndicesExact(texts, n - 1);
      var ix := NonBlankIndices(texts, n - 1);
      assert NonBlankIndices(texts, n) == if IsBlank(Js, texts[n - 1]) then ix else ix + [n - 1];
    }
  }

  /** The kept entries are in increasing source order. */
  lemma {:induction false} NonBlankIndicesIncrease(texts: seq<string>, n: nat)
    requires n <= |texts|
    ensures forall a, b :: 0 <= a < b < |NonBlankIndices(texts, n)| ==>
              NonBlankIndices(texts, n)[a] < NonBlankIndices(texts, n)[b]
  {
    if n > 0 {
      NonBlankIndicesIncrease(texts, n - 1);
    }
  }

  /** The list `processAzkarTexts` builds from the first `n` entries: one zikr per non-blank entry. */
  function Seeded(texts: seq<string>, footnotes: seq<string>, n: nat, slot: int, clean: string -> string, count: string -> int): (r: seq<Zikr>)
    requires n <= |texts|
    ensures |r| == |NonBlankIndices(texts, n)|
  {
    var ix := NonBlankIndices(texts, n);
    seq(|ix|, k requires 0 <= k < |ix| => SeedZikr(texts, footnotes, ix[k], slot, clean, count))
  }

  /** Handling entry `n` appends its zikr when it is non-blank and nothing otherwise. */
  lemma SeededStep(texts: seq<string>, footnotes: seq<string>, n: nat, slot: int, clean: string -> string, count: string -> int)
    requires n < |texts|
    ensures Seeded(texts, footnotes, n + 1, slot, clean, count) ==
              if IsBlank(Js, texts[n]) then Seeded(texts, footnotes, n, slot, clean, count)
              else Seeded(texts, footnotes, n, slot, clean, count) + [SeedZikr(texts, footnotes, n, slot, clean, count)]
  {
    var ix := NonBlankIndices(texts, n);
    var ix' := NonBlankIndices(texts, n + 1);
    if !IsBlank(Js, texts[n]) {
      assert ix' == ix + [n];
      var l := Seeded(texts, footnotes, n + 1, slot, clean, count);
      var r := Seeded(texts, footnotes, n, slot, clean, count) + [SeedZikr(texts, footnotes, n, slot, clean, count)];
      forall k | 0 <= k < |l| ensures l[k] == r[k] {
        if k < |ix| {
          assert ix'[k] == ix[k];
        }
      }
    }
  }

  /** The morning (`slot` 1) or evening (`slot` 2) list `init` derives from the section. */
  function SeedList(section: Option<AzkarSection>, slot: int): seq<Zikr> {
    if section.Some? && section.value.text.Some? then
      var texts := section.value.text.value;
      Seeded(texts, section.value.footnote.GetOr([]), |texts|, slot, CleanText, RepeatCount)
    else []
  }

  /**
   * Entry k of the list is built from the k-th non-blank source entry i: its orderIndex is i + 1,
   * its id (i + 1) * 100 + slot, its count at least 1 and its text whitespace-normalised.
   */
  lemma SeededFields(texts: seq<string>, footnotes: seq<string>, n: nat, slot: int, clean: string -> string, count: string -> int)
    requires n <= |texts|
    ensures forall k :: 0 <= k < |Seeded(texts, footnotes, n, slot, clean, count)| ==>
              var i := NonBlankIndices(texts, n)[k];
              var z := Seeded(texts, footnotes, n, slot, clean, count)[k];
              && !IsBlank(Js, texts[i])
              && z.orderIndex == i + 1 && z.id == (i + 1) * 100 + slot
              && z.textAr == clean(texts[i]) && z.footnoteAr == Footnote(footnotes, i)
              && z.repeatMin == count(texts[i])
  {
    NonBlankIndicesExact(texts, n);
    forall k | 0 <= k < |Seeded(texts, footnotes, n, slot, clean, count)|
      ensures !IsBlank(Js, texts[NonBlankIndices(texts, n)[k]])
    {
      assert NonBlankIndices(texts, n)[k] in NonBlankIndices(texts, n);
    }
  }

  /** The morning and evening lists have the same length and agree on everything but the id. */
  lemma MorningEveningAgree(texts: seq<string>, footnotes: seq<string>, n: nat, clean: string -> string, count: string -> int)
    requires n <= |texts|
    ensures |Seeded(texts, footnotes, n, 1, clean, count)| == |Seeded(texts, footnotes, n, 2, clean, count)|
    ensures forall k :: 0 <= k < |Seeded(texts, footnotes, n, 1, clean, count)| ==>
              && Seeded(texts, footnotes, n, 1, clean, count)[k].textAr == Seeded(texts, footnotes, n, 2, clean, count)[k].textAr
              && Seeded(texts, footnotes, n, 1, clean, count)[k].footnoteAr == Seeded(texts, footnotes, n, 2, clean, count)[k].footnoteAr
              && Seeded(texts, footnotes, n, 1, clean, count)[k].repeatMin == Seeded(texts, footnotes, n, 2, clean, count)[k].repeatMin
              && Seeded(texts, footnotes, n, 1, clean, count)[k].orderIndex == Seeded(texts, footnotes, n, 2, clean, count)[k].orderIndex
  {
  }

  /** Every seeded zikr has a count of at least 1 and whitespace-normalised text. */
  lemma SeedListFields(section: Option<AzkarSection>, slot: int)
    ensures forall z :: z in SeedList(section, slot) ==> z.repeatMin >= 1 && IsCollapsed(Js, z.textAr)
  {
    if section.Some? && section.value.text.Some? {
      var texts := section.value.text.value;
      SeededFields(texts, section.value.footnote.GetOr([]), |texts|, slot, CleanText, RepeatCount);
    }
  }

  /** Within one list ids strictly increase. */
  lemma SeededIdsIncrease(texts: seq<string>, footnotes: seq<string>, n: nat, slot: int, clean: string -> string, count: string -> int)
    requires n <= |texts|
    ensures forall a, b :: 0 <= a < b < |Seeded(texts, footnotes, n, slot, clean, count)| ==>
              Seeded(texts, footnotes, n, slot, clean, count)[a].id < Seeded(texts, footnotes, n, slot, clean, count)[b].id
  {
    NonBlankIndicesIncrease(texts, n);
    var ix := NonBlankIndices(texts, n);
    var m := Seeded(texts, footnotes, n, slot, clean, count);
    forall a, b | 0 <= a < b < |m| ensures m[a].id < m[b].id {
      assert m[a].id == (ix[a] + 1) * 100 + slot && m[b].id == (ix[b] + 1) * 100 + slot;
    }
  }

  /** A morning id never equals an evening id: the last two digits are the slot. */
  lemma SeededIdsDisjoint(texts: seq<string>, footnotes: seq<string>, n: nat, clean: string -> string, count: string -> int)
    requires n <= |texts|
    ensures forall x, y :: x in Seeded(texts, footnotes, n, 1, clean, count) && y in Seeded(texts, footnotes, n, 2, clean, count) ==>
              x.id != y.id
  {
    var ix := NonBlankIndices(texts, n);
    var m := Seeded(texts, footnotes, n, 1, clean, count);
    var ev := Seeded(texts, footnotes, n, 2, clean, count);
    forall x, y | x in m && y in ev ensures x.id != y.id {
      var a :| 0 <= a < |m| && m[a] == x;
      var b :| 0 <= b < |ev| && ev[b] == y;
      assert x.id == ix[a] * 100 + 101 && y.id == ix[b] * 100 + 102;
    }
  }

  /** No id occurs twice across the morning and evening lists together. */
  lemma SeedIdsDistinct(section: Option<AzkarSection>)
    ensures forall a, b :: 0 <= a < b < |SeedList(section, 1)| ==> SeedList(section, 1)[a].id != SeedList(section, 1)[b].id
    ensures forall a, b :: 0 <= a < b < |SeedList(section, 2)| ==> SeedList(section, 2)[a].id != SeedList(section, 2)[b].id
    ensures forall x, y :: x in SeedList(section, 1) && y in SeedList(section, 2) ==> x.id != y.id
  {
    if section.Some? && section.value.text.Some? {
      var texts := section.value.text.value;
      var footnotes := section.value.footnote.GetOr([]);
      SeededIdsIncrease(texts, footnotes, |texts|, 1, CleanText, RepeatCount);
      SeededIdsIncrease(texts, footnotes, |texts|, 2, CleanText, RepeatCount);
      SeededIdsDisjoint(texts, footnotes, |texts|, CleanText, RepeatCount);
    }
  }

  /** A text without parentheses and digits takes its count from the word checks, and 1 without those. */
  lemma WordsWhenNoMarker(text: string)
    requires forall k :: 0 <= k < |text| ==> text[k] != '(' && !IsAsciiDigit(text[k]) && !IsEasternDigit(text[k])
    ensures RepeatCount(text) == FirstWordCount(WordChecks, text).GetOr(1)
  {
    NoMarkerNoCapture(text);
  }

  lemma NoMarkerNoCapture(text: string)
    requires forall k :: 0 <= k < |text| ==> text[k] != '(' && !IsAsciiDigit(text[k]) && !IsEasternDigit(text[k])
    ensures PatternCapture(0, text).None? && PatternCapture(1, text).None? && PatternCapture(2, text).None?
  {
    FindParenNeedsParen(Js, NotCloseParen, text, 0);
    FindDigitsNeedsDigit(Js, Eastern, text, 0);
    FindDigitsNeedsDigit(Js, Ascii, text, 0);
  }

  /** A run of digits (either script) parses to its decimal value. */
  lemma ParseNumeral(s: string)
    requires |s| > 0 && IsNumeral(s)
    ensures ParseArabicNumber(s) == Some(NumeralValue(s))
  {
    var english := EasternToAscii(s);
    EasternToAsciiPointwise(s);
    NumeralValueOfAscii(s, english);
    AsciiNumeralParses(english);
    DigitsAreNotWritten(english);
  }

  /** After the leading `\s` run and an optional sign, `s` starts with a digit of either script. */
  predicate StartsWithDigit(s: string) {
    var t := s[SpaceRun(Js, s)..];
    var u := if |t| > 0 && (t[0] == '-' || t[0] == '+') then t[1..] else t;
    |u| > 0 && (IsAsciiDigit(u[0]) || IsEasternDigit(u[0]))
  }

  /** The digit replacement keeps the leading `\s` run: digits are not whitespace. */
  lemma SpaceRunKept(s: string)
    ensures |EasternToAscii(s)| == |s|
    ensures SpaceRun(Js, EasternToAscii(s)) == SpaceRun(Js, s)
  {
    var e := EasternToAscii(s);
    EasternToAsciiPointwise(s);
    var n := SpaceRun(Js, s);
    forall k | 0 <= k < n
      ensures IsSpace(Js, e[k])
    {
      AsciiOfEasternDigit(s[k]);
    }
    if n < |s| {
      AsciiOfEasternDigit(s[n]);
    }
    SpaceRunAt(Js, e, n);
  }

  /**
   * Text that is not a written number and, after leading whitespace and a sign, does not start
   * with a digit parses to `NaN`, so the pattern is skipped. `-3` starts with a digit; `a3` does not.
   */
  lemma ParseWithoutNumberIsNaN(s: string)
    requires !StartsWithDigit(s)
    requires WrittenNumber(Trim(Js, EasternToAscii(s))).None?
    ensures ParseArabicNumber(s).None?
  {
    var e := EasternToAscii(s);
    EasternToAsciiPointwise(s);
    SpaceRunKept(s);
    var n := SpaceRun(Js, s);
    var t := s[n..];
    var te := e[n..];
    if |t| > 0 {
      assert te[0] == AsciiOfEastern(t[0]);
      AsciiOfEasternDigit(t[0]);
      if t[0] == '-' || t[0] == '+' {
        assert te[0] == t[0];
        if |t| > 1 {
          assert te[1..][0] == AsciiOfEastern(t[1..][0]);
          AsciiOfEasternDigit(t[1..][0]);
        }
        assert JsMagnitude(te[1..], true).None?;
      } else {
        assert JsMagnitude(te, true).None?;
      }
    }
  }

  /** One non-blank entry appends its morning and its evening zikr. */
  lemma SeededPush(texts: seq<string>, footnotes: seq<string>, i: nat, cleanText: string, repeatCount: int)
    requires i < |texts| && !IsBlank(Js, texts[i])
    requires cleanText == CleanText(texts[i]) && repeatCount == RepeatCount(texts[i])
    ensures Seeded(texts, footnotes, i + 1, 1, CleanText, RepeatCount) ==
              Seeded(texts, footnotes, i, 1, CleanText, RepeatCount) + [Zikr((i + 1) * 100 + 1, cleanText, Footnote(footnotes, i), repeatCount, i + 1)]
    ensures Seeded(texts, footnotes, i + 1, 2, CleanText, RepeatCount) ==
              Seeded(texts, footnotes, i, 2, CleanText, RepeatCount) + [Zikr((i + 1) * 100 + 2, cleanText, Footnote(footnotes, i), repeatCount, i + 1)]
  {
    SeededStep(texts, footnotes, i, 1, CleanText, RepeatCount);
    SeededStep(texts, footnotes, i, 2, CleanText, RepeatCount);
  }

  /** The mobile app's in-memory data service. */
  class MockDataService {
    /** The combined section of the bundled document (absent when the document lacks it). */
    const section: Option<AzkarSection>
    var categories: seq<Category>
    var morning: seq<Zikr>
    var evening: seq<Zikr>
    var initialized: bool

    /** Before `init` nothing is loaded; afterwards the fields hold the fixed categories and the seeded lists. */
    ghost predicate Valid()
      reads this
    {
      if initialized then
        categories == FixedCategories && morning == SeedList(section, 1) && evening == SeedList(section, 2)
      else
        categories == [] && morning == [] && evening == []
    }

    constructor(section: Option<AzkarSection>)
      ensures this.section == section && !initialized && Valid()
    {
      this.section := section;
      categories := [];
      morning := [];
      evening := [];
      initialized := false;
    }

    /** `init`: loads at most once; a later call changes nothing. */
    method Init()
      requires Valid()
      modifies this
      ensures Valid() && initialized
      ensures old(initialized) ==> categories == old(categories) && morning == old(morning) && evening == old(evening)
    {
      if initialized {
        return;
      }
      categories := FixedCategories;
      if section.Some? && section.value.text.Some? {
        ProcessAzkarTexts(section.value.text.value, section.value.footnote);
      }
      initialized := true;
    }

    /** `processAzkarTexts`: one morning and one evening zikr per non-blank entry, numbered by source index. */
    method ProcessAzkarTexts(texts: seq<string>, footnote: Option<seq<string>>)
      modifies this`morning, this`evening
      ensures morning == Seeded(texts, footnote.GetOr([]), |texts|, 1, CleanText, RepeatCount)
      ensures evening == Seeded(texts, footnote.GetOr([]), |texts|, 2, CleanText, RepeatCount)
    {
      var footnotes := footnote.GetOr([]);
      var morningAzkar: seq<Zikr> := [];
      var eveningAzkar: seq<Zikr> := [];
      for i := 0 to |texts|
        invariant morningAzkar == Seeded(texts, footnotes, i, 1, CleanText, RepeatCount)
        invariant eveningAzkar == Seeded(texts, footnotes, i, 2, CleanText, RepeatCount)
      {
        var text := texts[i];
        if !IsBlank(Js, text) {
          var fn := Footnote(footnotes, i);
          var repeatCount := ExtractRepeatCount(text);
          var cleanText := CleanText(text);
          SeededPush(texts, footnotes, i, cleanText, repeatCount);
          morningAzkar := morningAzkar + [Zikr((i + 1) * 100 + 1, cleanText, fn, repeatCount, i + 1)];
          eveningAzkar := eveningAzkar + [Zikr((i + 1) * 100 + 2, cleanText, fn, repeatCount, i + 1)];
        } else {
          SeededStep(texts, footnotes, i, 1, CleanText, RepeatCount);
          SeededStep(texts, footnotes, i, 2, CleanText, RepeatCount);
        }
      }
      morning := morningAzkar;
      evening := eveningAzkar;
    }

    /** `getCategories`: always the two fixed categories. */
    method GetCategories() returns (r: seq<Category>)
      requires Valid()
      modifies this
      ensures Valid() && initialized
      ensures r == FixedCategories
    {
      Init();
      r := categories;
    }

    /** `getAzkarByCategory`: the seeded list of that slug; `[]` for a slug with no entry. */
    method GetAzkarByCategory(slug: string) returns (r: seq<Zikr>)
      requires Valid()
      modifies this
      ensures Valid() && initialized
      ensures r == (if slug == MorningSlug then SeedList(section, 1)
                    else if slug == EveningSlug then SeedList(section, 2)
                    else [])
    {
      Init();
      if slug == MorningSlug {
        r := morning;
      } else if slug == EveningSlug {
        r := evening;
      } else {
        r := [];
      }
    }
  }
}
