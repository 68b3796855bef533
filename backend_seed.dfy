/**
 * The Spring backend's start-up seeder (`DataSeeder.java`): on an empty database it saves the
 * two categories and one morning and one evening zikr for every non-empty entry of the section.
 * Java semantics throughout: `String.trim` drops characters up to U+0020, `\s` is ASCII
 * whitespace and `Integer.parseInt` is a 32-bit parse.
 */
module BackendSeed {
  import opened Wrappers
  import opened Azkar
  import opened Text
  import opened Numbers
  import opened Patterns

  /** `parseArabicNumber`: Eastern digits become ASCII, then the written-number switch, then `Integer.parseInt`, else 1. */
  function ParseArabicNumber(s: string): (r: int)
    ensures WrittenNumber(Trim(Java, EasternToAscii(s))).Some? ==> r == WrittenNumber(Trim(Java, EasternToAscii(s))).value
    ensures r != 1 ==> WrittenNumber(Trim(Java, EasternToAscii(s))).Some? || JavaParseInt(EasternToAscii(s)).Some?
  {
    var english := EasternToAscii(s);
    match WrittenNumber(Trim(Java, english))
    case Some(n) => n
    case None => JavaParseInt(english).GetOr(1)
  }

  /** The word checks after the patterns, in the order the seeder tries them. */
  const WordChecks: seq<WordCheck> := [
    WordCheck("ثلاث مرات", "ثلاث", 3),
    WordCheck("سبع مرات", "سبع", 7),
    WordCheck("عشر مرات", "عشر", 10),
    WordCheck("مائة مرة", "مائة", 100),
    WordCheck("أربع مرات", "أربع", 4)
  ]

  /** The word checks, else 1. */
  function WordCount(text: string): (r: int)
    ensures r in {1, 3, 4, 7, 10, 100}
  {
    assert forall j :: 0 <= j < |WordChecks| ==> WordChecks[j].value in {3, 4, 7, 10, 100};
    FirstWordCount(WordChecks, text).GetOr(1)
  }

  /**
   * `extractRepeatCount`: a parenthesised marker decides by itself (even when its content is not
   * a number); then an Eastern-digit marker; then an ASCII-digit marker when it fits in an `int`;
   * then the word checks; then 1. No positivity check is made.
   */
  function ExtractRepeatCount(text: string): (r: int)
    ensures ParenGroup(Java, AnyButLineTerminator, text).Some? ==>
              r == ParseArabicNumber(Trim(Java, ParenGroup(Java, AnyButLineTerminator, text).value))
    ensures r < 1 ==> ParenGroup(Java, AnyButLineTerminator, text).Some? || DigitsGroup(Java, Eastern, text).Some?
                      || DigitsGroup(Java, Ascii, text).Some?
  {
    match ParenGroup(Java, AnyButLineTerminator, text)
    case Some(g) => ParseArabicNumber(Trim(Java, g))
    case None =>
      match DigitsGroup(Java, Eastern, text)
      case Some(g) => ParseArabicNumber(g)
      case None =>
        match DigitsGroup(Java, Ascii, text)
        case Some(g) => (match JavaParseInt(g) case Some(n) => n case None => WordCount(text))
        case None => WordCount(text)
  }

  /** `cleanText`: removes the three markers (trimming after each) and collapses whitespace. */
  function CleanText(text: string): (r: string)
    ensures IsCollapsed(Java, r)
  {
    var t1 := Trim(Java, Remove(Java, ParenMarker, text));
    var t2 := Trim(Java, Remove(Java, DigitMarker, t1));
    var t3 := Trim(Java, Remove(Java, WordMarker, t2));
    Normalize(Java, t3)
  }

  /** `getFootnoteForIndex`: the entry at `index` when the footnote array has one, else null. */
  function FootnoteForIndex(footnotes: Option<seq<string>>, index: nat): (r: Option<string>)
    ensures r.Some? <==> footnotes.Some? && index < |footnotes.value|
    ensures r.Some? ==> r.value == footnotes.value[index]
  {
    if footnotes.Some? && index < |footnotes.value| then Some(footnotes.value[index]) else None
  }

  /** A saved category row (the database assigns its id). */
  datatype CategoryRow = CategoryRow(nameAr: string, slug: string, orderIndex: int)

  /** A saved zikr row; `category` is the slug of its category. */
  datatype ZikrRow = ZikrRow(category: string, textAr: string, footnoteAr: Option<string>, repeatMin: int, orderIndex: int)

  const MorningRow: CategoryRow := CategoryRow(MorningNameAr, MorningSlug, 1)
  const EveningRow: CategoryRow := CategoryRow(EveningNameAr, EveningSlug, 2)

  /** The trimmed texts of the entries that are not empty after trimming, in order. */
  function Survivors(texts: seq<string>): (r: seq<string>)
    ensures |r| <= |texts|
    ensures forall k :: 0 <= k < |r| ==> r[k] != []
  {
    if texts == [] then []
    else
      var last := texts[|texts| - 1];
      BlankIffTrimEmpty(Java, last);
      Survivors(texts[..|texts| - 1]) + (if IsBlank(Java, last) then [] else [Trim(Java, last)])
  }

  /** Every non-blank entry's trim survives. */
  lemma {:induction false} SurvivorsComplete(texts: seq<string>)
    ensures forall i :: 0 <= i < |texts| && !IsBlank(Java, texts[i]) ==> Trim(Java, texts[i]) in Survivors(texts)
  {
    if texts != [] {
      var n := |texts| - 1;
      SurvivorsComplete(texts[..n]);
      assert forall i :: 0 <= i < n ==> texts[..n][i] == texts[i];
    }
  }

  /** Every survivor is the trim of a non-blank entry. */
  lemma {:induction false} SurvivorsSound(texts: seq<string>)
    ensures forall t :: t in Survivors(texts) ==>
              exists i :: 0 <= i < |texts| && !IsBlank(Java, texts[i]) && t == Trim(Java, texts[i])
  {
    if texts != [] {
      var n := |texts| - 1;
      SurvivorsSound(texts[..n]);
      forall t | t in Survivors(texts)
        ensures exists i :: 0 <= i < |texts| && !IsBlank(Java, texts[i]) && t == Trim(Java, texts[i])
      {
        if t in Survivors(texts[..n]) {
          var i :| 0 <= i < n && !IsBlank(Java, texts[..n][i]) && t == Trim(Java, texts[..n][i]);
          assert texts[..n][i] == texts[i];
        } else {
          assert !IsBlank(Java, texts[n]) && t == Trim(Java, texts[n]);
        }
      }
    }
  }

  /**
   * The rows `processAzkarTexts` builds for one category from the survivors. The cleaner and the
   * extractor are parameters so that lemmas about the list do not unfold the text scanners.
   */
  function Rows(survivors: seq<string>, footnotes: Option<seq<string>>, category: string,
                clean: string -> string, count: string -> int): (r: seq<ZikrRow>)
    ensures |r| == |survivors|
  {
    seq(|survivors|, k requires 0 <= k < |survivors| =>
      ZikrRow(category, clean(survivors[k]), FootnoteForIndex(footnotes, k), count(survivors[k]), k + 1))
  }

  /** Appending a survivor appends its row, numbered one past the previous ones. */
  lemma RowsStep(survivors: seq<string>, t: string, footnotes: Option<seq<string>>, category: string,
                 clean: string -> string, count: string -> int)
    ensures Rows(survivors + [t], footnotes, category, clean, count) ==
              Rows(survivors, footnotes, category, clean, count)
              + [ZikrRow(category, clean(t), FootnoteForIndex(footnotes, |survivors|), count(t), |survivors| + 1)]
  {
    var l := Rows(survivors + [t], footnotes, category, clean, count);
    var r := Rows(survivors, footnotes, category, clean, count)
             + [ZikrRow(category, clean(t), FootnoteForIndex(footnotes, |survivors|), count(t), |survivors| + 1)];
    forall k | 0 <= k < |l| ensures l[k] == r[k] {
      if k < |survivors| {
        assert (survivors + [t])[k] == survivors[k];
      }
    }
  }

  /**
   * orderIndex runs 1, 2, ..., n over the rows of one category, and the footnote of row k is the
   * footnote entry k (counted among the kept entries), null past the array's end.
   */
  lemma RowsNumbering(survivors: seq<string>, footnotes: Option<seq<string>>, category: string,
                      clean: string -> string, count: string -> int)
    ensures forall k :: 0 <= k < |survivors| ==>
              && Rows(survivors, footnotes, category, clean, count)[k].orderIndex == k + 1
              && Rows(survivors, footnotes, category, clean, count)[k].footnoteAr == FootnoteForIndex(footnotes, k)
              && Rows(survivors, footnotes, category, clean, count)[k].category == category
  {
  }

  /** The morning and evening rows of each entry are identical except for the category. */
  lemma MorningEveningRows(survivors: seq<string>, footnotes: Option<seq<string>>,
                           clean: string -> string, count: string -> int)
    ensures |Rows(survivors, footnotes, MorningSlug, clean, count)| == |Rows(survivors, footnotes, EveningSlug, clean, count)|
    ensures forall k :: 0 <= k < |survivors| ==>
              Rows(survivors, footnotes, MorningSlug, clean, count)[k].(category := EveningSlug)
              == Rows(survivors, footnotes, EveningSlug, clean, count)[k]
  {
  }

  /** Handling entry `i` appends the next row when the trimmed entry is non-empty, and nothing otherwise. */
  lemma SurvivorsStep(texts: seq<string>, i: nat)
    requires i < |texts|
    ensures Survivors(texts[..i + 1]) ==
              Survivors(texts[..i]) + (if IsBlank(Java, texts[i]) then [] else [Trim(Java, texts[i])])
  {
    assert texts[..i + 1][..i] == texts[..i];
  }

  /** The rows a run on an empty database appends: all morning rows, then all evening rows. */
  function SeededRows(section: Option<AzkarSection>): seq<ZikrRow> {
    if section.Some? && section.value.text.Some? then
      var sv := Survivors(section.value.text.value);
      Rows(sv, section.value.footnote, MorningSlug, CleanText, ExtractRepeatCount)
      + Rows(sv, section.value.footnote, EveningSlug, CleanText, ExtractRepeatCount)
    else []
  }

  /** Text without a marker of any kind gets the word count; with no word either, 1. */
  lemma WordsWhenNoMarker(text: string)
    requires forall k :: 0 <= k < |text| ==> text[k] != '(' && !IsAsciiDigit(text[k]) && !IsEasternDigit(text[k])
    ensures ExtractRepeatCount(text) == WordCount(text)
  {
    FindParenNeedsParen(Java, AnyButLineTerminator, text, 0);
    FindDigitsNeedsDigit(Java, Eastern, text, 0);
    FindDigitsNeedsDigit(Java, Ascii, text, 0);
  }

  /** An ASCII-digit marker whose number does not fit in an `int` falls through to the word checks. */
  lemma OverflowFallsThrough(text: string)
    requires ParenGroup(Java, AnyButLineTerminator, text).None? && DigitsGroup(Java, Eastern, text).None?
    requires DigitsGroup(Java, Ascii, text).Some? && DigitsValue(DigitsGroup(Java, Ascii, text).value, 10) > Int32Max
    ensures ExtractRepeatCount(text) == WordCount(text)
  {
  }

  /** A numeral (ASCII or Eastern digits) that fits in an `int` parses to its value. */
  lemma ParseNumeral(s: string)
    requires |s| > 0 && IsNumeral(s) && NumeralValue(s) <= Int32Max
    ensures ParseArabicNumber(s) == NumeralValue(s)
  {
    var english := EasternToAscii(s);
    EasternToAsciiPointwise(s);
    NumeralValueOfAscii(s, english);
    AsciiJavaParses(english);
    AsciiNumeralTrim(Java, english);
    DigitsAreNotWritten(english);
  }

  /** An optional leading sign followed by at least one digit of either script. */
  predicate IsSignedNumeral(s: string) {
    var body := if |s| > 0 && (s[0] == '-' || s[0] == '+') then s[1..] else s;
    |body| > 0 && forall k :: 0 <= k < |body| ==> IsAsciiDigit(body[k]) || IsEasternDigit(body[k])
  }

  /**
   * Content that is not a written number and not a signed run of digits counts 1: `Integer.parseInt`
   * throws on it, as on `3a`, ` 3` or the empty string.
   */
  lemma ParseWithoutNumberIsOne(s: string)
    requires !IsSignedNumeral(s)
    requires WrittenNumber(Trim(Java, EasternToAscii(s))).None?
    ensures ParseArabicNumber(s) == 1
  {
    ParseIntRejects(s);
  }

  /** `Integer.parseInt` throws on the converted text unless it was a signed run of digits. */
  lemma ParseIntRejects(s: string)
    requires !IsSignedNumeral(s)
    ensures JavaParseInt(EasternToAscii(s)).None?
  {
    var e := EasternToAscii(s);
    EasternToAsciiPointwise(s);
    if |s| > 0 {
      AsciiOfEasternDigit(s[0]);
      var signed := s[0] == '-' || s[0] == '+';
      assert signed <==> e[0] == '-' || e[0] == '+';
      var body := if signed then s[1..] else s;
      var bodyE := if signed then e[1..] else e;
      assert |bodyE| == |body|;
      if |body| > 0 {
        var k :| 0 <= k < |body| && !(IsAsciiDigit(body[k]) || IsEasternDigit(body[k]));
        assert bodyE[k] == AsciiOfEastern(body[k]);
        AsciiOfEasternDigit(body[k]);
        assert !IsAsciiDigit(bodyE[k]);
      }
      assert e != [] && bodyE == (if e[0] == '-' || e[0] == '+' then e[1..] else e);
    }
  }

  /**
   * A parenthesised marker takes precedence over every later check: when its content is not a
   * number, the count is 1 even if a digit marker or a written-number word follows.
   */
  lemma ParenWithoutNumberCountsOne(text: string)
    requires ParenGroup(Java, AnyButLineTerminator, text).Some?
    requires !IsSignedNumeral(Trim(Java, ParenGroup(Java, AnyButLineTerminator, text).value))
    requires WrittenNumber(Trim(Java, EasternToAscii(Trim(Java, ParenGroup(Java, AnyButLineTerminator, text).value)))).None?
    ensures ExtractRepeatCount(text) == 1
  {
    ParseWithoutNumberIsOne(Trim(Java, ParenGroup(Java, AnyButLineTerminator, text).value));
  }

  /** "0 مرات" yields 0: the seeder makes no positivity check. */
  lemma ZeroTimesIsZero()
    ensures ExtractRepeatCount("0 مرات") == 0
  {
    ZeroTimesGroups();
    assert JavaParseInt("0") == Some(0);
  }

  /** In "0 مرات" only the ASCII-digit marker matches, and its group is "0". */
  lemma ZeroTimesGroups()
    ensures ParenGroup(Java, AnyButLineTerminator, "0 مرات").None? && DigitsGroup(Java, Eastern, "0 مرات").None?
    ensures DigitsGroup(Java, Ascii, "0 مرات") == Some("0")
  {
    var s := "0 مرات";
    FindParenNeedsParen(Java, AnyButLineTerminator, s, 0);
    FindDigitsNeedsDigit(Java, Eastern, s, 0);
    assert RunEnd(Ascii, s, 1) == 1;
    assert RunEnd(Ascii, s, 0) == 1;
    assert SpaceRun(Java, s[1..]) == 1;
    assert TimesWordAt(Java, s, 1) == Some(6);
    assert DigitsAt(Java, Ascii, s, 0) == Some((1, 6));
    assert FindDigits(Java, Ascii, s, 0) == Some((0, 1, 6));
    assert s[0..1] == "0";
  }

  /** The seeder's view of the two repositories: the rows saved so far, in save order. */
  class DataSeeder {
    var categories: seq<CategoryRow>
    var azkar: seq<ZikrRow>

    constructor(categories: seq<CategoryRow>, azkar: seq<ZikrRow>)
      ensures this.categories == categories && this.azkar == azkar
    {
      this.categories := categories;
      this.azkar := azkar;
    }

    /** `run`: seeds only an empty category table; otherwise saves nothing. */
    method Run(section: Option<AzkarSection>)
      modifies this
      ensures |old(categories)| > 0 ==> categories == old(categories) && azkar == old(azkar)
      ensures |old(categories)| == 0 ==>
                categories == [MorningRow, EveningRow] && azkar == old(azkar) + SeededRows(section)
    {
      if |categories| > 0 {
        return;
      }
      SeedData(section);
    }

    /** `seedData`: the two categories, then the rows of the section when it has a text array. */
    method SeedData(section: Option<AzkarSection>)
      modifies this
      ensures categories == old(categories) + [MorningRow, EveningRow]
      ensures azkar == old(azkar) + SeededRows(section)
    {
      var morning := CreateCategory(MorningNameAr, MorningSlug, 1);
      var evening := CreateCategory(EveningNameAr, EveningSlug, 2);
      assert categories == old(categories) + [MorningRow, EveningRow];
      if section.Some? && section.value.text.Some? {
        ghost var before := azkar;
        var texts := section.value.text.value;
        ProcessAzkarTexts(texts, section.value.footnote, morning, evening);
        ghost var m := Rows(Survivors(texts), section.value.footnote, MorningSlug, CleanText, ExtractRepeatCount);
        ghost var e := Rows(Survivors(texts), section.value.footnote, EveningSlug, CleanText, ExtractRepeatCount);
        assert azkar == before + m + e;
        assert SeededRows(section) == m + e;
        assert before + m + e == before + (m + e);
      }
    }

    /** `createCategory`: saves and returns the new row. */
    method CreateCategory(nameAr: string, slug: string, orderIndex: int) returns (c: CategoryRow)
      modifies this`categories
      ensures c == CategoryRow(nameAr, slug, orderIndex)
      ensures categories == old(categories) + [c]
    {
      c := CategoryRow(nameAr, slug, orderIndex);
      categories := categories + [c];
    }

    /** `processAzkarTexts`: builds both lists with a running orderIndex, then saves morning, then evening. */
    method ProcessAzkarTexts(texts: seq<string>, footnotes: Option<seq<string>>, morning: CategoryRow, evening: CategoryRow)
      modifies this`azkar
      ensures azkar == old(azkar)
                       + Rows(Survivors(texts), footnotes, morning.slug, CleanText, ExtractRepeatCount)
                       + Rows(Survivors(texts), footnotes, evening.slug, CleanText, ExtractRepeatCount)
    {
      var morningAzkar: seq<ZikrRow> := [];
      var eveningAzkar: seq<ZikrRow> := [];
      var orderIndex := 1;
      for i := 0 to |texts|
        invariant azkar == old(azkar)
        invariant orderIndex == |Survivors(texts[..i])| + 1
        invariant morningAzkar == Rows(Survivors(texts[..i]), footnotes, morning.slug, CleanText, ExtractRepeatCount)
        invariant eveningAzkar == Rows(Survivors(texts[..i]), footnotes, evening.slug, CleanText, ExtractRepeatCount)
      {
        SurvivorsStep(texts, i);
        var sv := Survivors(texts[..i]);
        var text := Trim(Java, texts[i]);
        BlankIffTrimEmpty(Java, texts[i]);
        if text != [] {
          var footnote := FootnoteForIndex(footnotes, orderIndex - 1);
          var repeatCount := ExtractRepeatCount(text);
          var cleanText := CleanText(text);
          RowsStep(sv, text, footnotes, morning.slug, CleanText, ExtractRepeatCount);
          RowsStep(sv, text, footnotes, evening.slug, CleanText, ExtractRepeatCount);
          morningAzkar := morningAzkar + [CreateZikr(morning, cleanText, footnote, repeatCount, orderIndex)];
          eveningAzkar := eveningAzkar + [CreateZikr(evening, cleanText, footnote, repeatCount, orderIndex)];
          orderIndex := orderIndex + 1;
        }
      }
      assert texts[..|texts|] == texts;
      azkar := azkar + morningAzkar;
      azkar := azkar + eveningAzkar;
    }
  }

  /** `createZikr`: a row holding exactly the given fields. */
  function CreateZikr(category: CategoryRow, text: string, footnote: Option<string>, repeatCount: int, orderIndex: int): (z: ZikrRow)
    ensures z.category == category.slug && z.textAr == text && z.footnoteAr == footnote
    ensures z.repeatMin == repeatCount && z.orderIndex == orderIndex
  {
    ZikrRow(category.slug, text, footnote, repeatCount, orderIndex)
  }
}
