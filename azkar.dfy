/** The entities shared by every client (`packages/shared/src/types.ts`) and the bundled document. */
module Azkar {
  import opened Wrappers

  /** A category of remembrance texts; `slug` is "morning" or "evening". */
  datatype Category = Category(id: int, nameAr: string, slug: string, orderIndex: int)

  /** One remembrance text with its target repetition count. */
  datatype Zikr = Zikr(id: int, textAr: string, footnoteAr: Option<string>, repeatMin: int, orderIndex: int)

  /** One zikr's saved counter, as both client caches store it; `lastUpdated` is the ISO time of the save. */
  datatype ZikrProgress = ZikrProgress(zikrId: int, currentCount: int, targetCount: int, lastUpdated: string)

  const MorningSlug: string := "morning"
  const EveningSlug: string := "evening"
  const MorningNameAr: string := "أذكار الصباح"
  const EveningNameAr: string := "أذكار المساء"

  /** The key of the combined morning/evening section in the bundled document. */
  const SectionKey: string := "أذكار الصباح والمساء"

  /** The combined section: its `text` array and its optional parallel `footnote` array. */
  datatype AzkarSection = AzkarSection(text: Option<seq<string>>, footnote: Option<seq<string>>)

  /** The two fixed categories the mock data service and the mock server both publish. */
  const FixedCategories: seq<Category> :=
    [Category(1, MorningNameAr, MorningSlug, 1), Category(2, EveningNameAr, EveningSlug, 2)]

  predicate IsCategorySlug(s: string) {
    s == MorningSlug || s == EveningSlug
  }
}
