/**
 * The web surah list (`apps/web/src/components/QuranList.tsx`): the fetched surahs, a search box,
 * and the surahs that match it, in their original order.
 */
module WebQuran {
  import opened Wrappers
  import opened Text

  datatype Surah = Surah(number: int, name: string, englishName: string, numberOfAyahs: int, revelationType: string)

  /** `surah.name.includes(text) || surah.englishName.toLowerCase().includes(text.toLowerCase())`. */
  predicate Matches(s: Surah, text: string) {
    Contains(s.name, text) || Contains(ToLower(s.englishName), ToLower(text))
  }

  /** `r` is `s` with some elements dropped and the rest in their order. */
  predicate IsSublist(r: seq<Surah>, s: seq<Surah>)
    decreases |s|
  {
    if r == [] then true
    else if s == [] then false
    else (r[0] == s[0] && IsSublist(r[1..], s[1..])) || IsSublist(r, s[1..])
  }

  /** `filteredSurahs`: the matching surahs, in list order. */
  function Filtered(surahs: seq<Surah>, text: string): (r: seq<Surah>)
    ensures |r| <= |surahs|
    ensures forall x :: x in r <==> x in surahs && Matches(x, text)
    decreases |surahs|
  {
    if surahs == [] then []
    else if Matches(surahs[0], text) then [surahs[0]] + Filtered(surahs[1..], text)
    else Filtered(surahs[1..], text)
  }

  /** The filter keeps list order: its result is a sublist of the list. */
  lemma {:induction false} FilteredIsSublist(surahs: seq<Surah>, text: string)
    ensures IsSublist(Filtered(surahs, text), surahs)
    decreases |surahs|
  {
    if surahs != [] {
      FilteredIsSublist(surahs[1..], text);
      var rest := Filtered(surahs[1..], text);
      if Matches(surahs[0], text) {
        assert ([surahs[0]] + rest)[1..] == rest;
      } else if rest != [] {
        assert IsSublist(rest, surahs[1..]);
      }
    }
  }

  /** Every surah matches the empty search text, so the empty search shows the whole list. */
  lemma {:induction false} EmptySearchKeepsAll(surahs: seq<Surah>)
    ensures Filtered(surahs, "") == surahs
    decreases |surahs|
  {
    if surahs != [] {
      EmptyIsContained(surahs[0].name);
      EmptySearchKeepsAll(surahs[1..]);
    }
  }

  class QuranList {
    var surahs: seq<Surah>
    var loading: bool
    var searchText: string

    constructor()
      ensures surahs == [] && loading && searchText == ""
    {
      surahs := [];
      loading := true;
      searchText := "";
    }

    /** `loadSurahs`: the fetched list, or nothing on a failed fetch; either way loading ends. */
    method LoadSurahs(fetched: Option<seq<Surah>>)
      modifies this`surahs, this`loading
      ensures !loading
      ensures surahs == if fetched.Some? then fetched.value else old(surahs)
    {
      if fetched.Some? {
        surahs := fetched.value;
      }
      loading := false;
    }

    /** The search box's `onChange`. */
    method SetSearchText(text: string)
      modifies this`searchText
      ensures searchText == text
    {
      searchText := text;
    }

    /** The cards shown under the search box. */
    function Shown(): (r: seq<Surah>)
      reads this
      ensures IsSublist(r, surahs)
      ensures forall x :: x in r <==> x in surahs && Matches(x, searchText)
      ensures searchText == "" ==> r == surahs
    {
      FilteredIsSublist(surahs, searchText);
      EmptySearchKeepsAll(surahs);
      Filtered(surahs, searchText)
    }

    /** The header shows how many surahs there are, whatever the search hides. */
    function HeaderCount(): (n: int)
      reads this
      ensures n == |surahs| && n >= |Shown()|
    {
      |surahs|
    }
  }
}
