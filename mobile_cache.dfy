/**
 * The mobile app's offline cache (`apps/mobile/src/utils/storage.ts`): whole lists and records
 * kept as JSON under five fixed AsyncStorage keys. JSON (de)serialisation is the identity here.
 */
module MobileCache {
  import opened Wrappers
  import opened Azkar

  const CategoriesKey: string := "azkar_categories"
  const MorningKey: string := "azkar_morning"
  const EveningKey: string := "azkar_evening"
  const ProgressKey: string := "azkar_progress"
  const SettingsKey: string := "azkar_settings"

  datatype AppSettings = AppSettings(fontSize: int, readingMode: bool, notificationsEnabled: bool)

  /** What `getSettings` returns when nothing readable is stored. */
  const DefaultSettings: AppSettings := AppSettings(16, false, true)

  /** The parsed value under a key; `Unreadable` is an item whose read or parse throws. */
  datatype Blob =
    | CategoryList(categories: seq<Category>)
    | ZikrList(azkar: seq<Zikr>)
    | ProgressList(records: seq<ZikrProgress>)
    | SettingsRecord(settings: AppSettings)
    | Unreadable

  /** The key of a slug's list: the morning key for "morning" and the evening key for anything else. */
  function AzkarKey(slug: string): (k: string)
    ensures k == MorningKey <==> slug == MorningSlug
    ensures k != MorningKey ==> k == EveningKey
  {
    if slug == MorningSlug then MorningKey else EveningKey
  }

  /** `filter(p => p.zikrId !== zikrId)`. */
  function WithoutId(ps: seq<ZikrProgress>, id: int): (r: seq<ZikrProgress>)
    ensures |r| <= |ps|
    ensures forall p :: p in r <==> p in ps && p.zikrId != id
  {
    if ps == [] then []
    else if ps[0].zikrId == id then WithoutId(ps[1..], id)
    else [ps[0]] + WithoutId(ps[1..], id)
  }

  /** `find(p => p.zikrId === zikrId) || null`. */
  function FindId(ps: seq<ZikrProgress>, id: int): (r: Option<ZikrProgress>)
    ensures r.Some? ==> r.value in ps && r.value.zikrId == id
    ensures r.None? <==> forall p :: p in ps ==> p.zikrId != id
  {
    if ps == [] then None
    else if ps[0].zikrId == id then Some(ps[0])
    else FindId(ps[1..], id)
  }

  /** At most one record per zikr. */
  predicate UniqueIds(ps: seq<ZikrProgress>) {
    forall a, b :: 0 <= a < b < |ps| ==> ps[a].zikrId != ps[b].zikrId
  }

  /** The list `saveProgress` writes: the others in order, then the new record. */
  function Upsert(ps: seq<ZikrProgress>, rec: ZikrProgress): seq<ZikrProgress> {
    WithoutId(ps, rec.zikrId) + [rec]
  }

  /** After the upsert the id finds the new record, and every other id finds what it found before. */
  lemma UpsertFind(ps: seq<ZikrProgress>, rec: ZikrProgress, id: int)
    ensures FindId(Upsert(ps, rec), id) == if id == rec.zikrId then Some(rec) else FindId(ps, id)
  {
    UpsertFindFrom(ps, WithoutId(ps, rec.zikrId), rec, id);
  }

  lemma {:induction false} UpsertFindFrom(ps: seq<ZikrProgress>, kept: seq<ZikrProgress>, rec: ZikrProgress, id: int)
    requires kept == WithoutId(ps, rec.zikrId)
    ensures FindId(kept + [rec], id) == if id == rec.zikrId then Some(rec) else FindId(ps, id)
    decreases |ps|
  {
    if ps == [] {
      assert kept + [rec] == [rec];
    } else if ps[0].zikrId == rec.zikrId {
      UpsertFindFrom(ps[1..], kept, rec, id);
    } else {
      UpsertFindFrom(ps[1..], kept[1..], rec, id);
      assert kept + [rec] == [ps[0]] + (kept[1..] + [rec]);
    }
  }

  /** The upsert keeps ids unique; it keeps the length when the id was present and adds one otherwise. */
  lemma {:induction false} UpsertUnique(ps: seq<ZikrProgress>, rec: ZikrProgress)
    requires UniqueIds(ps)
    ensures UniqueIds(Upsert(ps, rec))
    ensures |Upsert(ps, rec)| == if FindId(ps, rec.zikrId).Some? then |ps| else |ps| + 1
  {
    WithoutIdUnique(ps, rec.zikrId);
  }

  lemma {:induction false} WithoutIdUnique(ps: seq<ZikrProgress>, id: int)
    requires UniqueIds(ps)
    ensures UniqueIds(WithoutId(ps, id))
    ensures |WithoutId(ps, id)| == if FindId(ps, id).Some? then |ps| - 1 else |ps|
  {
    if ps != [] {
      UniqueTail(ps);
      WithoutIdUnique(ps[1..], id);
      if ps[0].zikrId == id {
        WithoutIdAll(ps[1..], id);
      } else {
        UniqueCons(ps[0], WithoutId(ps[1..], id));
      }
    }
  }

  lemma UniqueTail(ps: seq<ZikrProgress>)
    requires UniqueIds(ps) && ps != []
    ensures UniqueIds(ps[1..])
    ensures forall p :: p in ps[1..] ==> p.zikrId != ps[0].zikrId
  {
    forall a, b | 0 <= a < b < |ps[1..]| ensures ps[1..][a].zikrId != ps[1..][b].zikrId {
      assert ps[1..][a] == ps[a + 1] && ps[1..][b] == ps[b + 1];
    }
    forall p | p in ps[1..] ensures p.zikrId != ps[0].zikrId {
      var b :| 0 <= b < |ps[1..]| && ps[1..][b] == p;
      assert ps[b + 1] == p;
    }
  }

  lemma UniqueCons(x: ZikrProgress, r: seq<ZikrProgress>)
    requires UniqueIds(r) && forall p :: p in r ==> p.zikrId != x.zikrId
    ensures UniqueIds([x] + r)
  {
    var l := [x] + r;
    forall a, b | 0 <= a < b < |l| ensures l[a].zikrId != l[b].zikrId {
      assert l[b] == r[b - 1];
      if a > 0 {
        assert l[a] == r[a - 1];
      }
    }
  }

  lemma {:induction false} WithoutIdAll(ps: seq<ZikrProgress>, id: int)
    requires forall p :: p in ps ==> p.zikrId != id
    ensures WithoutId(ps, id) == ps
  {
    if ps != [] {
      assert ps[0] in ps;
      assert forall p :: p in ps[1..] ==> p in ps;
      WithoutIdAll(ps[1..], id);
    }
  }

  /** The key-value store as the cache sees it; `writable` is false when the platform rejects writes. */
  class MobileStorage {
    var items: map<string, Blob>
    var writable: bool

    constructor(items: map<string, Blob>, writable: bool)
      ensures this.items == items && this.writable == writable
    {
      this.items := items;
      this.writable := writable;
    }

    /** `getCategories`: the stored list, or `[]` when nothing readable is stored. */
    function GetCategories(): (r: seq<Category>)
      reads this
      ensures r != [] ==> CategoriesKey in items && items[CategoriesKey] == CategoryList(r)
      ensures !(CategoriesKey in items && items[CategoriesKey].CategoryList?) ==> r == []
    {
      if CategoriesKey in items && items[CategoriesKey].CategoryList? then items[CategoriesKey].categories else []
    }

    /** `getAzkarByCategory`: the list under the slug's key, or `[]`. */
    function GetAzkarByCategory(slug: string): (r: seq<Zikr>)
      reads this
      ensures r != [] ==> AzkarKey(slug) in items && items[AzkarKey(slug)] == ZikrList(r)
      ensures !(AzkarKey(slug) in items && items[AzkarKey(slug)].ZikrList?) ==> r == []
    {
      var key := AzkarKey(slug);
      if key in items && items[key].ZikrList? then items[key].azkar else []
    }

    /** `getAllProgress`: the stored records, or `[]`. */
    function GetAllProgress(): (r: seq<ZikrProgress>)
      reads this
      ensures r != [] ==> ProgressKey in items && items[ProgressKey] == ProgressList(r)
      ensures !(ProgressKey in items && items[ProgressKey].ProgressList?) ==> r == []
    {
      if ProgressKey in items && items[ProgressKey].ProgressList? then items[ProgressKey].records else []
    }

    /** `getProgress`: the first record for the id, or null. */
    function GetProgress(zikrId: int): (r: Option<ZikrProgress>)
      reads this
      ensures r.None? <==> forall p :: p in GetAllProgress() ==> p.zikrId != zikrId
    {
      FindId(GetAllProgress(), zikrId)
    }

    /** `getSettings`: the stored record, or the defaults when nothing readable is stored. */
    function GetSettings(): (r: AppSettings)
      reads this
      ensures r != DefaultSettings ==> SettingsKey in items && items[SettingsKey] == SettingsRecord(r)
      ensures !(SettingsKey in items && items[SettingsKey].SettingsRecord?) ==> r == DefaultSettings
    {
      if SettingsKey in items && items[SettingsKey].SettingsRecord? then items[SettingsKey].settings else DefaultSettings
    }

    /** `isDataAvailable`: true iff a non-empty category list is stored. */
    function IsDataAvailable(): (b: bool)
      reads this
      ensures b <==> CategoriesKey in items && items[CategoriesKey].CategoryList? && items[CategoriesKey].categories != []
    {
      |GetCategories()| > 0
    }

    /** `setItem`: overwrites one key; a rejected write changes nothing and is reported. */
    method SetItem(key: string, value: Blob) returns (ok: bool)
      modifies this`items
      ensures ok == writable
      ensures items == if ok then old(items)[key := value] else old(items)
    {
      ok := writable;
      if ok {
        items := items[key := value];
      }
    }

    method SaveCategories(categories: seq<Category>) returns (ok: bool)
      modifies this`items
      ensures ok == writable
      ensures items == if ok then old(items)[CategoriesKey := CategoryList(categories)] else old(items)
      ensures ok ==> GetCategories() == categories
    {
      ok := SetItem(CategoriesKey, CategoryList(categories));
    }

    /** `saveAzkar`: writes the slug's key only; a later read of the same slug returns the list. */
    method SaveAzkar(azkar: seq<Zikr>, slug: string) returns (ok: bool)
      modifies this`items
      ensures ok == writable
      ensures items == if ok then old(items)[AzkarKey(slug) := ZikrList(azkar)] else old(items)
      ensures ok ==> GetAzkarByCategory(slug) == azkar
    {
      ok := SetItem(AzkarKey(slug), ZikrList(azkar));
    }

    /**
     * `saveProgress`: drops the id's old record, appends the new one and writes the list back;
     * a failed write is swallowed. `now` is the clock reading `new Date().toISOString()`.
     */
    method SaveProgress(zikrId: int, currentCount: int, targetCount: int, now: string)
      modifies this`items
      ensures writable ==>
                items == old(items)[ProgressKey := ProgressList(Upsert(old(GetAllProgress()), ZikrProgress(zikrId, currentCount, targetCount, now)))]
      ensures !writable ==> items == old(items)
      ensures writable ==> GetProgress(zikrId) == Some(ZikrProgress(zikrId, currentCount, targetCount, now))
      ensures writable ==> forall id :: id != zikrId ==> GetProgress(id) == old(GetProgress(id))
    {
      var existing := GetAllProgress();
      var rec := ZikrProgress(zikrId, currentCount, targetCount, now);
      var updated := WithoutId(existing, zikrId) + [rec];
      var _ := SetItem(ProgressKey, ProgressList(updated));
      forall id ensures writable ==> GetProgress(id) == if id == zikrId then Some(rec) else old(GetProgress(id)) {
        UpsertFind(existing, rec, id);
      }
    }

    /** `clearProgress`: an empty progress list; the other keys are untouched. */
    method ClearProgress() returns (ok: bool)
      modifies this`items
      ensures ok == writable
      ensures items == if ok then old(items)[ProgressKey := ProgressList([])] else old(items)
      ensures ok ==> GetAllProgress() == [] && GetCategories() == old(GetCategories()) && GetSettings() == old(GetSettings())
    {
      ok := SetItem(ProgressKey, ProgressList([]));
    }

    method SaveSettings(settings: AppSettings) returns (ok: bool)
      modifies this`items
      ensures ok == writable
      ensures items == if ok then old(items)[SettingsKey := SettingsRecord(settings)] else old(items)
      ensures ok ==> GetSettings() == settings
    {
      ok := SetItem(SettingsKey, SettingsRecord(settings));
    }

    /** `clearAllData`: removes the categories, both lists and the progress, but keeps the settings. */
    method ClearAllData() returns (ok: bool)
      modifies this`items
      ensures ok == writable
      ensures items == if ok then old(items) - {CategoriesKey, MorningKey, EveningKey, ProgressKey} else old(items)
      ensures ok ==> !IsDataAvailable() && GetAllProgress() == [] && GetSettings() == old(GetSettings())
    {
      ok := writable;
      if ok {
        items := items - {CategoriesKey, MorningKey, EveningKey, ProgressKey};
      }
    }
  }
}
