/**
 * The mobile app's data service (`apps/mobile/src/services/api.ts`): the remote call first, the
 * cache written on success and read on any failure. Every awaited call runs to completion in turn.
 */
module MobileService {
  import opened Wrappers
  import opened Azkar
  import opened Client
  import opened MobileCache

  /** The store after one `getCategories` whose reply was `remote`: written only on success. */
  function AfterCategoriesFetch(items: map<string, Blob>, remote: Result<seq<Category>, ApiError>, writable: bool): map<string, Blob> {
    if remote.Ok? && writable then items[CategoriesKey := CategoryList(remote.value)] else items
  }

  /** The store after one `getAzkarByCategory(slug)` whose reply was `remote`. */
  function AfterAzkarFetch(items: map<string, Blob>, remote: Result<seq<Zikr>, ApiError>, slug: string, writable: bool): map<string, Blob> {
    if remote.Ok? && writable then items[AzkarKey(slug) := ZikrList(remote.value)] else items
  }

  /** The store after `syncData`: categories, then morning, then evening. */
  function Synced(items: map<string, Blob>, categories: Result<seq<Category>, ApiError>,
                  morning: Result<seq<Zikr>, ApiError>, evening: Result<seq<Zikr>, ApiError>, writable: bool): map<string, Blob> {
    AfterAzkarFetch(AfterAzkarFetch(AfterCategoriesFetch(items, categories, writable), morning, MorningSlug, writable), evening, EveningSlug, writable)
  }

  /** Key `k` holds the same entry, or is absent, in both stores. */
  predicate SameAt(a: map<string, Blob>, b: map<string, Blob>, k: string) {
    (k in a <==> k in b) && (k in a ==> a[k] == b[k])
  }

  /**
   * `syncData` writes only the three list keys, each only when its own fetch succeeded and the
   * store is writable; progress, settings and any other key are kept.
   */
  lemma SyncedWrites(items: map<string, Blob>, categories: Result<seq<Category>, ApiError>,
                     morning: Result<seq<Zikr>, ApiError>, evening: Result<seq<Zikr>, ApiError>, writable: bool)
    ensures var s := Synced(items, categories, morning, evening, writable);
            forall k :: k != CategoriesKey && k != MorningKey && k != EveningKey ==> SameAt(s, items, k)
    ensures var s := Synced(items, categories, morning, evening, writable);
            if categories.Ok? && writable then CategoriesKey in s && s[CategoriesKey] == CategoryList(categories.value)
            else SameAt(s, items, CategoriesKey)
    ensures var s := Synced(items, categories, morning, evening, writable);
            if morning.Ok? && writable then MorningKey in s && s[MorningKey] == ZikrList(morning.value)
            else SameAt(s, items, MorningKey)
    ensures var s := Synced(items, categories, morning, evening, writable);
            if evening.Ok? && writable then EveningKey in s && s[EveningKey] == ZikrList(evening.value)
            else SameAt(s, items, EveningKey)
  {
    assert AzkarKey(MorningSlug) == MorningKey && AzkarKey(EveningSlug) == EveningKey;
  }

  class MobileApiService {
    const api: AzkarApiClient
    const storage: MobileStorage

    /** The service's client is `createApi('http://localhost:8080')`. */
    constructor(server: string -> FetchOutcome, storage: MobileStorage)
      ensures fresh(api) && api.baseUrl == DefaultBaseUrl && api.server == server && api.log == []
      ensures this.storage == storage
    {
      api := new AzkarApiClient(DefaultBaseUrl, server);
      this.storage := storage;
    }

    /** `getCategories`: the remote list, saved to the cache; the cached list when the fetch or the save fails. */
    method GetCategories() returns (r: seq<Category>)
      modifies api`log, storage`items
      ensures api.log == old(api.log) + [api.baseUrl + CategoriesEndpoint]
      ensures var remote := AsCategories(api.Remote(CategoriesEndpoint));
              if remote.Ok? && storage.writable then
                r == remote.value && storage.items == old(storage.items)[CategoriesKey := CategoryList(remote.value)]
              else
                r == old(storage.GetCategories()) && storage.items == old(storage.items)
    {
      var remote := api.GetCategories();
      if remote.Ok? {
        var saved := storage.SaveCategories(remote.value);
        if saved {
          r := remote.value;
          return;
        }
      }
      r := storage.GetCategories();
    }

    /** `getAzkarByCategory`: the same rule for one slug, touching only that slug's key. */
    method GetAzkarByCategory(slug: string) returns (r: seq<Zikr>)
      modifies api`log, storage`items
      ensures api.log == old(api.log) + [api.baseUrl + AzkarEndpoint(slug)]
      ensures var remote := AsAzkar(api.Remote(AzkarEndpoint(slug)));
              if remote.Ok? && storage.writable then
                r == remote.value && storage.items == old(storage.items)[AzkarKey(slug) := ZikrList(remote.value)]
              else
                r == old(storage.GetAzkarByCategory(slug)) && storage.items == old(storage.items)
    {
      var remote := api.GetAzkarByCategory(slug);
      if remote.Ok? {
        var saved := storage.SaveAzkar(remote.value, slug);
        if saved {
          r := remote.value;
          return;
        }
      }
      r := storage.GetAzkarByCategory(slug);
    }

    /** `isOnline`: true iff the health request succeeds. */
    method IsOnline() returns (b: bool)
      modifies api`log
      ensures api.log == old(api.log) + [api.baseUrl + HealthEndpoint]
      ensures b <==> api.Remote(HealthEndpoint).Ok?
    {
      var health := api.GetHealth();
      b := health.Ok?;
    }

    /**
     * `syncData`: categories, then morning, then evening. Each step recovers from its own failure,
     * so nothing reaches the outer catch and the result is true.
     */
    method SyncData() returns (b: bool)
      modifies api`log, storage`items
      ensures b
      ensures api.log == old(api.log) + [api.baseUrl + CategoriesEndpoint, api.baseUrl + AzkarEndpoint(MorningSlug), api.baseUrl + AzkarEndpoint(EveningSlug)]
      ensures storage.writable && AsCategories(api.Remote(CategoriesEndpoint)).Ok? ==>
                storage.GetCategories() == AsCategories(api.Remote(CategoriesEndpoint)).value
      ensures storage.writable && AsAzkar(api.Remote(AzkarEndpoint(MorningSlug))).Ok? ==>
                storage.GetAzkarByCategory(MorningSlug) == AsAzkar(api.Remote(AzkarEndpoint(MorningSlug))).value
      ensures storage.writable && AsAzkar(api.Remote(AzkarEndpoint(EveningSlug))).Ok? ==>
                storage.GetAzkarByCategory(EveningSlug) == AsAzkar(api.Remote(AzkarEndpoint(EveningSlug))).value
      ensures !storage.writable ==> storage.items == old(storage.items)
      ensures storage.items == Synced(old(storage.items), AsCategories(api.Remote(CategoriesEndpoint)),
                                      AsAzkar(api.Remote(AzkarEndpoint(MorningSlug))), AsAzkar(api.Remote(AzkarEndpoint(EveningSlug))),
                                      storage.writable)
    {
      ghost var before := storage.items;
      var _ := GetCategories();
      var _ := GetAzkarByCategory(MorningSlug);
      var _ := GetAzkarByCategory(EveningSlug);
      SyncedWrites(before, AsCategories(api.Remote(CategoriesEndpoint)), AsAzkar(api.Remote(AzkarEndpoint(MorningSlug))),
                   AsAzkar(api.Remote(AzkarEndpoint(EveningSlug))), storage.writable);
      assert AzkarKey(MorningSlug) == MorningKey && AzkarKey(EveningSlug) == EveningKey;
      b := true;
    }

    /** `ensureDataAvailable`: true at once, without a request, when categories are cached; otherwise `syncData`. */
    method EnsureDataAvailable() returns (b: bool)
      modifies api`log, storage`items
      ensures b
      ensures old(storage.IsDataAvailable()) ==> api.log == old(api.log) && storage.items == old(storage.items)
      ensures !old(storage.IsDataAvailable()) ==>
                api.log == old(api.log) + [api.baseUrl + CategoriesEndpoint, api.baseUrl + AzkarEndpoint(MorningSlug), api.baseUrl + AzkarEndpoint(EveningSlug)]
      ensures !old(storage.IsDataAvailable()) && storage.writable && AsCategories(api.Remote(CategoriesEndpoint)).Ok? ==>
                storage.GetCategories() == AsCategories(api.Remote(CategoriesEndpoint)).value
      ensures !old(storage.IsDataAvailable()) && storage.writable && AsAzkar(api.Remote(AzkarEndpoint(MorningSlug))).Ok? ==>
                storage.GetAzkarByCategory(MorningSlug) == AsAzkar(api.Remote(AzkarEndpoint(MorningSlug))).value
      ensures !old(storage.IsDataAvailable()) && storage.writable && AsAzkar(api.Remote(AzkarEndpoint(EveningSlug))).Ok? ==>
                storage.GetAzkarByCategory(EveningSlug) == AsAzkar(api.Remote(AzkarEndpoint(EveningSlug))).value
      ensures !storage.writable ==> storage.items == old(storage.items)
      ensures !old(storage.IsDataAvailable()) ==>
                storage.items == Synced(old(storage.items), AsCategories(api.Remote(CategoriesEndpoint)),
                                        AsAzkar(api.Remote(AzkarEndpoint(MorningSlug))), AsAzkar(api.Remote(AzkarEndpoint(EveningSlug))),
                                        storage.writable)
    {
      var cached := storage.IsDataAvailable();
      if !cached {
        b := SyncData();
        return;
      }
      b := true;
    }
  }
}
