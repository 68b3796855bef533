/**
 * The web app's data service (`apps/web/src/services/api.ts`): the remote call first, the
 * IndexedDB cache written on success and read on any failure.
 */
module WebService {
  import opened Wrappers
  import opened Azkar
  import opened Client
  import opened WebCache

  /** The azkar store after one `getAzkarByCategory(slug)` whose reply was `remote`. */
  function AfterAzkarFetch(m: map<int, Tagged>, remote: Result<seq<Zikr>, ApiError>, slug: string): map<int, Tagged> {
    if remote.Ok? then PutAll(m, Tag(remote.value, slug), TaggedId) else m
  }

  class ApiService {
    const api: AzkarApiClient
    const storage: OfflineStorage

    /** The service's client is `createApi('http://localhost:8080')`. */
    constructor(server: string -> FetchOutcome, storage: OfflineStorage)
      ensures fresh(api) && api.baseUrl == DefaultBaseUrl && api.server == server && api.log == []
      ensures this.storage == storage
    {
      api := new AzkarApiClient(DefaultBaseUrl, server);
      this.storage := storage;
    }

    /**
     * `getCategories`: the remote list merged into the store by id; when the fetch fails, or the
     * unique slug index refuses the batch, every stored category in id order.
     */
    method GetCategories() returns (r: seq<Category>)
      requires storage.Valid()
      modifies api`log, storage`isOpen, storage`categories
      ensures storage.Valid() && storage.isOpen
      ensures api.log == old(api.log) + [api.baseUrl + CategoriesEndpoint]
      ensures var remote := AsCategories(api.Remote(CategoriesEndpoint));
              if remote.Ok? && Admissible(old(storage.categories), remote.value) then
                r == remote.value && storage.categories == PutAll(old(storage.categories), remote.value, CategoryId)
              else
                InKeyOrder(old(storage.categories), r) && storage.categories == old(storage.categories)
    {
      var remote := api.GetCategories();
      if remote.Ok? {
        var saved := storage.SaveCategories(remote.value);
        if saved {
          r := remote.value;
          return;
        }
      }
      r := storage.GetCategories();
    }

    /** `getAzkarByCategory`: the remote list saved under the slug; on a failed fetch, the records stored under it. */
    method GetAzkarByCategory(slug: string) returns (r: seq<Zikr>)
      requires storage.Valid()
      modifies api`log, storage`isOpen, storage`azkar
      ensures storage.Valid() && storage.isOpen
      ensures api.log == old(api.log) + [api.baseUrl + AzkarEndpoint(slug)]
      ensures var remote := AsAzkar(api.Remote(AzkarEndpoint(slug)));
              if remote.Ok? then
                r == remote.value && storage.azkar == PutAll(old(storage.azkar), Tag(remote.value, slug), TaggedId)
              else
                (exists ts :: InKeyOrder(BySlug(old(storage.azkar), slug), ts) && r == Untag(ts)) && storage.azkar == old(storage.azkar)
    {
      var remote := api.GetAzkarByCategory(slug);
      if remote.Ok? {
        storage.SaveAzkar(remote.value, slug);
        r := remote.value;
        return;
      }
      r := storage.GetAzkarByCategory(slug);
    }

    /** `isOnline`: false without a request when the browser reports offline; otherwise whether the health request succeeds. */
    method IsOnline(browserOnline: bool) returns (b: bool)
      modifies api`log
      ensures !browserOnline ==> !b && api.log == old(api.log)
      ensures browserOnline ==> api.log == old(api.log) + [api.baseUrl + HealthEndpoint]
      ensures browserOnline ==> (b <==> api.Remote(HealthEndpoint).Ok?)
    {
      if !browserOnline {
        return false;
      }
      var health := api.GetHealth();
      b := health.Ok?;
    }

    /**
     * `ensureDataAvailable`: true at once when the categories store is non-empty; otherwise it loads
     * categories, morning and evening in that order. Each load recovers from its own failure, so the
     * outer catch is never reached and the result is true.
     */
    method EnsureDataAvailable() returns (b: bool)
      requires storage.Valid()
      modifies api`log, storage`isOpen, storage`categories, storage`azkar
      ensures storage.Valid() && b
      ensures old(storage.categories) != map[] ==>
                api.log == old(api.log) && storage.categories == old(storage.categories) && storage.azkar == old(storage.azkar)
      ensures old(storage.categories) == map[] ==>
                api.log == old(api.log) + [api.baseUrl + CategoriesEndpoint, api.baseUrl + AzkarEndpoint(MorningSlug), api.baseUrl + AzkarEndpoint(EveningSlug)]
      ensures old(storage.categories) == map[] ==>
                var remote := AsCategories(api.Remote(CategoriesEndpoint));
                storage.categories == if remote.Ok? && Admissible(map[], remote.value) then PutAll(map[], remote.value, CategoryId) else map[]
      ensures old(storage.categories) == map[] ==>
                storage.azkar == AfterAzkarFetch(AfterAzkarFetch(old(storage.azkar), AsAzkar(api.Remote(AzkarEndpoint(MorningSlug))), MorningSlug),
                                                 AsAzkar(api.Remote(AzkarEndpoint(EveningSlug))), EveningSlug)
    {
      var cached := storage.IsDataAvailable();
      if !cached {
        var _ := GetCategories();
        var _ := GetAzkarByCategory(MorningSlug);
        var _ := GetAzkarByCategory(EveningSlug);
      }
      b := true;
    }
  }
}
