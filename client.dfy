/**
 * The shared HTTP client (`packages/shared/src/api-client.ts`): base-URL normalisation, the four
 * endpoint paths and the mapping of every failure to an `ApiError`. The network is an oracle
 * `server` from request URL to the outcome of `fetch` on it.
 */
module Client {
  import opened Wrappers
  import opened Azkar
  import Numbers

  const DefaultBaseUrl: string := "http://localhost:8080"
  const CategoriesEndpoint: string := "/api/v1/categories"
  const HealthEndpoint: string := "/api/v1/health"

  function CategoryEndpoint(slug: string): string { "/api/v1/categories/" + slug }
  function AzkarEndpoint(category: string): string { "/api/v1/azkar?category=" + category }

  /** A parsed JSON body, in the shapes the endpoints answer with. */
  datatype Reply =
    | CategoryListReply(categories: seq<Category>)
    | CategoryReply(category: Category)
    | ZikrListReply(azkar: seq<Zikr>)
    | HealthReply(status: string)

  /** What a `throw` carried: an `Error` with its message, or any other value. */
  datatype Thrown = ErrorValue(message: string) | OtherValue

  /**
   * The outcome of `fetch(url)` and the JSON parse of its body: a response with its `ok` flag,
   * status and parsed body (`Err` holds what the parser threw), or a rejected fetch.
   */
  datatype FetchOutcome =
    | Responded(ok: bool, status: int, json: Result<Reply, Thrown>)
    | Rejected(error: Thrown)

  datatype ApiError = ApiError(message: string, status: int)

  /** `baseUrl.replace(/\/$/, '')`: drops one trailing slash. */
  function StripTrailingSlash(u: string): string {
    if |u| > 0 && u[|u| - 1] == '/' then u[..|u| - 1] else u
  }

  /** Stripping undoes appending one slash, and keeps a URL that does not end in a slash. */
  lemma StripTrailingSlashInverse(u: string)
    ensures StripTrailingSlash(u + "/") == u
    ensures (|u| == 0 || u[|u| - 1] != '/') ==> StripTrailingSlash(u) == u
    ensures |StripTrailingSlash(u)| >= |u| - 1
  {
    assert (u + "/")[..|u|] == u;
  }

  /** Only a single slash is removed: a doubled slash leaves one behind. */
  lemma StripOnlyOnce(u: string)
    ensures StripTrailingSlash(u + "//") == u + "/"
  {
    assert (u + "//")[..|u| + 1] == u + "/";
  }

  /** The message of an `Error`, or the fixed text for anything else thrown. */
  function MessageOf(t: Thrown): string {
    match t
    case ErrorValue(m) => m
    case OtherValue => "Unknown error occurred"
  }

  /** `request`: a non-ok response becomes an `ApiError` with its status; every other failure one with status 0. */
  function Fetched(o: FetchOutcome): (r: Result<Reply, ApiError>)
    ensures r.Ok? <==> o.Responded? && o.ok && o.json.Ok?
    ensures r.Ok? ==> r.value == o.json.value
    ensures r.Err? && o.Responded? && !o.ok ==> r.error.status == o.status
    ensures r.Err? && !(o.Responded? && !o.ok) ==> r.error.status == 0
  {
    match o
    case Responded(ok, status, json) =>
      if !ok then Err(ApiError("HTTP error! status: " + Numbers.IntToString(status), status))
      else if json.Ok? then Ok(json.value)
      else Err(ApiError(MessageOf(json.error), 0))
    case Rejected(t) => Err(ApiError(MessageOf(t), 0))
  }

  /** The error for a body of an unexpected shape, which the caller would otherwise trip over. */
  const ShapeError: ApiError := ApiError("Unexpected response shape", 0)

  function AsCategories(r: Result<Reply, ApiError>): (c: Result<seq<Category>, ApiError>)
    ensures c.Ok? <==> r.Ok? && r.value.CategoryListReply?
    ensures c.Ok? ==> c.value == r.value.categories
  {
    match r
    case Ok(CategoryListReply(cs)) => Ok(cs)
    case Ok(_) => Err(ShapeError)
    case Err(e) => Err(e)
  }

  function AsCategory(r: Result<Reply, ApiError>): (c: Result<Category, ApiError>)
    ensures c.Ok? <==> r.Ok? && r.value.CategoryReply?
    ensures c.Ok? ==> c.value == r.value.category
  {
    match r
    case Ok(CategoryReply(c)) => Ok(c)
    case Ok(_) => Err(ShapeError)
    case Err(e) => Err(e)
  }

  function AsAzkar(r: Result<Reply, ApiError>): (z: Result<seq<Zikr>, ApiError>)
    ensures z.Ok? <==> r.Ok? && r.value.ZikrListReply?
    ensures z.Ok? ==> z.value == r.value.azkar
  {
    match r
    case Ok(ZikrListReply(zs)) => Ok(zs)
    case Ok(_) => Err(ShapeError)
    case Err(e) => Err(e)
  }

  /** The endpoint paths can be told apart: no two slugs share an azkar or category path. */
  lemma EndpointsDistinct(a: string, b: string)
    ensures AzkarEndpoint(a) == AzkarEndpoint(b) ==> a == b
    ensures CategoryEndpoint(a) == CategoryEndpoint(b) ==> a == b
    ensures AzkarEndpoint(a) != CategoriesEndpoint && AzkarEndpoint(a) != HealthEndpoint
    ensures CategoryEndpoint(a) != CategoriesEndpoint && CategoryEndpoint(a) != HealthEndpoint
  {
    var pa := "/api/v1/azkar?category=";
    var pc := "/api/v1/categories/";
    if AzkarEndpoint(a) == AzkarEndpoint(b) {
      assert a == AzkarEndpoint(a)[|pa|..] && b == AzkarEndpoint(b)[|pa|..];
    }
    if CategoryEndpoint(a) == CategoryEndpoint(b) {
      assert a == CategoryEndpoint(a)[|pc|..] && b == CategoryEndpoint(b)[|pc|..];
    }
    assert AzkarEndpoint(a)[8] == 'a' && CategoriesEndpoint[8] == 'c' && HealthEndpoint[8] == 'h';
    assert |CategoryEndpoint(a)| > |CategoriesEndpoint| && CategoryEndpoint(a)[8] == 'c';
  }

  class AzkarApiClient {
    const baseUrl: string
    /** What `fetch` yields for each request URL. */
    const server: string -> FetchOutcome
    /** The URLs requested so far, oldest first. */
    ghost var log: seq<string>

    constructor(baseUrl: string, server: string -> FetchOutcome)
      ensures this.baseUrl == StripTrailingSlash(baseUrl) && this.server == server
      ensures log == []
    {
      this.baseUrl := StripTrailingSlash(baseUrl);
      this.server := server;
      log := [];
    }

    /** The outcome `request(endpoint)` settles with. */
    function Remote(endpoint: string): Result<Reply, ApiError> {
      Fetched(server(baseUrl + endpoint))
    }

    method Request(endpoint: string) returns (r: Result<Reply, ApiError>)
      modifies this`log
      ensures log == old(log) + [baseUrl + endpoint]
      ensures r == Remote(endpoint)
    {
      var url := baseUrl + endpoint;
      log := log + [url];
      r := Fetched(server(url));
    }

    method GetCategories() returns (r: Result<seq<Category>, ApiError>)
      modifies this`log
      ensures log == old(log) + [baseUrl + CategoriesEndpoint]
      ensures r == AsCategories(Remote(CategoriesEndpoint))
    {
      var reply := Request(CategoriesEndpoint);
      r := AsCategories(reply);
    }

    method GetCategoryBySlug(slug: string) returns (r: Result<Category, ApiError>)
      modifies this`log
      ensures log == old(log) + [baseUrl + CategoryEndpoint(slug)]
      ensures r == AsCategory(Remote(CategoryEndpoint(slug)))
    {
      var reply := Request(CategoryEndpoint(slug));
      r := AsCategory(reply);
    }

    method GetAzkarByCategory(category: string) returns (r: Result<seq<Zikr>, ApiError>)
      modifies this`log
      ensures log == old(log) + [baseUrl + AzkarEndpoint(category)]
      ensures r == AsAzkar(Remote(AzkarEndpoint(category)))
    {
      var reply := Request(AzkarEndpoint(category));
      r := AsAzkar(reply);
    }

    /** `getHealth`: the body is not inspected, so any parsed reply counts as success. */
    method GetHealth() returns (r: Result<Reply, ApiError>)
      modifies this`log
      ensures log == old(log) + [baseUrl + HealthEndpoint]
      ensures r == Remote(HealthEndpoint)
    {
      r := Request(HealthEndpoint);
    }
  }

  /** `createApi(baseUrl?)`: a client on the given base, or on the local default when none is given. */
  method CreateApi(baseUrl: Option<string>, server: string -> FetchOutcome) returns (c: AzkarApiClient)
    ensures fresh(c) && c.log == [] && c.server == server
    ensures c.baseUrl == StripTrailingSlash(baseUrl.GetOr(DefaultBaseUrl))
    ensures baseUrl.None? ==> c.baseUrl == DefaultBaseUrl
  {
    c := new AzkarApiClient(baseUrl.GetOr(DefaultBaseUrl), server);
  }
}
