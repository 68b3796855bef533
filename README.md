# Azkar — a Dafny model of the remembrance apps' core logic

Azkar is a set of apps for Islamic morning and evening remembrances (adhkar): a React web
app, a React Native mobile app, a Spring Boot backend and a small Node mock server, sharing
one TypeScript API client. This project models the sequential logic under their user
interfaces and proves properties of it:

- **The three seed transformers.** `mockData.ts` (mobile), `DataSeeder.java` (backend) and
  `mock-backend.js` each turn the bundled list of Arabic texts into `Zikr` records. Each one:
  - reads a repetition count from markers such as `(ثلاث مرات)`, `٣ مرات` or `3 مرات`;
  - strips those markers and collapses whitespace;
  - numbers the records and copies them into a morning list and an evening list.

  Each transformer is modelled separately, with its own precedence order, footnote alignment
  and numbering. Every regular expression becomes an explicit scanner over `seq<char>`
  (module `Patterns`). Those scanners rest on JavaScript/Java whitespace, trimming
  (`Text`) and integer parsing (`Numbers`).
- **The two local caches.**
  - Mobile `storage.ts`: an AsyncStorage key → value map holding whole lists, where progress
    is saved by filter-then-append.
  - Web `storage.ts`: IndexedDB object stores keyed by `id` / `zikrId`, opened lazily, with
    put-by-key upserts. `getAll` returns records in ascending key order.
- **The network-then-cache services** (`apps/*/src/services/api.ts`) and the shared
  `AzkarApiClient`. The client's `fetch` is an oracle from URL to outcome, and a ghost log
  records every URL requested.
- **The small state machines:**
  - the tasbih (rosary) sequence counter;
  - the capped per-zikr progress counters and their completion tally;
  - the font-size contexts and the mobile settings screen;
  - the surah search filter.

Shared entities (`Category`, `Zikr`, `ZikrProgress`, `AppSettings`) live in module `Azkar`.
`Option`/`Result` live in `Wrappers`.

## Model

| member | source | states |
|---|---|---|
| MobileSeed.ParseArabicNumber | apps/mobile/src/services/mockData.ts:118-155 | a number comes back only when the converted, trimmed text is a written-number word or the text holds an Eastern or ASCII digit; otherwise NaN |
| MobileSeed.ParseNumeral | apps/mobile/src/services/mockData.ts:118-155 | an Eastern or ASCII digit string parses to its decimal value |
| MobileSeed.ParseWithoutNumberIsNaN | apps/mobile/src/services/mockData.ts:145-154 | content that, after leading whitespace and an optional sign, does not start with an ASCII or Eastern digit, and is not a table word, gives NaN (`None`), so that pattern is skipped |
| MobileSeed.PatternCount | apps/mobile/src/services/mockData.ts:97-104 | a pattern's count is used only when it is positive |
| MobileSeed.CountFrom | apps/mobile/src/services/mockData.ts:97-115 | trying the patterns from the k-th on, then the word checks, then 1, always gives at least 1 |
| MobileSeed.RepeatCount | apps/mobile/src/services/mockData.ts:89-116 | the repeat count is at least 1 |
| MobileSeed.ExtractRepeatCount | apps/mobile/src/services/mockData.ts:89-116 | the loop over the three patterns (parenthesised, Eastern digits, ASCII digits), followed by the word checks ثلاث, أربع, خمس, ست, سبع, عشر, مائة in that order, computes `RepeatCount` and returns at least 1 |
| MobileSeed.WordsWhenNoMarker | apps/mobile/src/services/mockData.ts:107-115 | without `(`, digits or a times-word marker, the count is the first matching word check in the source's order, else 1 |
| MobileSeed.NoMarkerNoCapture | apps/mobile/src/services/mockData.ts:91-95 | none of the three patterns matches a text without their markers |
| MobileSeed.CleanText | apps/mobile/src/services/mockData.ts:157-167 | the cleaned text has no leading or trailing whitespace and no two adjacent whitespace characters |
| MobileSeed.Footnote | apps/mobile/src/services/mockData.ts:52-60 | the footnote is `footnoteArray[i]` when that exists and is non-empty, else null |
| MobileSeed.NonBlankIndicesExact | apps/mobile/src/services/mockData.ts:57-58 | an index is processed iff its text is not whitespace-only |
| MobileSeed.NonBlankIndicesIncrease | apps/mobile/src/services/mockData.ts:57-58 | processed indices are strictly increasing, so the source order is kept |
| MobileSeed.Seeded | apps/mobile/src/services/mockData.ts:57-83 | one record per non-blank text |
| MobileSeed.SeededFields | apps/mobile/src/services/mockData.ts:60-79 | record k comes from source index i: id (i+1)*100+slot, orderIndex i+1, the cleaned text, the counted repeats and footnote i |
| MobileSeed.MorningEveningAgree | apps/mobile/src/services/mockData.ts:65-79 | the morning and evening lists have the same length and agree on text, footnote, repeatMin and orderIndex |
| MobileSeed.SeededIdsIncrease | apps/mobile/src/services/mockData.ts:65-79 | ids within one list are strictly increasing |
| MobileSeed.SeededIdsDisjoint | apps/mobile/src/services/mockData.ts:65-79 | no morning id equals an evening id |
| MobileSeed.SeedIdsDistinct | apps/mobile/src/services/mockData.ts:57-86 | all ids of the seeded lists are distinct, within and across lists |
| MobileSeed.SeedListFields | apps/mobile/src/services/mockData.ts:61-62 | every seeded record has repeatMin ≥ 1 and whitespace-collapsed text |
| MobileSeed.SeededPush | apps/mobile/src/services/mockData.ts:65-79 | processing index i appends exactly the morning and evening records for i |
| MobileSeed.MockDataService.Init | apps/mobile/src/services/mockData.ts:12-48 | after `init` the service is initialised; a second call changes nothing |
| MobileSeed.MockDataService.ProcessAzkarTexts | apps/mobile/src/services/mockData.ts:50-87 | the `forEach` loop leaves exactly the seeded morning and evening lists |
| MobileSeed.MockDataService.GetCategories | apps/mobile/src/services/mockData.ts:169-172 | returns the two fixed categories (morning order 1, evening order 2) after initialising |
| MobileSeed.MockDataService.GetAzkarByCategory | apps/mobile/src/services/mockData.ts:174-179 | returns the seeded list for `morning`/`evening`, and `[]` for any other slug |
| BackendSeed.ParseArabicNumber | apps/backend/src/main/java/com/azkar/backend/seeder/DataSeeder.java:157-189 | a written word gives its table value; any result other than 1 comes from the table or from `Integer.parseInt` |
| BackendSeed.ParseNumeral | apps/backend/src/main/java/com/azkar/backend/seeder/DataSeeder.java:157-189 | an in-range Eastern or ASCII digit string parses to its value |
| BackendSeed.ParseWithoutNumberIsOne | apps/backend/src/main/java/com/azkar/backend/seeder/DataSeeder.java:183-187 | content that is not an optionally signed run of ASCII or Eastern digits (e.g. `3a`, ` 3`, empty) and not a table word gives 1 |
| BackendSeed.ParseIntRejects | apps/backend/src/main/java/com/azkar/backend/seeder/DataSeeder.java:183-187 | `Integer.parseInt` throws on the digit-converted content unless it was an optionally signed run of ASCII or Eastern digits |
| BackendSeed.ParenWithoutNumberCountsOne | apps/backend/src/main/java/com/azkar/backend/seeder/DataSeeder.java:114-118 | a parenthesised marker whose content is not a number gives 1, even when a digit marker or a written-number word follows it |
| BackendSeed.WordCount | apps/backend/src/main/java/com/azkar/backend/seeder/DataSeeder.java:138-154 | the word checks give one of 1, 3, 4, 7, 10, 100 |
| BackendSeed.ExtractRepeatCount | apps/backend/src/main/java/com/azkar/backend/seeder/DataSeeder.java:108-155 | a parenthesised marker decides the count; a count below 1 can only come from the parenthesised or a digit pattern |
| BackendSeed.WordsWhenNoMarker | apps/backend/src/main/java/com/azkar/backend/seeder/DataSeeder.java:138-154 | without a marker, the count is the word checks' value |
| BackendSeed.OverflowFallsThrough | apps/backend/src/main/java/com/azkar/backend/seeder/DataSeeder.java:128-135 | an ASCII numeral that overflows `int` falls through to the word checks |
| BackendSeed.ZeroTimesIsZero | apps/backend/src/main/java/com/azkar/backend/seeder/DataSeeder.java:128-135 | `0 مرات` yields 0: there is no positivity check |
| BackendSeed.ZeroTimesGroups | apps/backend/src/main/java/com/azkar/backend/seeder/DataSeeder.java:110-135 | in `0 مرات`, only the ASCII-digit pattern matches, capturing `0` |
| BackendSeed.CleanText | apps/backend/src/main/java/com/azkar/backend/seeder/DataSeeder.java:191-201 | the cleaned text is trimmed and whitespace-collapsed |
| BackendSeed.FootnoteForIndex | apps/backend/src/main/java/com/azkar/backend/seeder/DataSeeder.java:101-106 | a footnote exists iff the array exists and the index is inside it, and it is that element |
| BackendSeed.Survivors | apps/backend/src/main/java/com/azkar/backend/seeder/DataSeeder.java:76-78 | the trimmed, non-empty entries, at most one per input |
| BackendSeed.SurvivorsComplete | apps/backend/src/main/java/com/azkar/backend/seeder/DataSeeder.java:77-78 | every non-blank entry's trimmed text survives |
| BackendSeed.SurvivorsSound | apps/backend/src/main/java/com/azkar/backend/seeder/DataSeeder.java:77-78 | every survivor is the trim of some non-blank entry |
| BackendSeed.Rows | apps/backend/src/main/java/com/azkar/backend/seeder/DataSeeder.java:76-93 | one row per survivor |
| BackendSeed.RowsNumbering | apps/backend/src/main/java/com/azkar/backend/seeder/DataSeeder.java:80-92 | row k has orderIndex k+1 (contiguous from 1) and the footnote at position k |
| BackendSeed.MorningEveningRows | apps/backend/src/main/java/com/azkar/backend/seeder/DataSeeder.java:87-91 | morning and evening rows are pairwise identical except for the category |
| BackendSeed.CreateZikr | apps/backend/src/main/java/com/azkar/backend/seeder/DataSeeder.java:203-211 | the built row carries exactly the given category, text, footnote, count and orderIndex |
| BackendSeed.DataSeeder.Run | apps/backend/src/main/java/com/azkar/backend/seeder/DataSeeder.java:31-40 | with categories already present nothing is saved; otherwise the two categories and all seeded rows are appended, as the seeder test's already-seeded case expects |
| BackendSeed.DataSeeder.SeedData | apps/backend/src/main/java/com/azkar/backend/seeder/DataSeeder.java:42-58 | appends the morning and evening categories and the seeded rows |
| BackendSeed.DataSeeder.CreateCategory | apps/backend/src/main/java/com/azkar/backend/seeder/DataSeeder.java:60-66 | saves and returns exactly the given category |
| BackendSeed.DataSeeder.ProcessAzkarTexts | apps/backend/src/main/java/com/azkar/backend/seeder/DataSeeder.java:68-99 | the loop appends the morning rows, then the evening rows, for the survivors |
| MockServer.RepeatMin | mock-backend.js:30-37 | the count is 1, 3, 4, 7, 10 or 100; it is 1 exactly when no checked word occurs (digits are never consulted) |
| MockServer.CleanText | mock-backend.js:40-44 | the cleaned text is trimmed and whitespace-collapsed |
| MockServer.Footnote | mock-backend.js:26-49 | the footnote for survivor k is `footnotes[k]` (indexed after filtering) when non-empty, else null |
| MockServer.NonBlankExact | mock-backend.js:25 | a text survives the filter iff it is not whitespace-only |
| MockServer.NonBlankKeepsAll | mock-backend.js:25 | with no blank text, the filter keeps the list unchanged |
| MockServer.Processed | mock-backend.js:28-53 | one record per survivor |
| MockServer.ProcessedNumbering | mock-backend.js:46-52 | survivor k gets id = orderIndex = k+1, so ids are consecutive and distinct |
| MockServer.ProcessAzkarData | mock-backend.js:19-56 | a missing section or text list is an error with the source's message; otherwise one record per non-blank text |
| MockServer.ProcessedFields | mock-backend.js:30-44 | every record has a repeatMin from the word table and collapsed text |
| MockServer.CorsHeadersMerged | mock-backend.js:68-71 | the four headers are set on top of whatever was there |
| MockServer.Route | mock-backend.js:74-117 | `OPTIONS` gives 200 with no body; health gives 200 with status `ok`; categories gives 200 with the fixed category list; azkar gives 200 for `morning`/`evening` and 400 otherwise; any other path gives 404 with `Not found`; error bodies go exactly with non-200 statuses |
| MockServer.AzkarSameForBoth | mock-backend.js:100-113 | `morning` and `evening` get the same response, carrying the one shared list |
| MockServer.ServerResponse.SetHeader | mock-backend.js:68-71 | sets exactly one header |
| MockServer.ServerResponse.WriteHead | mock-backend.js:74-117 | records the status code |
| MockServer.ServerResponse.End | mock-backend.js:74-117 | records the body |
| MockServer.MockBackend.Handle | mock-backend.js:66-118 | the CORS headers and JSON content type are set, then the status and body are those of `Route` |
| MobileCache.AzkarKey | apps/mobile/src/utils/storage.ts:40-49 | `morning` uses the morning key; every other slug uses the evening key |
| MobileCache.WithoutId | apps/mobile/src/utils/storage.ts:59 | the filter keeps exactly the records with another `zikrId` |
| MobileCache.FindId | apps/mobile/src/utils/storage.ts:77 | a found record is in the list with that id; none is found iff no record has it |
| MobileCache.UpsertFind | apps/mobile/src/utils/storage.ts:56-82 | after filter-then-append, finding the saved id gives the new record and every other id is found as before |
| MobileCache.UpsertUnique | apps/mobile/src/utils/storage.ts:59-66 | at most one record per id is kept; the length is unchanged for a known id and grows by one otherwise |
| MobileCache.WithoutIdUnique | apps/mobile/src/utils/storage.ts:59 | filtering keeps ids unique and removes at most one record |
| MobileCache.WithoutIdAll | apps/mobile/src/utils/storage.ts:59 | filtering out an absent id keeps the list unchanged |
| MobileCache.MobileStorage.GetCategories | apps/mobile/src/utils/storage.ts:30-38 | a non-empty result is what is stored under the categories key; a missing or unreadable entry gives `[]` |
| MobileCache.MobileStorage.GetAzkarByCategory | apps/mobile/src/utils/storage.ts:45-54 | a non-empty result is what is stored under the slug's key; a missing or unreadable entry gives `[]` |
| MobileCache.MobileStorage.GetAllProgress | apps/mobile/src/utils/storage.ts:84-92 | a non-empty result is the stored progress list; a missing or unreadable entry gives `[]` |
| MobileCache.MobileStorage.GetProgress | apps/mobile/src/utils/storage.ts:74-82 | null iff no stored record has the id |
| MobileCache.MobileStorage.GetSettings | apps/mobile/src/utils/storage.ts:102-118 | anything other than `{16, false, true}` is what is stored under the settings key; a missing or unreadable entry gives `{16, false, true}` |
| MobileCache.MobileStorage.IsDataAvailable | apps/mobile/src/utils/storage.ts:120-123 | true iff a non-empty category list is stored |
| MobileCache.MobileStorage.SetItem | apps/mobile/src/utils/storage.ts:26-28 | a write succeeds iff the device storage is writable, and it changes exactly that key |
| MobileCache.MobileStorage.SaveCategories | apps/mobile/src/utils/storage.ts:26-28 | writes the categories key only; reading back gives the saved list |
| MobileCache.MobileStorage.SaveAzkar | apps/mobile/src/utils/storage.ts:40-43 | writes the slug's key only; reading back gives the saved list |
| MobileCache.MobileStorage.SaveProgress | apps/mobile/src/utils/storage.ts:56-72 | afterwards that id is found with the given counts and every other id is found as before; a failed write is swallowed |
| MobileCache.MobileStorage.ClearProgress | apps/mobile/src/utils/storage.ts:94-96 | sets progress to `[]` and leaves categories and settings unchanged |
| MobileCache.MobileStorage.SaveSettings | apps/mobile/src/utils/storage.ts:98-100 | writes the whole settings record; reading back gives it |
| MobileCache.MobileStorage.ClearAllData | apps/mobile/src/utils/storage.ts:125-132 | removes exactly the categories, morning, evening and progress keys, keeping the settings |
| WebCache.LastWith | apps/web/src/utils/storage.ts:53-71 | the last value in a batch with the given key, or none iff no value has it |
| WebCache.PutAllGet | apps/web/src/utils/storage.ts:53-71 | after a batch of puts, a key holds its last put value, or what it held before |
| WebCache.PutAllKeyed | apps/web/src/utils/storage.ts:30-51 | every stored record sits under its own key path |
| WebCache.GetAll | apps/web/src/utils/storage.ts:60-63 | `getAll` returns the store's values in ascending key order |
| WebCache.InKeyOrderExact | apps/web/src/utils/storage.ts:60-63 | `getAll` returns exactly the stored values, one per key |
| WebCache.InKeyOrderSorted | apps/web/src/utils/storage.ts:60-63 | `getAll`'s result is sorted by strictly increasing key |
| WebCache.AdmissibleUnique | apps/web/src/utils/storage.ts:36-58 | an accepted category batch keeps slugs unique |
| WebCache.SaveAzkarRetags | apps/web/src/utils/storage.ts:65-77 | a saved zikr carries the new slug and no longer shows under any other slug |
| WebCache.BySlugExact | apps/web/src/utils/storage.ts:73-77 | `getAzkarByCategory` returns exactly the stored records with that slug, without the slug field |
| WebCache.OfflineStorage.Init | apps/web/src/utils/storage.ts:30-51 | the database handle is open afterwards |
| WebCache.OfflineStorage.SaveCategories | apps/web/src/utils/storage.ts:53-58 | upserts by id and merges with stored categories; a batch that breaks the unique slug index aborts and changes nothing |
| WebCache.OfflineStorage.GetCategories | apps/web/src/utils/storage.ts:60-63 | all categories in id order |
| WebCache.OfflineStorage.SaveAzkar | apps/web/src/utils/storage.ts:65-71 | tags each zikr with the slug and upserts it by id |
| WebCache.OfflineStorage.GetAzkarByCategory | apps/web/src/utils/storage.ts:73-77 | the untagged records of that slug in id order |
| WebCache.OfflineStorage.SaveProgress | apps/web/src/utils/storage.ts:79-87 | upserts exactly one record under its `zikrId` |
| WebCache.OfflineStorage.GetProgress | apps/web/src/utils/storage.ts:89-92 | the stored record for the id, or undefined |
| WebCache.OfflineStorage.GetAllProgress | apps/web/src/utils/storage.ts:94-97 | all progress records in key order |
| WebCache.OfflineStorage.ClearProgress | apps/web/src/utils/storage.ts:99-102 | empties only the progress store |
| WebCache.OfflineStorage.ClearAllData | apps/web/src/utils/storage.ts:104-109 | empties the categories, azkar and progress stores |
| WebCache.OfflineStorage.IsDataAvailable | apps/web/src/utils/storage.ts:111-115 | true iff the categories store is non-empty |
| Client.StripTrailingSlashInverse | packages/shared/src/api-client.ts:7 | exactly one trailing `/` is removed; a URL without one is unchanged |
| Client.StripOnlyOnce | packages/shared/src/api-client.ts:7 | only one slash of a double slash is removed |
| Client.EndpointsDistinct | packages/shared/src/api-client.ts:30-44 | the endpoint builders are injective in the slug, and never collide with the fixed endpoints |
| Client.Fetched | packages/shared/src/api-client.ts:10-28 | success iff the response is ok and parses; a non-ok response gives `ApiError` with its status; every other failure has status 0 |
| Client.AsCategories | packages/shared/src/api-client.ts:30-32 | the category list of a successful reply |
| Client.AsCategory | packages/shared/src/api-client.ts:34-36 | the category of a successful reply |
| Client.AsAzkar | packages/shared/src/api-client.ts:38-40 | the zikr list of a successful reply |
| Client.AzkarApiClient.constructor | packages/shared/src/api-client.ts:6-8 | the base URL is stored with one trailing slash removed |
| Client.AzkarApiClient.Request | packages/shared/src/api-client.ts:10-28 | requests `baseUrl + endpoint` once and maps the outcome as `Fetched` |
| Client.AzkarApiClient.GetCategories | packages/shared/src/api-client.ts:30-32 | requests `/api/v1/categories` |
| Client.AzkarApiClient.GetCategoryBySlug | packages/shared/src/api-client.ts:34-36 | requests `/api/v1/categories/{slug}` |
| Client.AzkarApiClient.GetAzkarByCategory | packages/shared/src/api-client.ts:38-40 | requests `/api/v1/azkar?category={slug}` |
| Client.AzkarApiClient.GetHealth | packages/shared/src/api-client.ts:42-44 | requests `/api/v1/health` |
| Client.CreateApi | packages/shared/src/api-client.ts:48-50 | a fresh client whose base defaults to `http://localhost:8080` |
| MobileService.MobileApiService.constructor | apps/mobile/src/services/api.ts:5 | the service's client uses the default base URL |
| MobileService.MobileApiService.GetCategories | apps/mobile/src/services/api.ts:7-16 | on remote success with a successful save, returns the remote list with the cache updated; otherwise returns the cached list (`[]` if none) |
| MobileService.MobileApiService.GetAzkarByCategory | apps/mobile/src/services/api.ts:18-27 | the same rule per slug, writing only that slug's key |
| MobileService.MobileApiService.IsOnline | apps/mobile/src/services/api.ts:29-36 | true iff the health call succeeds |
| MobileService.MobileApiService.SyncData | apps/mobile/src/services/api.ts:38-48 | requests categories, morning, evening in that order and returns true; the new store is `Synced` of the old one and the three replies: each list key is written only when its fetch succeeds and storage is writable, every other key is kept |
| MobileService.SyncedWrites | apps/mobile/src/services/api.ts:38-48 | the sync writes only the categories, morning and evening keys, each to its fetched list exactly when that fetch succeeded and storage is writable; progress, settings and every other key, and a key whose fetch failed, keep their old entries |
| MobileService.MobileApiService.EnsureDataAvailable | apps/mobile/src/services/api.ts:50-58 | with categories cached, returns true with no request and no write; otherwise requests categories, morning, evening in that order and leaves exactly the store `Synced` gives, so each successful list is what its getter then returns |
| WebService.ApiService.constructor | apps/web/src/services/api.ts:6 | the service's client uses the default base URL |
| WebService.ApiService.GetCategories | apps/web/src/services/api.ts:8-17 | on remote success, saves and returns the remote list; on failure, returns the cached list |
| WebService.ApiService.GetAzkarByCategory | apps/web/src/services/api.ts:19-28 | the same rule for the given slug only |
| WebService.ApiService.IsOnline | apps/web/src/services/api.ts:30-39 | offline gives false with no request; otherwise true iff the health call succeeds |
| WebService.ApiService.EnsureDataAvailable | apps/web/src/services/api.ts:41-57 | with categories cached, returns true with no request and no change; otherwise fetches categories, morning, evening in that order; the category store becomes the remote list merged by id when the fetch succeeds and the slug index admits it, else stays empty; the azkar store takes the morning then the evening list, each tagged with its slug, when its fetch succeeds |
| Tasbih.SumPositive | apps/web/src/components/TasbihCounter.tsx:76 | a well-formed sequence needs at least one tap per item |
| Tasbih.AdvanceOnTrack | apps/web/src/components/TasbihCounter.tsx:36-54 | a tap keeps the position on an item and below its target |
| Tasbih.AdvanceDone | apps/web/src/components/TasbihCounter.tsx:36-79 | a tap adds one counted tap, except the completing tap, which adds none |
| Tasbih.DoneBelowSum | apps/web/src/components/TasbihCounter.tsx:62-76 | on track, the counted taps stay below the total |
| Tasbih.RunCompletes | apps/web/src/components/TasbihCounter.tsx:36-54 | from any on-track position, the sequence completes after exactly total-minus-done taps, and not before |
| Tasbih.CompletedStays | apps/web/src/components/TasbihCounter.tsx:37 | taps after completion change nothing |
| Tasbih.RunDone | apps/web/src/components/TasbihCounter.tsx:42-50 | when completed, the counted taps are one short of the total |
| Tasbih.RoundedPercent | apps/web/src/components/TasbihCounter.tsx:78 | the percentage is defined iff the total is non-zero (0/0 is NaN) |
| Tasbih.RoundedPercentNearest | apps/web/src/components/TasbihCounter.tsx:78 | the integer formula is the nearest whole percent, with halves rounded up |
| Tasbih.RoundedPercentRange | apps/web/src/components/TasbihCounter.tsx:78 | within range, the percentage lies in [0, 100] |
| Tasbih.CompletedShowsBelowHundred | apps/web/src/components/TasbihCounter.tsx:36-79 | a completed sequence of fewer than 200 taps shows under 100%; one item of 33 shows 97% |
| Tasbih.OneShortBelowHundred | apps/web/src/components/TasbihCounter.tsx:78 | one tap short of a total under 200 rounds below 100 |
| Tasbih.IntendedPercent | apps/web/src/components/TasbihCounter.tsx:62-79 | a completed sequence shows 100% |
| Tasbih.IntendedPercentRange | apps/web/src/components/TasbihCounter.tsx:62-79 | the intended percentage is defined, in [0, 100], and 100 when completed |
| Tasbih.TasbihCounter.constructor | apps/web/src/components/TasbihCounter.tsx:29-34 | starts with no selection at index 0, count 0, not completed |
| Tasbih.TasbihCounter.Select | apps/web/src/components/TasbihCounter.tsx:29-34 | selects the option and resets to index 0, count 0, not completed; the mobile handler is the same |
| Tasbih.TasbihCounter.Deselect | apps/web/src/components/TasbihCounter.tsx:154 | clears the selection; the mobile back button does the same |
| Tasbih.TasbihCounter.Increment | apps/web/src/components/TasbihCounter.tsx:36-54 | with no selection nothing changes; otherwise the position moves by one `Advance` step, which keeps it on track; the mobile handler is the same |
| Tasbih.TasbihCounter.Reset | apps/web/src/components/TasbihCounter.tsx:56-60 | back to index 0, count 0, not completed, keeping the selection; the mobile handler is the same |
| Tasbih.TasbihCounter.GetTotalProgress | apps/web/src/components/TasbihCounter.tsx:62-79 | 0 with no selection; otherwise the rounded percentage of the taps before the position, which lies in [0, 100] for a well-formed option; the mobile function is the same |
| AzkarProgress.Bump | apps/web/src/components/AzkarList.tsx:56 | `min(count + 1, target)`: one more below the target, capped at it, and done iff count + 1 reaches the target |
| AzkarProgress.TotalCompleted | apps/web/src/components/AzkarList.tsx:98 | the completion tally is at most the number of entries; the mobile list counts the same way |
| AzkarProgress.UpdateTally | apps/web/src/components/AzkarList.tsx:98 | replacing one entry changes the tally by exactly that entry's change in done-ness |
| AzkarProgress.BumpTally | apps/web/src/components/AzkarList.tsx:52-98 | an increment raises the tally by at most one and never lowers it |
| AzkarProgress.ZeroedTally | apps/web/src/components/AzkarList.tsx:68-98 | a reset lowers the tally by one exactly when that entry was done |
| AzkarProgress.LoadedShape | apps/web/src/components/AzkarList.tsx:33-41 | load gives exactly the listed ids, each with the saved count and its zikr's repeatMin as target; the mobile load loop builds the same map |
| AzkarProgress.LoadedAt | apps/web/src/components/AzkarList.tsx:33-41 | each zikr of a list with distinct ids gets (saved count, repeatMin) |
| AzkarProgress.FreshTally | apps/web/src/components/AzkarList.tsx:77-98 | after reset-all, nothing is completed |
| WebAzkarList.SavedFreshAt | apps/web/src/components/AzkarList.tsx:77-88 | reset-all stores count 0 for every listed zikr and leaves other records untouched |
| WebAzkarList.AzkarList.Load | apps/web/src/components/AzkarList.tsx:25-50 | the on-screen progress is the loaded map, with saved counts (0 if none) and repeatMin targets |
| WebAzkarList.AzkarList.Increment | apps/web/src/components/AzkarList.tsx:52-66 | an unknown id changes nothing; otherwise the capped count is shown and persisted, and the index advances only on completion before the last item |
| WebAzkarList.AzkarList.Reset | apps/web/src/components/AzkarList.tsx:68-75 | zeroes one count and persists it; an unknown id changes nothing |
| WebAzkarList.AzkarList.ResetAll | apps/web/src/components/AzkarList.tsx:77-88 | every zikr gets 0 / repeatMin, persisted, and the index is 0 |
| MobileAzkarList.SavedFreshFind | apps/mobile/src/components/AzkarList.tsx:84-94 | reset-all saves count 0 for every listed zikr and leaves other records as found before |
| MobileAzkarList.AzkarList.Load | apps/mobile/src/components/AzkarList.tsx:32-54 | the on-screen progress is the loaded map of the stored list |
| MobileAzkarList.AzkarList.Increment | apps/mobile/src/components/AzkarList.tsx:56-65 | an unknown id changes nothing; otherwise the capped count is shown and persisted |
| MobileAzkarList.AzkarList.Reset | apps/mobile/src/components/AzkarList.tsx:67-74 | zeroes only that zikr's count and persists it |
| MobileAzkarList.AzkarList.ResetAll | apps/mobile/src/components/AzkarList.tsx:76-98 | unconfirmed changes nothing; confirmed sets every zikr to 0 / repeatMin and touches only the progress key |
| FontScale.Accept | apps/web/src/contexts/FontContext.tsx:35-39 | a size is adopted iff it lies in [12, 24]; the mobile context checks the same range |
| FontScale.Increased | apps/web/src/contexts/FontContext.tsx:41-43 | in range, a step up stays in range, grows by at most 2 and stays put only at 24; the mobile context steps the same way |
| FontScale.Decreased | apps/web/src/contexts/FontContext.tsx:45-47 | in range, a step down stays in range, shrinks by at most 2 and stays put only at 12; the mobile context steps the same way |
| FontScale.StepsUndo | apps/web/src/contexts/FontContext.tsx:41-47 | away from the bounds, a step up followed by a step down (or the reverse) gives the starting size back |
| FontScale.Clamp | apps/mobile/src/components/Settings.tsx:48 | the clamp lands in [12, 24] and leaves in-range sizes alone |
| FontScale.ApplyAllInRange | apps/web/src/contexts/FontContext.tsx:35-47 | from a size in range, any sequence of sets, increases and decreases stays in range |
| FontScale.ApplyAllStartOrInRange | apps/web/src/contexts/FontContext.tsx:26-47 | from any start, the size is the start or in range |
| WebFont.InitialSize | apps/web/src/contexts/FontContext.tsx:26-29 | the initial size is the parsed stored value, or 16 when nothing is stored |
| WebFont.ReloadRestores | apps/web/src/contexts/FontContext.tsx:26-33 | what the effect writes is read back as the same size on the next start (within the exact double range; see Left out) |
| WebFont.StoredSizeUnchecked | apps/web/src/contexts/FontContext.tsx:26-29 | a stored 40 is adopted, out of range |
| WebFont.Stepped | apps/web/src/contexts/FontContext.tsx:41-47 | a step on a NaN size stays NaN |
| WebFont.FontProvider.constructor | apps/web/src/contexts/FontContext.tsx:26-33 | starts at the initial size and writes it back |
| WebFont.FontProvider.SetFontSize | apps/web/src/contexts/FontContext.tsx:31-39 | in-range sizes replace the state, and every change is written back |
| WebFont.FontProvider.IncreaseFontSize | apps/web/src/contexts/FontContext.tsx:41-43 | the size steps up, and a change is written back |
| WebFont.FontProvider.DecreaseFontSize | apps/web/src/contexts/FontContext.tsx:45-47 | the size steps down, and a change is written back |
| WebFont.FontProvider.Write | apps/web/src/contexts/FontContext.tsx:31-37 | the state update and the effect that runs only on change |
| MobileFont.LoadedSize | apps/mobile/src/contexts/FontContext.tsx:24-36 | a stored size is adopted only if it parses into [12, 24] |
| MobileFont.LoadRestores | apps/mobile/src/contexts/FontContext.tsx:24-47 | a size written by `setFontSize` is the one the next start loads |
| MobileFont.FontProvider.constructor | apps/mobile/src/contexts/FontContext.tsx:18 | starts at 16 |
| MobileFont.FontProvider.LoadFontSize | apps/mobile/src/contexts/FontContext.tsx:24-36 | adopts the stored size as `LoadedSize` and stays in range |
| MobileFont.FontProvider.SetFontSize | apps/mobile/src/contexts/FontContext.tsx:38-47 | ignores out-of-range sizes and persists accepted ones, which reload to the same size |
| MobileFont.FontProvider.IncreaseFontSize | apps/mobile/src/contexts/FontContext.tsx:49-52 | `min(f + 2, 24)`, persisted, in range |
| MobileFont.FontProvider.DecreaseFontSize | apps/mobile/src/contexts/FontContext.tsx:54-57 | `max(f - 2, 12)`, persisted, in range |
| MobileSettings.FontSizeChanged | apps/mobile/src/components/Settings.tsx:47-50 | the font size becomes the clamp of size + delta; the other fields are unchanged |
| MobileSettings.FontSizeChangeUndo | apps/mobile/src/components/Settings.tsx:47-50 | changing the size by a delta and then by its negation restores the settings while both sizes are in range |
| MobileSettings.ReadingModeToggled | apps/mobile/src/components/Settings.tsx:52-54 | flips the reading mode only |
| MobileSettings.NotificationsToggled | apps/mobile/src/components/Settings.tsx:56-58 | flips notifications only |
| MobileSettings.TogglesUndo | apps/mobile/src/components/Settings.tsx:52-58 | each toggle undoes itself, and the two toggles commute |
| MobileSettings.SettingsScreen.constructor | apps/mobile/src/components/Settings.tsx:20-25 | starts at `{16, false, true}` with progress count 0 |
| MobileSettings.SettingsScreen.Load | apps/mobile/src/components/Settings.tsx:32-40 | shows the stored settings and the number of stored progress records |
| MobileSettings.SettingsScreen.UpdateSettings | apps/mobile/src/components/Settings.tsx:42-45 | replaces the state and persists the whole record |
| MobileSettings.SettingsScreen.FontSizeChange | apps/mobile/src/components/Settings.tsx:47-50 | the clamped size is shown and persisted |
| MobileSettings.SettingsScreen.ReadingModeToggle | apps/mobile/src/components/Settings.tsx:52-54 | the toggled record is shown and persisted |
| MobileSettings.SettingsScreen.NotificationsToggle | apps/mobile/src/components/Settings.tsx:56-58 | the toggled record is shown and persisted |
| MobileSettings.SettingsScreen.ClearAllProgress | apps/mobile/src/components/Settings.tsx:60-81 | after a confirmed, successful clear the count is 0 and settings are kept; otherwise nothing changes |
| WebQuran.Filtered | apps/web/src/components/QuranList.tsx:34-38 | a surah is kept iff its name contains the text or its lowercased English name contains the lowercased text |
| WebQuran.FilteredIsSublist | apps/web/src/components/QuranList.tsx:34-38 | the filter keeps the surahs' order |
| WebQuran.EmptySearchKeepsAll | apps/web/src/components/QuranList.tsx:16-38 | an empty search keeps every surah |
| WebQuran.QuranList.constructor | apps/web/src/components/QuranList.tsx:14-16 | no surahs, loading, empty search |
| WebQuran.QuranList.SetSearchText | apps/web/src/components/QuranList.tsx:68 | the search text becomes the input's value; nothing else changes |
| WebQuran.QuranList.LoadSurahs | apps/web/src/components/QuranList.tsx:22-32 | fetched surahs replace the list; on failure the list stays; loading ends either way |
| WebQuran.QuranList.Shown | apps/web/src/components/QuranList.tsx:34-38 | the shown list is the order-preserving filtered sublist |
| WebQuran.QuranList.HeaderCount | apps/web/src/components/QuranList.tsx:59 | the header counts all surahs, not the filtered ones |
| Text.Trim | apps/mobile/src/services/mockData.ts:157-167 | trims the engine's whitespace: nothing trimmable at either end, empty iff all trimmable |
| Text.BlankIffTrimEmpty | mock-backend.js:25 | a text is blank iff its trim is empty |
| Text.CollapseSpaces | apps/mobile/src/services/mockData.ts:164 | `replace(/\s+/g, ' ')`: no two adjacent spaces, every space a plain ' ' |
| Text.TrimCollapsed | apps/mobile/src/services/mockData.ts:164 | trimming a collapsed text keeps it collapsed |
| Text.Normalize | apps/mobile/src/services/mockData.ts:164 | collapse then trim gives a collapsed text |
| Text.ToLower | apps/web/src/components/QuranList.tsx:37 | lowercases character by character, keeping the length |
| Numbers.JsParseInt | apps/mobile/src/services/mockData.ts:150-154 | `parseInt` succeeds only on text containing a digit |
| Numbers.JavaParseInt | apps/backend/src/main/java/com/azkar/backend/seeder/DataSeeder.java:183-187 | `Integer.parseInt` accepts only an optional sign followed by digits, within the 32-bit range |
| Numbers.NatToString | apps/web/src/contexts/FontContext.tsx:32 | `toString` of a natural gives its decimal digits without leading zeros (for JavaScript numbers below 10^21; see Left out) |
| Numbers.ParsePrintedInt | apps/web/src/contexts/FontContext.tsx:26-33 | parsing a printed integer gives it back, with or without a radix (within the exact double range; see Left out) |
| Numbers.EasternToAsciiPointwise | apps/mobile/src/services/mockData.ts:120-130 | the replace chain maps each Eastern Arabic digit ٠..٩ to 0..9 and keeps every other character |
| Numbers.AsciiNumeralValue | apps/mobile/src/services/mockData.ts:150-154 | an ASCII digit string parses to its decimal value |
| Numbers.AsciiJavaParses | apps/backend/src/main/java/com/azkar/backend/seeder/DataSeeder.java:183-187 | a 32-bit ASCII digit string parses to its decimal value |
| Patterns.ParenAt | apps/mobile/src/services/mockData.ts:92 | a parenthesised match starts at `(` and ends at `)`, with the lazy group inside |
| Patterns.FindParen | apps/mobile/src/services/mockData.ts:92 | the search returns the first position where the parenthesised pattern matches |
| Patterns.FindParenNeedsParen | apps/mobile/src/services/mockData.ts:92 | no `(` means no parenthesised match |
| Patterns.DigitsGroup | apps/mobile/src/services/mockData.ts:93-94 | a captured group is a non-empty run of that digit class |
| Patterns.FindDigitsNeedsDigit | apps/mobile/src/services/mockData.ts:93-94 | no digit of the class means no digit match |
| Patterns.FirstWordCount | apps/mobile/src/services/mockData.ts:107-113 | the first word check that matches, in list order, gives the count; none matches iff every check fails |
| Patterns.WrittenNumber | apps/mobile/src/services/mockData.ts:133-148 | the written-number table gives one of 3..10 or 100 |
| Patterns.DigitsAreNotWritten | apps/mobile/src/services/mockData.ts:145-150 | a digit string is never a table word, so it reaches `parseInt` |
| Patterns.RemoveWithoutMatch | apps/mobile/src/services/mockData.ts:159-161 | removing a marker that does not occur leaves the text unchanged |

## Left out

- I/O and platform primitives are modelled as values:
  - AsyncStorage is a `map<string, Blob>` with a `writable` flag for write failures, and a `Blob` can be unreadable.
  - IndexedDB is three `map<int, _>` stores.
  - `fetch` is a function from URL to outcome.
  - The Spring repositories are sequences of rows.
  - JSON (de)serialisation is identity. A reply of the wrong shape is a `ShapeError` (status 0).
- IndexedDB open and read errors are not modelled: web reads never fail. Web `saveAzkar` never fails either. A category batch that breaks the unique slug index aborts as a whole.
- Web `localStorage` errors are not modelled.
- Concurrency is not modelled: every awaited call runs to completion in program order. React's batched state updates and stale closures are not modelled.
- The `setTimeout` delay before `currentIndex` advances (web `AzkarList.tsx`) is not modelled: the advance is immediate.
- Alerts and confirmation dialogs, console logging, loading flags other than the surah list's, the surah alert, and all rendering are left out.
  - The mobile confirmations are a `confirmed` parameter.
- Each reset-all uses one `now` timestamp for all of its records.
- Floating point is not modelled: `Math.round(done / total * 100)` is the integer formula `floor((200·done + total) / (2·total))`.
- JavaScript numbers are modelled as unbounded integers. `parseInt` and `toString` agree with the model only for magnitudes up to 2^53 − 1; above that the source rounds to the nearest double, and from 10^21 on `toString` prints exponent form (`1e+21`), which `parseInt` reads back as 1.
- NatToString: gives the decimal digits of every natural; JavaScript's `toString` does so only below 10^21 (exponent form from there on), and exactly only up to 2^53 − 1.
- ParsePrintedInt: the round trip is proved for every integer; in JavaScript it holds only for magnitudes up to 2^53 − 1 (and fails outright from 10^21 on).
- ReloadRestores: proved for every stored integer size; in the source a size written back from a hand-stored value of 10^21 or more is read as 1 on the next start, and sizes above 2^53 − 1 are already rounded when first read.
- WebFont.InitialSize and the mobile repeat counts (MobileSeed.ParseArabicNumber): a parsed value above 2^53 − 1 is rounded in the source and kept exact in the model.
- Unicode is simplified:
  - `\s` and `trim` use explicit JavaScript and Java character classes;
  - `toLowerCase` folds only ASCII letters;
  - Java's `Integer.parseInt` accepts only ASCII digits.
- The JavaScript regexes are modelled as explicit scanners covering exactly the patterns the sources use.
- `getTasbihOptions` (tasbih option loading) is not defined by the services in this model: the option is an input to `Select`.
  - `Tasbih.TasbihCounter` models the web and mobile counters together, since their handlers are identical apart from the alert.
- `MockDataService` has no `getHealth`.
- The mock server's start-up (`readFileSync`, `process.exit`, `listen`) is not modelled.
  - The server is given the processed list.
  - A request is given as its method, path and `category` query value.
- The backend's `@Min(1)` validation on `repeatMin`, and the controllers, services and entities, are not part of this model.
- `packages/shared/src/api/quran.ts`, both `SurahViewer.tsx`, the mobile `QuranList.tsx`, `HomePage.tsx`, `App.tsx`, `Navigation.tsx`, the theme files, the web `Settings.tsx` and the build configuration are not part of this model.
- Surah fields the search does not read are left out of `WebQuran.Surah`.
- MobileCache.MobileStorage.ClearProgress and MobileCache.MobileStorage.SaveSettings: a write failure, which the source propagates, is returned as `ok == false`.
- MobileService.MobileApiService.SyncData and WebService.ApiService.EnsureDataAvailable always return true. Every read they make recovers from its failure, so no step throws in the model.
- MobileAzkarList.AzkarList.ResetAll: the saved list is stated through `GetAllProgress` and the untouched other keys, not the exact stored blob.
- WebFont.FontProvider.constructor: the stored entry the effect writes is stated, not the `localStorage` read itself.
- MobileFont.FontProvider: a failed AsyncStorage write (`writable == false`) is logged and ignored; the flag is fixed for the provider's lifetime.

## Findings

| source | as written | input that shows it | evidently intended | confidence | as-written member | corrected member |
|---|---|---|---|---|---|---|
| apps/web/src/components/TasbihCounter.tsx:47-50,62-79; apps/mobile/src/components/TasbihCounter.tsx:57-61,73-90 | the completing tap sets `isCompleted` but leaves `currentCount` one short of the last target; `getTotalProgress` counts only the taps before the position, so a completed sequence of fewer than 200 taps shows under 100% | one item with count 33, tapped 33 times: completed, progress shows 97% | a completed sequence shows 100% | medium, not executed | Tasbih.CompletedShowsBelowHundred | Tasbih.IntendedPercentRange |
