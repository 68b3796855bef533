/**
 * The web app's offline cache (`apps/web/src/utils/storage.ts`): three IndexedDB object stores
 * keyed by `id`, `id` and `zikrId`, modelled as maps from keys to records. The database handle is
 * opened lazily by whichever operation runs first.
 */
module WebCache {
  import opened Wrappers
  import opened Azkar

  /** A stored zikr: the record spread together with the slug it was saved under. */
  datatype Tagged = Tagged(zikr: Zikr, categorySlug: string)

  function CategoryId(c: Category): int { c.id }
  function TaggedId(t: Tagged): int { t.zikr.id }
  function ProgressId(p: ZikrProgress): int { p.zikrId }

  function Get<T>(m: map<int, T>, k: int): Option<T> {
    if k in m then Some(m[k]) else None
  }

  /** Every record sits under its own key, as a store with a key path keeps it. */
  ghost predicate KeyedBy<T>(m: map<int, T>, key: T -> int) {
    forall k :: k in m ==> key(m[k]) == k
  }

  /** Sequential `put`s of `vs` into `m`, each replacing the record with the same key. */
  function PutAll<T>(m: map<int, T>, vs: seq<T>, key: T -> int): map<int, T>
    decreases |vs|
  {
    if vs == [] then m else PutAll(m, vs[..|vs| - 1], key)[key(vs[|vs| - 1]) := vs[|vs| - 1]]
  }

  /** The last record of `vs` with key `k`, if any. */
  function LastWith<T>(vs: seq<T>, key: T -> int, k: int): (r: Option<T>)
    ensures r.Some? ==> r.value in vs && key(r.value) == k
    ensures r.None? <==> forall v :: v in vs ==> key(v) != k
    decreases |vs|
  {
    if vs == [] then None
    else if key(vs[|vs| - 1]) == k then Some(vs[|vs| - 1])
    else
      assert forall v :: v in vs[..|vs| - 1] ==> v in vs;
      assert vs == vs[..|vs| - 1] + [vs[|vs| - 1]];
      LastWith(vs[..|vs| - 1], key, k)
  }

  /** Last write wins: a key put by `vs` holds its last record, every other key is untouched. */
  lemma {:induction false} PutAllGet<T>(m: map<int, T>, vs: seq<T>, key: T -> int, k: int)
    ensures Get(PutAll(m, vs, key), k) == if LastWith(vs, key, k).Some? then LastWith(vs, key, k) else Get(m, k)
    decreases |vs|
  {
    if vs != [] {
      PutAllGet(m, vs[..|vs| - 1], key, k);
    }
  }

  /** Putting records under their own keys keeps the store keyed. */
  lemma {:induction false} PutAllKeyed<T>(m: map<int, T>, vs: seq<T>, key: T -> int)
    requires KeyedBy(m, key)
    ensures KeyedBy(PutAll(m, vs, key), key)
    decreases |vs|
  {
    if vs != [] {
      PutAllKeyed(m, vs[..|vs| - 1], key);
    }
  }

  /** Every key of `s` is at least `k`. */
  predicate IsMin(s: set<int>, k: int) {
    k in s && forall j :: j in s ==> k <= j
  }

  lemma NonEmptyHas(s: set<int>)
    requires s != {}
    ensures exists k :: k in s
  {
    if forall k :: k in s <==> k in {} {
      assert false;
    }
  }

  lemma {:induction false} MinExists(s: set<int>)
    requires s != {}
    ensures exists k :: IsMin(s, k)
    decreases |s|
  {
    NonEmptyHas(s);
    var x :| x in s;
    if s == {x} {
      assert IsMin(s, x);
    } else {
      MinExists(s - {x});
      var y :| IsMin(s - {x}, y);
      assert forall j :: j in s ==> j == x || j in s - {x};
      if x <= y {
        assert IsMin(s, x);
      } else {
        assert IsMin(s, y);
      }
    }
  }

  ghost predicate Increasing(ks: seq<int>) {
    forall i, j :: 0 <= i < j < |ks| ==> ks[i] < ks[j]
  }

  /** The records of `m` under the keys `ks`, in that order. */
  function ValuesAt<T>(m: map<int, T>, ks: seq<int>): (r: seq<T>)
    requires forall i :: 0 <= i < |ks| ==> ks[i] in m
    ensures |r| == |ks|
    ensures forall i :: 0 <= i < |ks| ==> r[i] == m[ks[i]]
    decreases |ks|
  {
    if ks == [] then [] else ValuesAt(m, ks[..|ks| - 1]) + [m[ks[|ks| - 1]]]
  }

  /** `ks` lists every key of `m` exactly once, in ascending order. */
  ghost predicate SortedKeys<T>(m: map<int, T>, ks: seq<int>) {
    Increasing(ks) && (forall i :: 0 <= i < |ks| ==> ks[i] in m) && (forall k :: k in m ==> k in ks)
  }

  /** `getAll`: `r` holds the records of the store in ascending key order. */
  ghost predicate InKeyOrder<T>(m: map<int, T>, r: seq<T>) {
    exists ks :: SortedKeys(m, ks) && r == ValuesAt(m, ks)
  }

  /** `getAll` lists every record once: the list has the store's size and exactly its records. */
  lemma InKeyOrderExact<T>(m: map<int, T>, r: seq<T>)
    requires InKeyOrder(m, r)
    ensures |r| == |m|
    ensures forall v :: v in r <==> exists k :: k in m && m[k] == v
  {
    var ks :| SortedKeys(m, ks) && r == ValuesAt(m, ks);
    forall v | v in r ensures exists k :: k in m && m[k] == v {
      var i :| 0 <= i < |ks| && r[i] == v;
      assert m[ks[i]] == v;
    }
    forall v | exists k :: k in m && m[k] == v ensures v in r {
      var k :| k in m && m[k] == v;
      var i :| 0 <= i < |ks| && ks[i] == k;
      assert r[i] == v;
    }
    SortedKeysCount(m.Keys, ks);
    assert |m| == |m.Keys|;
  }

  /** An ascending list of distinct keys is as long as the set it covers. */
  lemma {:induction false} SortedKeysCount(s: set<int>, ks: seq<int>)
    requires Increasing(ks)
    requires forall k :: k in s <==> k in ks
    ensures |ks| == |s|
    decreases |ks|
  {
    if ks != [] {
      var last := ks[|ks| - 1];
      var front := ks[..|ks| - 1];
      assert forall k :: k in front ==> k < last by {
        forall k | k in front ensures k < last {
          var i :| 0 <= i < |front| && front[i] == k;
          assert ks[i] == k;
        }
      }
      assert forall k :: k in s - {last} <==> k in front by {
        forall k ensures k in s - {last} <==> k in front {
          assert ks == front + [last];
        }
      }
      assert last in s;
      SortedKeysCount(s - {last}, front);
    } else {
      assert forall k :: k !in s;
      assert s == {};
    }
  }

  /** A keyed store lists its records with strictly increasing keys. */
  lemma InKeyOrderSorted<T>(m: map<int, T>, key: T -> int, r: seq<T>)
    requires KeyedBy(m, key) && InKeyOrder(m, r)
    ensures forall i, j :: 0 <= i < j < |r| ==> key(r[i]) < key(r[j])
  {
    var ks :| SortedKeys(m, ks) && r == ValuesAt(m, ks);
    assert forall i :: 0 <= i < |ks| ==> key(r[i]) == ks[i];
  }

  /** The keys of `m` split into those visited, in ascending order, and those still to visit, all larger. */
  ghost predicate Visiting<T>(m: map<int, T>, keys: set<int>, taken: seq<int>) {
    && keys <= m.Keys
    && (forall i :: 0 <= i < |taken| ==> taken[i] in m && taken[i] !in keys)
    && (forall k :: k in m ==> k in keys || k in taken)
    && Increasing(taken)
    && (forall i, j :: 0 <= i < |taken| && j in keys ==> taken[i] < j)
  }

  /** Visiting the smallest remaining key keeps the split. */
  lemma VisitStep<T>(m: map<int, T>, keys: set<int>, taken: seq<int>, k: int)
    requires Visiting(m, keys, taken) && k in keys && IsMin(keys, k)
    ensures Visiting(m, keys - {k}, taken + [k])
  {
    var t := taken + [k];
    assert forall i :: 0 <= i < |taken| ==> t[i] == taken[i];
    assert t[|taken|] == k;
  }

  /** Reads a store's records by repeatedly taking the smallest key not yet visited. */
  method GetAll<T>(m: map<int, T>) returns (r: seq<T>)
    ensures InKeyOrder(m, r)
  {
    var keys := m.Keys;
    r := [];
    ghost var taken: seq<int> := [];
    while keys != {}
      invariant Visiting(m, keys, taken)
      invariant r == ValuesAt(m, taken)
      decreases |keys|
    {
      MinExists(keys);
      var k :| k in keys && IsMin(keys, k);
      ValuesAtSnoc(m, taken, k);
      VisitStep(m, keys, taken, k);
      r := r + [m[k]];
      taken := taken + [k];
      keys := keys - {k};
    }
    assert SortedKeys(m, taken);
  }

  lemma ValuesAtSnoc<T>(m: map<int, T>, ks: seq<int>, k: int)
    requires forall i :: 0 <= i < |ks| ==> ks[i] in m
    requires k in m
    ensures ValuesAt(m, ks + [k]) == ValuesAt(m, ks) + [m[k]]
  {
    assert (ks + [k])[..|ks|] == ks;
  }

  /** No other stored category has the slug of `c`: the unique `slug` index admits putting `c`. */
  predicate SlugFree(m: map<int, Category>, c: Category) {
    forall k :: k in m && k != c.id ==> m[k].slug != c.slug
  }

  /** Every put of the batch, in turn, is admitted by the unique `slug` index. */
  predicate Admissible(m: map<int, Category>, cs: seq<Category>)
    decreases |cs|
  {
    cs == [] || (Admissible(m, cs[..|cs| - 1]) && SlugFree(PutAll(m, cs[..|cs| - 1], CategoryId), cs[|cs| - 1]))
  }

  lemma {:induction false} AdmissiblePrefix(m: map<int, Category>, cs: seq<Category>, i: nat)
    requires i <= |cs| && Admissible(m, cs)
    ensures Admissible(m, cs[..i])
    decreases |cs|
  {
    if i == |cs| {
      assert cs[..i] == cs;
    } else {
      assert cs[..|cs| - 1][..i] == cs[..i];
      AdmissiblePrefix(m, cs[..|cs| - 1], i);
    }
  }

  ghost predicate SlugsUnique(m: map<int, Category>) {
    forall a, b :: a in m && b in m && a != b ==> m[a].slug != m[b].slug
  }

  /** An admitted batch keeps slugs unique. */
  lemma {:induction false} AdmissibleUnique(m: map<int, Category>, cs: seq<Category>)
    requires KeyedBy(m, CategoryId) && SlugsUnique(m) && Admissible(m, cs)
    ensures SlugsUnique(PutAll(m, cs, CategoryId))
    decreases |cs|
  {
    if cs != [] {
      AdmissibleUnique(m, cs[..|cs| - 1]);
      PutAllKeyed(m, cs[..|cs| - 1], CategoryId);
    }
  }

  /** `{ ...zikr, categorySlug }` for each zikr. */
  function Tag(zs: seq<Zikr>, slug: string): (r: seq<Tagged>)
    ensures |r| == |zs|
  {
    seq(|zs|, i requires 0 <= i < |zs| => Tagged(zs[i], slug))
  }

  /** The `categorySlug` index lookup: the stored records saved under `slug`. */
  function BySlug(m: map<int, Tagged>, slug: string): map<int, Tagged> {
    map k | k in m && m[k].categorySlug == slug :: m[k]
  }

  /** The destructuring `({ categorySlug, ...zikr }) => zikr`. */
  function Untag(ts: seq<Tagged>): (r: seq<Zikr>)
    ensures |r| == |ts|
  {
    seq(|ts|, i requires 0 <= i < |ts| => ts[i].zikr)
  }

  /** After `saveAzkar(zs, slug)` every id of `zs` is stored under `slug`, whatever slug it had before. */
  lemma SaveAzkarRetags(m: map<int, Tagged>, zs: seq<Zikr>, slug: string, id: int)
    requires exists z :: z in zs && z.id == id
    ensures id in PutAll(m, Tag(zs, slug), TaggedId)
    ensures PutAll(m, Tag(zs, slug), TaggedId)[id].categorySlug == slug
    ensures forall other :: other != slug ==> id !in BySlug(PutAll(m, Tag(zs, slug), TaggedId), other)
  {
    var z :| z in zs && z.id == id;
    var i :| 0 <= i < |zs| && zs[i] == z;
    assert Tag(zs, slug)[i] in Tag(zs, slug);
    PutAllGet(m, Tag(zs, slug), TaggedId, id);
  }

  /** `getAzkarByCategory` lists exactly the records stored under the slug, without the tag. */
  lemma BySlugExact(m: map<int, Tagged>, slug: string, ts: seq<Tagged>)
    requires InKeyOrder(BySlug(m, slug), ts)
    ensures forall z :: z in Untag(ts) <==> exists k :: k in m && m[k] == Tagged(z, slug)
  {
    InKeyOrderExact(BySlug(m, slug), ts);
    forall z | z in Untag(ts) ensures exists k :: k in m && m[k] == Tagged(z, slug) {
      BySlugSound(m, slug, ts, z);
    }
    forall z | exists k :: k in m && m[k] == Tagged(z, slug) ensures z in Untag(ts) {
      var k :| k in m && m[k] == Tagged(z, slug);
      BySlugComplete(m, slug, ts, k);
    }
  }

  lemma BySlugSound(m: map<int, Tagged>, slug: string, ts: seq<Tagged>, z: Zikr)
    requires forall v :: v in ts <==> exists k :: k in BySlug(m, slug) && BySlug(m, slug)[k] == v
    requires z in Untag(ts)
    ensures exists k :: k in m && m[k] == Tagged(z, slug)
  {
    var i :| 0 <= i < |ts| && Untag(ts)[i] == z;
    assert ts[i] in ts;
    var k :| k in BySlug(m, slug) && BySlug(m, slug)[k] == ts[i];
    assert m[k] == Tagged(z, slug);
  }

  lemma BySlugComplete(m: map<int, Tagged>, slug: string, ts: seq<Tagged>, k: int)
    requires forall v :: v in ts <==> exists k :: k in BySlug(m, slug) && BySlug(m, slug)[k] == v
    requires k in m && m[k].categorySlug == slug
    ensures m[k].zikr in Untag(ts)
  {
    assert k in BySlug(m, slug) && BySlug(m, slug)[k] == m[k];
    assert m[k] in ts;
    var i :| 0 <= i < |ts| && ts[i] == m[k];
    assert Untag(ts)[i] == m[k].zikr;
  }

  class OfflineStorage {
    /** Whether `db` holds an open handle. */
    var isOpen: bool
    var categories: map<int, Category>
    var azkar: map<int, Tagged>
    var progress: map<int, ZikrProgress>

    ghost predicate Valid()
      reads this`categories, this`azkar, this`progress
    {
      KeyedBy(categories, CategoryId) && SlugsUnique(categories) && KeyedBy(azkar, TaggedId) && KeyedBy(progress, ProgressId)
    }

    /**
     * A fresh handle over whatever the database already holds. IndexedDB keeps every record under
     * its key path and the slug index unique, so existing data already satisfies `Valid`.
     */
    constructor(categories: map<int, Category>, azkar: map<int, Tagged>, progress: map<int, ZikrProgress>)
      requires KeyedBy(categories, CategoryId) && SlugsUnique(categories)
      requires KeyedBy(azkar, TaggedId) && KeyedBy(progress, ProgressId)
      ensures Valid() && !isOpen
      ensures this.categories == categories && this.azkar == azkar && this.progress == progress
    {
      isOpen := false;
      this.categories := categories;
      this.azkar := azkar;
      this.progress := progress;
    }

    /** `init`: opens the database; the upgrade step creates only missing stores, so no data changes. */
    method Init()
      modifies this`isOpen
      ensures isOpen
    {
      isOpen := true;
    }

    /** `saveCategories`: one transaction of puts; a put refused by the unique slug index aborts it all. */
    method SaveCategories(cs: seq<Category>) returns (ok: bool)
      requires Valid()
      modifies this`isOpen, this`categories
      ensures Valid() && isOpen
      ensures ok == Admissible(old(categories), cs)
      ensures categories == if ok then PutAll(old(categories), cs, CategoryId) else old(categories)
    {
      if !isOpen {
        Init();
      }
      var m := categories;
      var i := 0;
      ok := true;
      while i < |cs| && ok
        invariant 0 <= i <= |cs|
        invariant isOpen && categories == old(categories)
        invariant ok ==> Admissible(categories, cs[..i]) && m == PutAll(categories, cs[..i], CategoryId)
        invariant !ok ==> !Admissible(categories, cs)
      {
        assert cs[..i + 1][..i] == cs[..i];
        if SlugFree(m, cs[i]) {
          m := m[cs[i].id := cs[i]];
        } else {
          ok := false;
          if Admissible(categories, cs) {
            AdmissiblePrefix(categories, cs, i + 1);
          }
        }
        i := i + 1;
      }
      if ok {
        assert cs[..i] == cs;
        AdmissibleUnique(categories, cs);
        PutAllKeyed(categories, cs, CategoryId);
        categories := m;
      }
    }

    /** `getCategories`: every stored category in ascending id order. */
    method GetCategories() returns (r: seq<Category>)
      modifies this`isOpen
      ensures isOpen
      ensures InKeyOrder(categories, r)
    {
      if !isOpen {
        Init();
      }
      r := GetAll(categories);
    }

    /** `saveAzkar`: tags each zikr with the slug and puts it by id. */
    method SaveAzkar(zs: seq<Zikr>, slug: string)
      requires Valid()
      modifies this`isOpen, this`azkar
      ensures Valid() && isOpen
      ensures azkar == PutAll(old(azkar), Tag(zs, slug), TaggedId)
    {
      if !isOpen {
        Init();
      }
      var tagged := Tag(zs, slug);
      var i := 0;
      PutAllKeyed(azkar, tagged, TaggedId);
      ghost var start := azkar;
      while i < |tagged|
        invariant 0 <= i <= |tagged|
        invariant isOpen
        invariant azkar == PutAll(start, tagged[..i], TaggedId)
      {
        assert tagged[..i + 1][..i] == tagged[..i];
        azkar := azkar[tagged[i].zikr.id := tagged[i]];
        i := i + 1;
      }
      assert tagged[..i] == tagged;
    }

    /** `getAzkarByCategory`: the records saved under the slug in ascending id order, untagged. */
    method GetAzkarByCategory(slug: string) returns (r: seq<Zikr>)
      modifies this`isOpen
      ensures isOpen
      ensures exists ts :: InKeyOrder(BySlug(azkar, slug), ts) && r == Untag(ts)
    {
      if !isOpen {
        Init();
      }
      var ts := GetAll(BySlug(azkar, slug));
      r := Untag(ts);
    }

    /** `saveProgress`: puts the record by zikr id; `now` is the clock reading of the save. */
    method SaveProgress(zikrId: int, currentCount: int, targetCount: int, now: string)
      requires Valid()
      modifies this`isOpen, this`progress
      ensures Valid() && isOpen
      ensures progress == old(progress)[zikrId := ZikrProgress(zikrId, currentCount, targetCount, now)]
    {
      if !isOpen {
        Init();
      }
      progress := progress[zikrId := ZikrProgress(zikrId, currentCount, targetCount, now)];
      assert KeyedBy(progress, ProgressId);
    }

    /** `getProgress`: the record stored for the id, or undefined. */
    method GetProgress(zikrId: int) returns (r: Option<ZikrProgress>)
      modifies this`isOpen
      ensures isOpen
      ensures r == Get(progress, zikrId)
    {
      if !isOpen {
        Init();
      }
      r := Get(progress, zikrId);
    }

    method GetAllProgress() returns (r: seq<ZikrProgress>)
      modifies this`isOpen
      ensures isOpen
      ensures InKeyOrder(progress, r)
    {
      if !isOpen {
        Init();
      }
      r := GetAll(progress);
    }

    /** `clearProgress`: empties the progress store only. */
    method ClearProgress()
      modifies this`isOpen, this`progress
      ensures isOpen && progress == map[]
    {
      if !isOpen {
        Init();
      }
      progress := map[];
    }

    /** `clearAllData`: empties all three stores. */
    method ClearAllData()
      modifies this`isOpen, this`categories, this`azkar, this`progress
      ensures isOpen && categories == map[] && azkar == map[] && progress == map[]
    {
      if !isOpen {
        Init();
      }
      categories := map[];
      azkar := map[];
      progress := map[];
    }

    /** `isDataAvailable`: true iff the categories store holds a record. */
    method IsDataAvailable() returns (b: bool)
      modifies this`isOpen
      ensures isOpen
      ensures b <==> categories != map[]
    {
      if !isOpen {
        Init();
      }
      var cs := GetCategories();
      InKeyOrderExact(categories, cs);
      b := |cs| > 0;
    }
  }
}
