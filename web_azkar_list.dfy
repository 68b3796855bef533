/**
 * The web remembrance list (`apps/web/src/components/AzkarList.tsx`): one counter per zikr, every
 * change written through to the IndexedDB progress store, and a cursor on the current card.
 */
module WebAzkarList {
  import opened Wrappers
  import opened Azkar
  import opened AzkarProgress
  import opened WebCache

  /** The count the load loop recalls for each id from the progress store. */
  function Saved(m: map<int, ZikrProgress>): int -> int {
    id => Recalled(Get(m, id))
  }

  /** The progress store after reset-all has written a zeroed record for each zikr in turn. */
  function SavedFresh(m: map<int, ZikrProgress>, zs: seq<Zikr>, now: string): map<int, ZikrProgress>
    decreases |zs|
  {
    if zs == [] then m
    else SavedFresh(m, zs[..|zs| - 1], now)[zs[|zs| - 1].id := ZikrProgress(zs[|zs| - 1].id, 0, zs[|zs| - 1].repeatMin, now)]
  }

  /** Every id of the list has a stored record at zero; every other stored record is untouched. */
  lemma {:induction false} SavedFreshAt(m: map<int, ZikrProgress>, zs: seq<Zikr>, now: string)
    ensures forall k :: k in Loaded(zs, NoneSaved) ==> k in SavedFresh(m, zs, now) && SavedFresh(m, zs, now)[k].currentCount == 0
    ensures forall k :: k !in Loaded(zs, NoneSaved) ==> Get(SavedFresh(m, zs, now), k) == Get(m, k)
    decreases |zs|
  {
    if zs != [] {
      SavedFreshAt(m, zs[..|zs| - 1], now);
    }
  }

  class AzkarList {
    var azkar: seq<Zikr>
    var progress: map<int, Counter>
    var currentIndex: int
    const storage: OfflineStorage

    /** Every counter on screen shows the count the progress store would give back for its id. */
    ghost predicate Synced()
      reads this, storage
    {
      forall k :: k in progress ==> Recalled(Get(storage.progress, k)) == progress[k].currentCount
    }

    constructor(storage: OfflineStorage)
      ensures azkar == [] && progress == map[] && currentIndex == 0 && this.storage == storage
      ensures Synced()
    {
      azkar := [];
      progress := map[];
      currentIndex := 0;
      this.storage := storage;
    }

    /** `loadAzkar` once the list is fetched: each zikr's stored count and its own target. */
    method Load(azkarData: seq<Zikr>)
      modifies this`azkar, this`progress, storage`isOpen
      ensures storage.isOpen == (old(storage.isOpen) || azkarData != [])
      ensures azkar == azkarData
      ensures progress == Loaded(azkarData, Saved(storage.progress))
      ensures Synced()
    {
      var data := map[];
      var i := 0;
      while i < |azkarData|
        invariant 0 <= i <= |azkarData|
        invariant storage.isOpen == (old(storage.isOpen) || i > 0)
        invariant data == Loaded(azkarData[..i], Saved(storage.progress))
      {
        var z := azkarData[i];
        var saved := storage.GetProgress(z.id);
        data := data[z.id := Counter(Recalled(saved), z.repeatMin)];
        assert azkarData[..i + 1][..i] == azkarData[..i];
        i := i + 1;
      }
      assert azkarData[..i] == azkarData;
      azkar := azkarData;
      progress := data;
      LoadedShape(azkarData, Saved(storage.progress));
    }

    /**
     * `handleIncrement`: an unknown id is ignored; otherwise the count rises by one up to its
     * target and is stored, and a counter that reaches its target moves the cursor to the next card
     * unless it is on the last one.
     */
    method Increment(zikrId: int, now: string)
      requires storage.Valid()
      modifies this`progress, this`currentIndex, storage`isOpen, storage`progress
      ensures storage.Valid()
      ensures zikrId !in old(progress) ==>
                progress == old(progress) && currentIndex == old(currentIndex) && storage.progress == old(storage.progress)
      ensures zikrId in old(progress) ==>
                var c := Bump(old(progress)[zikrId]);
                && progress == old(progress)[zikrId := c]
                && storage.progress == old(storage.progress)[zikrId := ZikrProgress(zikrId, c.currentCount, c.targetCount, now)]
                && currentIndex == if IsDone(c) && old(currentIndex) < |azkar| - 1 then old(currentIndex) + 1 else old(currentIndex)
      ensures old(Synced()) ==> Synced()
    {
      if zikrId !in progress {
        return;
      }
      var c := Bump(progress[zikrId]);
      progress := progress[zikrId := c];
      storage.SaveProgress(zikrId, c.currentCount, c.targetCount, now);
      if IsDone(c) && currentIndex < |azkar| - 1 {
        currentIndex := currentIndex + 1;
      }
    }

    /** `handleReset`: an unknown id is ignored; otherwise its count goes back to zero, stored. */
    method Reset(zikrId: int, now: string)
      requires storage.Valid()
      modifies this`progress, storage`isOpen, storage`progress
      ensures storage.Valid()
      ensures zikrId !in old(progress) ==> progress == old(progress) && storage.progress == old(storage.progress)
      ensures zikrId in old(progress) ==>
                && progress == old(progress)[zikrId := Zeroed(old(progress)[zikrId])]
                && storage.progress == old(storage.progress)[zikrId := ZikrProgress(zikrId, 0, old(progress)[zikrId].targetCount, now)]
      ensures old(Synced()) ==> Synced()
    {
      if zikrId !in progress {
        return;
      }
      var c := Zeroed(progress[zikrId]);
      progress := progress[zikrId := c];
      storage.SaveProgress(zikrId, 0, c.targetCount, now);
    }

    /** `resetAllProgress`: every zikr zeroed with its own target, each stored in turn; the cursor back to the first card. */
    method ResetAll(now: string)
      requires storage.Valid()
      modifies this`progress, this`currentIndex, storage`isOpen, storage`progress
      ensures storage.Valid()
      ensures progress == Loaded(azkar, NoneSaved) && currentIndex == 0
      ensures storage.progress == SavedFresh(old(storage.progress), azkar, now)
      ensures Synced()
    {
      var zeroed := map[];
      var i := 0;
      while i < |azkar|
        invariant 0 <= i <= |azkar|
        invariant storage.Valid()
        invariant zeroed == Loaded(azkar[..i], NoneSaved)
        invariant storage.progress == SavedFresh(old(storage.progress), azkar[..i], now)
      {
        var z := azkar[i];
        zeroed := zeroed[z.id := Counter(0, z.repeatMin)];
        storage.SaveProgress(z.id, 0, z.repeatMin, now);
        assert azkar[..i + 1][..i] == azkar[..i];
        i := i + 1;
      }
      assert azkar[..i] == azkar;
      progress := zeroed;
      currentIndex := 0;
      SavedFreshAt(old(storage.progress), azkar, now);
      LoadedShape(azkar, NoneSaved);
    }
  }
}
