/**
 * The mobile remembrance list (`apps/mobile/src/components/AzkarList.tsx`): one counter per zikr,
 * every change written through to the device's progress list, whose failed writes are swallowed.
 */
module MobileAzkarList {
  import opened Wrappers
  import opened Azkar
  import opened AzkarProgress
  import opened MobileCache

  /** The count the load loop recalls for each id from the stored progress list. */
  function Saved(ps: seq<ZikrProgress>): int -> int {
    id => Recalled(FindId(ps, id))
  }

  /** The stored progress list after reset-all has upserted a zeroed record for each zikr in turn. */
  function SavedFresh(ps: seq<ZikrProgress>, zs: seq<Zikr>, now: string): seq<ZikrProgress>
    decreases |zs|
  {
    if zs == [] then ps
    else Upsert(SavedFresh(ps, zs[..|zs| - 1], now), ZikrProgress(zs[|zs| - 1].id, 0, zs[|zs| - 1].repeatMin, now))
  }

  /** Every id of the list is found at zero; every other id finds what it found before. */
  lemma {:induction false} SavedFreshFind(ps: seq<ZikrProgress>, zs: seq<Zikr>, now: string)
    ensures forall k :: k in Loaded(zs, NoneSaved) ==>
              FindId(SavedFresh(ps, zs, now), k).Some? && FindId(SavedFresh(ps, zs, now), k).value.currentCount == 0
    ensures forall k :: k !in Loaded(zs, NoneSaved) ==> FindId(SavedFresh(ps, zs, now), k) == FindId(ps, k)
    decreases |zs|
  {
    if zs != [] {
      var front := zs[..|zs| - 1];
      var z := zs[|zs| - 1];
      SavedFreshFind(ps, front, now);
      forall k ensures FindId(SavedFresh(ps, zs, now), k) ==
                       if k == z.id then Some(ZikrProgress(z.id, 0, z.repeatMin, now)) else FindId(SavedFresh(ps, front, now), k) {
        UpsertFind(SavedFresh(ps, front, now), ZikrProgress(z.id, 0, z.repeatMin, now), k);
      }
    }
  }

  /** After reset-all every counter of the list reads back from the stored list as zero. */
  lemma SavedFreshSynced(ps: seq<ZikrProgress>, zs: seq<Zikr>, now: string)
    ensures forall k :: k in Loaded(zs, NoneSaved) ==>
              Recalled(FindId(SavedFresh(ps, zs, now), k)) == Loaded(zs, NoneSaved)[k].currentCount
  {
    SavedFreshFind(ps, zs, now);
    LoadedShape(zs, NoneSaved);
  }

  /** The store apart from the progress entry. */
  function Others(m: map<string, Blob>): map<string, Blob> {
    m - {ProgressKey}
  }

  /** Overwriting the progress entry leaves the rest of the store as it was. */
  lemma KeptOutside(m: map<string, Blob>, v: Blob)
    ensures Others(m[ProgressKey := v]) == Others(m)
  {
  }

  class AzkarList {
    var azkar: seq<Zikr>
    var progress: map<int, Counter>
    const storage: MobileStorage

    /** Every counter on screen shows the count the stored list would give back for its id. */
    ghost predicate Synced()
      reads this, storage
    {
      forall k :: k in progress ==> Recalled(storage.GetProgress(k)) == progress[k].currentCount
    }

    constructor(storage: MobileStorage)
      ensures azkar == [] && progress == map[] && this.storage == storage
      ensures Synced()
    {
      azkar := [];
      progress := map[];
      this.storage := storage;
    }

    /** `loadAzkar` once the list is fetched: each zikr's stored count and its own target. */
    method Load(azkarData: seq<Zikr>)
      modifies this
      ensures azkar == azkarData
      ensures progress == Loaded(azkarData, Saved(storage.GetAllProgress()))
      ensures Synced()
    {
      var data := map[];
      var i := 0;
      while i < |azkarData|
        invariant 0 <= i <= |azkarData|
        invariant data == Loaded(azkarData[..i], Saved(storage.GetAllProgress()))
      {
        var z := azkarData[i];
        var saved := storage.GetProgress(z.id);
        data := data[z.id := Counter(Recalled(saved), z.repeatMin)];
        assert azkarData[..i + 1][..i] == azkarData[..i];
        i := i + 1;
      }
      assert azkarData[..i] == azkarData;
      azkar := azkarData;
      progress := data;
      LoadedShape(azkarData, Saved(storage.GetAllProgress()));
    }

    /** `handleIncrement`: an unknown id is ignored; otherwise the count rises by one up to its target and is stored. */
    method Increment(zikrId: int, now: string)
      modifies this`progress, storage`items
      ensures zikrId !in old(progress) ==> progress == old(progress) && storage.items == old(storage.items)
      ensures zikrId in old(progress) ==>
                var c := Bump(old(progress)[zikrId]);
                var rec := ZikrProgress(zikrId, c.currentCount, c.targetCount, now);
                && progress == old(progress)[zikrId := c]
                && storage.items == if storage.writable then old(storage.items)[ProgressKey := ProgressList(Upsert(old(storage.GetAllProgress()), rec))]
                                    else old(storage.items)
      ensures storage.writable && old(Synced()) ==> Synced()
    {
      if zikrId !in progress {
        return;
      }
      var c := Bump(progress[zikrId]);
      progress := progress[zikrId := c];
      storage.SaveProgress(zikrId, c.currentCount, c.targetCount, now);
    }

    /** `handleReset`: an unknown id is ignored; otherwise its count goes back to zero, stored. */
    method Reset(zikrId: int, now: string)
      modifies this`progress, storage`items
      ensures zikrId !in old(progress) ==> progress == old(progress) && storage.items == old(storage.items)
      ensures zikrId in old(progress) ==>
                var rec := ZikrProgress(zikrId, 0, old(progress)[zikrId].targetCount, now);
                && progress == old(progress)[zikrId := Zeroed(old(progress)[zikrId])]
                && storage.items == if storage.writable then old(storage.items)[ProgressKey := ProgressList(Upsert(old(storage.GetAllProgress()), rec))]
                                    else old(storage.items)
      ensures storage.writable && old(Synced()) ==> Synced()
    {
      if zikrId !in progress {
        return;
      }
      var c := Zeroed(progress[zikrId]);
      progress := progress[zikrId := c];
      storage.SaveProgress(zikrId, 0, c.targetCount, now);
    }

    /**
     * `resetAllProgress`: when the confirmation is accepted, every zikr zeroed with its own target,
     * each stored in turn; when it is cancelled nothing changes.
     */
    method ResetAll(confirmed: bool, now: string)
      modifies this`progress, storage`items
      ensures !confirmed ==> progress == old(progress) && storage.items == old(storage.items)
      ensures confirmed ==> progress == Loaded(azkar, NoneSaved)
      ensures confirmed && storage.writable ==> storage.GetAllProgress() == SavedFresh(old(storage.GetAllProgress()), azkar, now)
      ensures storage.items - {ProgressKey} == old(storage.items) - {ProgressKey}
      ensures !storage.writable ==> storage.items == old(storage.items)
      ensures confirmed && storage.writable ==> Synced()
    {
      if !confirmed {
        return;
      }
      ghost var start := storage.GetAllProgress();
      progress := SaveAllZeroed(now);
      SavedFreshSynced(start, azkar, now);
    }

    /** The loop of `resetAllProgress`: the zeroed counters, each record saved in list order. */
    method SaveAllZeroed(now: string) returns (zeroed: map<int, Counter>)
      modifies storage`items
      ensures zeroed == Loaded(azkar, NoneSaved)
      ensures storage.writable ==> storage.GetAllProgress() == SavedFresh(old(storage.GetAllProgress()), azkar, now)
      ensures storage.items - {ProgressKey} == old(storage.items) - {ProgressKey}
      ensures !storage.writable ==> storage.items == old(storage.items)
    {
      ghost var start := storage.GetAllProgress();
      zeroed := map[];
      var i := 0;
      while i < |azkar|
        invariant 0 <= i <= |azkar|
        invariant zeroed == Loaded(azkar[..i], NoneSaved)
        invariant storage.writable ==> storage.GetAllProgress() == SavedFresh(start, azkar[..i], now)
        invariant Others(storage.items) == Others(old(storage.items))
        invariant !storage.writable ==> storage.items == old(storage.items)
      {
        var z := azkar[i];
        zeroed := zeroed[z.id := Counter(0, z.repeatMin)];
        ghost var before := storage.items;
        assert azkar[..i + 1][..i] == azkar[..i];
        assert zeroed == Loaded(azkar[..i + 1], NoneSaved);
        assert SavedFresh(start, azkar[..i + 1], now) == Upsert(SavedFresh(start, azkar[..i], now), ZikrProgress(z.id, 0, z.repeatMin, now));
        storage.SaveProgress(z.id, 0, z.repeatMin, now);
        if storage.writable {
          KeptOutside(before, storage.items[ProgressKey]);
        }
        i := i + 1;
      }
      assert azkar[..i] == azkar;
    }
  }
}
