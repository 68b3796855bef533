/**
 * The per-zikr counters both remembrance lists keep (`apps/web/src/components/AzkarList.tsx` and
 * `apps/mobile/src/components/AzkarList.tsx`): a map from zikr id to the taps made and the target.
 */
module AzkarProgress {
  import opened Wrappers
  import opened Azkar

  datatype Counter = Counter(currentCount: int, targetCount: int)

  predicate IsDone(c: Counter) {
    c.currentCount >= c.targetCount
  }

  /** A tap: `Math.min(currentCount + 1, targetCount)`, the target kept. */
  function Bump(c: Counter): (d: Counter)
    ensures d.targetCount == c.targetCount
    ensures d.currentCount <= c.targetCount
    ensures c.currentCount < c.targetCount ==> d.currentCount == c.currentCount + 1
    ensures c.currentCount >= c.targetCount ==> d.currentCount == c.targetCount
    ensures IsDone(d) <==> c.currentCount + 1 >= c.targetCount
  {
    c.(currentCount := if c.currentCount + 1 < c.targetCount then c.currentCount + 1 else c.targetCount)
  }

  /** `handleReset`: the count back to zero, the target kept. */
  function Zeroed(c: Counter): Counter {
    c.(currentCount := 0)
  }

  /** The ids whose counter has reached its target. */
  function DoneIds(p: map<int, Counter>): set<int> {
    set k | k in p && IsDone(p[k])
  }

  /** `totalCompleted`: how many counters have reached their target. */
  function TotalCompleted(p: map<int, Counter>): (n: nat)
    ensures n <= |p|
  {
    assert DoneIds(p) <= p.Keys;
    SubsetCard(DoneIds(p), p.Keys);
    |DoneIds(p)|
  }

  lemma {:induction false} SubsetCard(a: set<int>, b: set<int>)
    requires a <= b
    ensures |a| <= |b|
  {
    assert b == a + (b - a);
  }

  /** Replacing one counter changes the tally by what that counter's completion changed. */
  lemma UpdateTally(p: map<int, Counter>, id: int, c: Counter)
    ensures TotalCompleted(p[id := c]) ==
            TotalCompleted(p) - (if id in p && IsDone(p[id]) then 1 else 0) + (if IsDone(c) then 1 else 0)
  {
    var rest := DoneIds(p) - {id};
    assert DoneIds(p) == if id in p && IsDone(p[id]) then rest + {id} else rest;
    assert DoneIds(p[id := c]) == if IsDone(c) then rest + {id} else rest;
  }

  /** A tap adds at most one completion and never removes one. */
  lemma BumpTally(p: map<int, Counter>, id: int)
    requires id in p
    ensures TotalCompleted(p) <= TotalCompleted(p[id := Bump(p[id])]) <= TotalCompleted(p) + 1
  {
    UpdateTally(p, id, Bump(p[id]));
  }

  /** Resetting one counter removes at most one completion and never adds one. */
  lemma ZeroedTally(p: map<int, Counter>, id: int)
    requires id in p && p[id].targetCount > 0
    ensures TotalCompleted(p[id := Zeroed(p[id])]) == TotalCompleted(p) - (if IsDone(p[id]) then 1 else 0)
  {
    UpdateTally(p, id, Zeroed(p[id]));
  }

  /**
   * The load and reset-all loops: each zikr in turn gets the saved count for its id and its own
   * `repeatMin` as target; a later zikr with the same id overwrites an earlier one.
   */
  function Loaded(zs: seq<Zikr>, saved: int -> int): map<int, Counter>
    decreases |zs|
  {
    if zs == [] then map[]
    else Loaded(zs[..|zs| - 1], saved)[zs[|zs| - 1].id := Counter(saved(zs[|zs| - 1].id), zs[|zs| - 1].repeatMin)]
  }

  /** `savedProgress?.currentCount || 0`: the stored count, or zero when nothing is stored. */
  function Recalled(saved: Option<ZikrProgress>): int {
    if saved.Some? then saved.value.currentCount else 0
  }

  /**
   * The loaded map holds exactly the ids of the list; each count is the one saved for its id and
   * each target is the `repeatMin` of a zikr carrying that id.
   */
  lemma {:induction false} LoadedShape(zs: seq<Zikr>, saved: int -> int)
    ensures forall k :: k in Loaded(zs, saved) <==> exists i :: 0 <= i < |zs| && zs[i].id == k
    ensures forall k :: k in Loaded(zs, saved) ==> Loaded(zs, saved)[k].currentCount == saved(k)
    ensures forall k :: k in Loaded(zs, saved) ==>
              exists i :: 0 <= i < |zs| && zs[i].id == k && Loaded(zs, saved)[k].targetCount == zs[i].repeatMin
    decreases |zs|
  {
    if zs != [] {
      var front := zs[..|zs| - 1];
      var last := |zs| - 1;
      LoadedShape(front, saved);
      forall k | k in Loaded(zs, saved)
        ensures exists i :: 0 <= i < |zs| && zs[i].id == k && Loaded(zs, saved)[k].targetCount == zs[i].repeatMin
      {
        if k != zs[last].id {
          var i :| 0 <= i < |front| && front[i].id == k && Loaded(front, saved)[k].targetCount == front[i].repeatMin;
          assert zs[i] == front[i];
        }
      }
      forall k ensures k in Loaded(zs, saved) <==> exists i :: 0 <= i < |zs| && zs[i].id == k {
        if k in Loaded(front, saved) {
          var i :| 0 <= i < |front| && front[i].id == k;
          assert zs[i].id == k;
        }
        if i :| 0 <= i < |zs| && zs[i].id == k {
          if i < |front| {
            assert front[i].id == k;
          }
        }
      }
    }
  }

  /** No two zikr share an id. */
  predicate DistinctIds(zs: seq<Zikr>) {
    forall i, j :: 0 <= i < j < |zs| ==> zs[i].id != zs[j].id
  }

  /** With distinct ids each zikr's entry holds the saved count and its own target, whatever target was saved. */
  lemma {:induction false} LoadedAt(zs: seq<Zikr>, saved: int -> int)
    requires DistinctIds(zs)
    ensures forall i :: 0 <= i < |zs| ==> zs[i].id in Loaded(zs, saved)
    ensures forall i :: 0 <= i < |zs| ==> Loaded(zs, saved)[zs[i].id] == Counter(saved(zs[i].id), zs[i].repeatMin)
    decreases |zs|
  {
    if zs != [] {
      var front := zs[..|zs| - 1];
      assert DistinctIds(front) by {
        forall i, j | 0 <= i < j < |front| ensures front[i].id != front[j].id {
          assert front[i] == zs[i] && front[j] == zs[j];
        }
      }
      LoadedAt(front, saved);
      LoadedShape(front, saved);
      LoadedShape(zs, saved);
      forall i | 0 <= i < |zs| ensures Loaded(zs, saved)[zs[i].id] == Counter(saved(zs[i].id), zs[i].repeatMin) {
        if i < |front| {
          assert front[i] == zs[i];
        }
      }
    }
  }

  function NoneSaved(id: int): int { 0 }

  /** After reset-all every counter is at zero, so with positive targets none is completed. */
  lemma FreshTally(zs: seq<Zikr>)
    requires forall i :: 0 <= i < |zs| ==> zs[i].repeatMin >= 1
    ensures TotalCompleted(Loaded(zs, NoneSaved)) == 0
  {
    FreshNoneDone(zs);
  }

  lemma {:induction false} FreshNoneDone(zs: seq<Zikr>)
    requires forall i :: 0 <= i < |zs| ==> zs[i].repeatMin >= 1
    ensures DoneIds(Loaded(zs, NoneSaved)) == {}
    decreases |zs|
  {
    if zs != [] {
      FreshNoneDone(zs[..|zs| - 1]);
      assert zs[|zs| - 1].repeatMin >= 1;
    }
  }
}
