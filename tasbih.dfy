/**
 * The tasbih counter (`apps/web/src/components/TasbihCounter.tsx`, and the same handlers in
 * `apps/mobile/src/components/TasbihCounter.tsx`): a selected sequence of phrases, each to be
 * repeated its own number of times, walked through one tap at a time.
 */
module Tasbih {
  import opened Wrappers

  datatype TasbihItem = TasbihItem(textAr: string, count: int)
  datatype TasbihOption = TasbihOption(nameAr: string, items: seq<TasbihItem>)

  /** Where the walk stands: the current item, the taps on it, and whether the sequence is done. */
  datatype Position = Position(index: int, count: int, completed: bool)

  const Start: Position := Position(0, 0, false)

  /** A sequence that can be walked: at least one item, each needing at least one tap. */
  predicate WellFormed(items: seq<TasbihItem>) {
    |items| > 0 && forall i :: 0 <= i < |items| ==> items[i].count >= 1
  }

  /** The position stays on an item and below that item's target. */
  predicate OnTrack(items: seq<TasbihItem>, p: Position) {
    0 <= p.index < |items| && 0 <= p.count < items[p.index].count
  }

  /** The sum of the targets; `reduce((sum, item) => sum + item.count, 0)`. */
  function Sum(items: seq<TasbihItem>): int
    decreases |items|
  {
    if items == [] then 0 else Sum(items[..|items| - 1]) + items[|items| - 1].count
  }

  lemma {:induction false} SumPositive(items: seq<TasbihItem>)
    requires forall i :: 0 <= i < |items| ==> items[i].count >= 1
    ensures Sum(items) >= |items|
    decreases |items|
  {
    if items != [] {
      SumPositive(items[..|items| - 1]);
    }
  }

  /** Taps made so far: the targets of the finished items plus the taps on the current one. */
  function Done(items: seq<TasbihItem>, p: Position): int
    requires 0 <= p.index <= |items|
  {
    Sum(items[..p.index]) + p.count
  }

  /**
   * `handleIncrement` on the position: a tap below the target counts; a tap reaching it moves to
   * the next item with a zero count, or on the last item marks the sequence completed and leaves
   * the count. It does nothing once completed, and nothing when there is no current item (the
   * handler throws reading `count` of `undefined`).
   */
  function Advance(items: seq<TasbihItem>, p: Position): Position {
    if p.completed || !(0 <= p.index < |items|) then p
    else if p.count + 1 >= items[p.index].count then
      if p.index < |items| - 1 then Position(p.index + 1, 0, false) else p.(completed := true)
    else p.(count := p.count + 1)
  }

  /** A tap keeps the walk on track. */
  lemma AdvanceOnTrack(items: seq<TasbihItem>, p: Position)
    requires WellFormed(items) && OnTrack(items, p)
    ensures OnTrack(items, Advance(items, p))
  {
  }

  lemma SumSnoc(items: seq<TasbihItem>, i: int)
    requires 0 <= i < |items|
    ensures Sum(items[..i + 1]) == Sum(items[..i]) + items[i].count
  {
    assert items[..i + 1][..i] == items[..i];
  }

  /** Every tap before completion adds exactly one to the taps done; the completing tap adds none. */
  lemma AdvanceDone(items: seq<TasbihItem>, p: Position)
    requires WellFormed(items) && OnTrack(items, p) && !p.completed
    ensures Advance(items, p).completed ==> Done(items, Advance(items, p)) == Done(items, p) == Sum(items) - 1
    ensures !Advance(items, p).completed ==> Done(items, Advance(items, p)) == Done(items, p) + 1
  {
    SumSnoc(items, p.index);
    if p.index == |items| - 1 {
      assert items[..p.index + 1] == items;
    }
  }

  /** `n` taps from `p`. */
  function Run(items: seq<TasbihItem>, p: Position, n: nat): Position
    decreases n
  {
    if n == 0 then p else Run(items, Advance(items, p), n - 1)
  }

  lemma {:induction false} DoneBelowSum(items: seq<TasbihItem>, p: Position)
    requires WellFormed(items) && OnTrack(items, p)
    ensures Done(items, p) < Sum(items)
  {
    SumSnoc(items, p.index);
    SumPrefixBelow(items, p.index + 1);
  }

  lemma {:induction false} SumPrefixBelow(items: seq<TasbihItem>, i: int)
    requires 0 <= i <= |items|
    requires forall j :: 0 <= j < |items| ==> items[j].count >= 1
    ensures Sum(items[..i]) <= Sum(items)
    decreases |items| - i
  {
    if i < |items| {
      SumSnoc(items, i);
      SumPrefixBelow(items, i + 1);
    } else {
      assert items[..i] == items;
    }
  }

  /**
   * From any on-track, unfinished position, the sequence completes after exactly the taps still
   * missing (the sum of the targets less the taps done), and not before.
   */
  lemma {:induction false} RunCompletes(items: seq<TasbihItem>, p: Position, k: nat)
    requires WellFormed(items) && OnTrack(items, p) && !p.completed
    ensures Done(items, p) < Sum(items)
    ensures k < Sum(items) - Done(items, p) ==> !Run(items, p, k).completed
    ensures k == Sum(items) - Done(items, p) ==> Run(items, p, k).completed
    decreases Sum(items) - Done(items, p)
  {
    DoneBelowSum(items, p);
    if k > 0 {
      var q := Advance(items, p);
      AdvanceOnTrack(items, p);
      AdvanceDone(items, p);
      if !q.completed {
        RunCompletes(items, q, k - 1);
      } else {
        assert Run(items, q, k - 1) == q by {
          CompletedStays(items, q, k - 1);
        }
      }
    }
  }

  /** Taps after completion change nothing. */
  lemma {:induction false} CompletedStays(items: seq<TasbihItem>, p: Position, n: nat)
    requires p.completed
    ensures Run(items, p, n) == p
    decreases n
  {
    if n > 0 {
      CompletedStays(items, p, n - 1);
    }
  }

  /** `Math.round(100 * done / total)`: the nearest integer, halves rounded up; `None` for a zero total. */
  function RoundedPercent(done: int, total: int): (r: Option<int>)
    ensures r.Some? <==> total != 0
  {
    if total > 0 then Some((200 * done + total) / (2 * total))
    else if total < 0 then Some((0 - 200 * done - total) / (0 - 2 * total))
    else None
  }

  /** The rounded value is the integer within half a point of the exact percentage, ties upward. */
  lemma RoundedPercentNearest(done: int, total: int)
    requires total > 0
    ensures var r := RoundedPercent(done, total).value;
            2 * total * r <= 200 * done + total < 2 * total * r + 2 * total
  {
  }

  lemma RoundedPercentRange(done: int, total: int)
    requires 0 <= done <= total && total > 0
    ensures 0 <= RoundedPercent(done, total).value <= 100
  {
    DivBelow(200 * done + total, 2 * total, 101);
  }

  /**
   * As written, a completed sequence still shows less than 100% whenever the targets sum to less
   * than 200: the completing tap leaves the last count one short of its target, so the taps done
   * stay one below the total. One item of 33 ends at 97%.
   */
  lemma CompletedShowsBelowHundred(items: seq<TasbihItem>)
    requires WellFormed(items)
    ensures Sum(items) >= 1
    ensures Run(items, Start, Sum(items)).completed
    ensures OnTrack(items, Run(items, Start, Sum(items))) && Done(items, Run(items, Start, Sum(items))) == Sum(items) - 1
    ensures Sum(items) < 200 ==> RoundedPercent(Sum(items) - 1, Sum(items)).value < 100
    ensures RoundedPercent(32, 33) == Some(97)
  {
    SumPositive(items);
    assert items[..0] == [];
    assert OnTrack(items, Start);
    RunCompletes(items, Start, Sum(items));
    RunDone(items, Start, Sum(items));
    if Sum(items) < 200 {
      OneShortBelowHundred(Sum(items));
    }
  }

  lemma OneShortBelowHundred(t: int)
    requires 1 <= t < 200
    ensures RoundedPercent(t - 1, t).value < 100
  {
    DivBelow(200 * (t - 1) + t, 2 * t, 100);
  }

  lemma DivBelow(x: int, y: int, q: int)
    requires 0 < y && x < y * q
    ensures x / y < q
  {
    assert y * (x / y) <= x;
  }

  /** With every step before the last adding one tap, `n` taps from `p` leave the taps done `Done(p) + n - 1` on completion. */
  lemma {:induction false} RunDone(items: seq<TasbihItem>, p: Position, n: nat)
    requires WellFormed(items) && OnTrack(items, p) && !p.completed
    requires 0 < n == Sum(items) - Done(items, p)
    ensures OnTrack(items, Run(items, p, n)) && Done(items, Run(items, p, n)) == Sum(items) - 1
    decreases n
  {
    var q := Advance(items, p);
    AdvanceOnTrack(items, p);
    AdvanceDone(items, p);
    if q.completed {
      CompletedStays(items, q, n - 1);
    } else {
      DoneBelowSum(items, q);
      RunDone(items, q, n - 1);
    }
  }

  /** The evident intent: a completed sequence shows 100%, otherwise the rounded share of taps done. */
  function IntendedPercent(items: seq<TasbihItem>, p: Position): (r: Option<int>)
    requires 0 <= p.index <= |items|
    ensures p.completed && Sum(items) != 0 ==> r == Some(100)
  {
    if p.completed && Sum(items) != 0 then Some(100) else RoundedPercent(Done(items, p), Sum(items))
  }

  /** The intended percentage lies in [0, 100] on every reachable position and is 100 exactly when completed. */
  lemma IntendedPercentRange(items: seq<TasbihItem>, p: Position)
    requires WellFormed(items) && OnTrack(items, p)
    ensures IntendedPercent(items, p).Some?
    ensures 0 <= IntendedPercent(items, p).value <= 100
    ensures p.completed ==> IntendedPercent(items, p).value == 100
  {
    DoneBelowSum(items, p);
    SumPositive(items);
    SumPositive(items[..p.index]);
    if !p.completed {
      RoundedPercentRange(Done(items, p), Sum(items));
    }
  }

  /** The counter's state; `selected` is `null` until an option is picked. */
  class TasbihCounter {
    var selected: Option<TasbihOption>
    var index: int
    var count: int
    var completed: bool

    /** Once an option is picked, the position is on an item of it and below its target. */
    ghost predicate Valid()
      reads this
    {
      0 <= index && 0 <= count &&
      (selected.Some? ==> index < |selected.value.items| || index == 0) &&
      (selected.Some? && WellFormed(selected.value.items) ==> OnTrack(selected.value.items, Position(index, count, completed)))
    }

    function At(): Position
      reads this
    {
      Position(index, count, completed)
    }

    constructor()
      ensures Valid() && selected.None? && At() == Start
    {
      selected := None;
      index := 0;
      count := 0;
      completed := false;
    }

    /** `handleOptionSelect`: the option, at its start. */
    method Select(option: TasbihOption)
      modifies this
      ensures Valid()
      ensures selected == Some(option) && At() == Start
    {
      selected := Some(option);
      index := 0;
      count := 0;
      completed := false;
    }

    /** The back button: `setSelectedOption(null)`, keeping the position. */
    method Deselect()
      requires Valid()
      modifies this`selected
      ensures Valid() && selected.None?
    {
      selected := None;
    }

    /** `handleIncrement`: no-op without a selection, otherwise one tap on the selection. */
    method Increment()
      requires Valid()
      modifies this`index, this`count, this`completed
      ensures Valid()
      ensures selected.None? ==> At() == old(At())
      ensures selected.Some? ==> At() == Advance(selected.value.items, old(At()))
    {
      if selected.None? || completed {
        return;
      }
      var items := selected.value.items;
      if index >= |items| {
        return;
      }
      var newCount := count + 1;
      if newCount >= items[index].count {
        if index < |items| - 1 {
          index := index + 1;
          count := 0;
        } else {
          completed := true;
        }
      } else {
        count := newCount;
      }
      if WellFormed(items) {
        AdvanceOnTrack(items, old(At()));
      }
    }

    /** `handleReset`: back to the start, keeping the selection. */
    method Reset()
      modifies this`index, this`count, this`completed
      ensures At() == Start
      ensures Valid()
    {
      index := 0;
      count := 0;
      completed := false;
    }

    /**
     * `getTotalProgress`: 0 without a selection, else the rounded percentage of taps done over
     * the sum of the targets (`None` when that sum is 0 and JavaScript divides by zero).
     */
    method GetTotalProgress() returns (r: Option<int>)
      requires Valid()
      ensures selected.None? ==> r == Some(0)
      ensures selected.Some? ==> r == RoundedPercent(Done(selected.value.items, At()), Sum(selected.value.items))
      ensures selected.Some? && WellFormed(selected.value.items) ==> r.Some? && 0 <= r.value <= 100
    {
      if selected.None? {
        return Some(0);
      }
      var items := selected.value.items;
      var completedCounts := 0;
      for i := 0 to index
        invariant completedCounts == Sum(items[..i])
      {
        SumSnoc(items, i);
        completedCounts := completedCounts + items[i].count;
      }
      completedCounts := completedCounts + count;
      var totalCounts := Sum(items);
      r := RoundedPercent(completedCounts, totalCounts);
      if WellFormed(items) {
        DoneBelowSum(items, At());
        SumPositive(items);
        SumPositive(items[..index]);
        RoundedPercentRange(completedCounts, totalCounts);
      }
    }
  }
}
