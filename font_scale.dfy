/**
 * The reading font size both font contexts keep (`apps/web/src/contexts/FontContext.tsx`,
 * `apps/mobile/src/contexts/FontContext.tsx`): a size accepted only inside [12, 24], moved by
 * steps of 2 that stop at the bounds.
 */
module FontScale {
  const MinFontSize: int := 12
  const MaxFontSize: int := 24
  const DefaultFontSize: int := 16
  const FontSizeStep: int := 2

  predicate InRange(size: int) {
    MinFontSize <= size <= MaxFontSize
  }

  /** `setFontSize(size)` on current size `f`: an out-of-range size is ignored. */
  function Accept(size: int, f: int): (r: int)
    ensures InRange(size) <==> r == size && InRange(r)
    ensures !InRange(size) ==> r == f
  {
    if InRange(size) then size else f
  }

  /** `increaseFontSize`: `setFontSize(Math.min(f + 2, 24))`. */
  function Increased(f: int): (r: int)
    ensures r == f || InRange(r)
    ensures InRange(f) ==> InRange(r) && f <= r <= f + FontSizeStep && (r == f <==> f == MaxFontSize)
    ensures f > MaxFontSize ==> r == MaxFontSize
    ensures f < MinFontSize - FontSizeStep ==> r == f
  {
    Accept(if f + FontSizeStep < MaxFontSize then f + FontSizeStep else MaxFontSize, f)
  }

  /** `decreaseFontSize`: `setFontSize(Math.max(f - 2, 12))`. */
  function Decreased(f: int): (r: int)
    ensures r == f || InRange(r)
    ensures InRange(f) ==> InRange(r) && f - FontSizeStep <= r <= f && (r == f <==> f == MinFontSize)
    ensures f < MinFontSize ==> r == MinFontSize
    ensures f > MaxFontSize + FontSizeStep ==> r == f
  {
    Accept(if f - FontSizeStep > MinFontSize then f - FontSizeStep else MinFontSize, f)
  }

  /** One step up and one step down undo each other away from the bounds. */
  lemma StepsUndo(f: int)
    ensures MinFontSize <= f <= MaxFontSize - FontSizeStep ==> Decreased(Increased(f)) == f
    ensures MinFontSize + FontSizeStep <= f <= MaxFontSize ==> Increased(Decreased(f)) == f
  {
  }

  /** `Math.max(12, Math.min(24, x))`, the clamp of the mobile settings screen. */
  function Clamp(x: int): (r: int)
    ensures InRange(r)
    ensures InRange(x) ==> r == x
    ensures x < MinFontSize ==> r == MinFontSize
    ensures x > MaxFontSize ==> r == MaxFontSize
  {
    if x < MinFontSize then MinFontSize else if x > MaxFontSize then MaxFontSize else x
  }

  /** What a user can do to the size through the context. */
  datatype FontOp = SetSize(size: int) | Increase | Decrease

  function Apply(f: int, op: FontOp): int {
    match op
    case SetSize(size) => Accept(size, f)
    case Increase => Increased(f)
    case Decrease => Decreased(f)
  }

  function ApplyAll(f: int, ops: seq<FontOp>): int
    decreases |ops|
  {
    if ops == [] then f else ApplyAll(Apply(f, ops[0]), ops[1..])
  }

  /** Starting in range, any sequence of sets, increases and decreases stays in range. */
  lemma {:induction false} ApplyAllInRange(f: int, ops: seq<FontOp>)
    requires InRange(f)
    ensures InRange(ApplyAll(f, ops))
    decreases |ops|
  {
    if ops != [] {
      ApplyAllInRange(Apply(f, ops[0]), ops[1..]);
    }
  }

  /** Starting anywhere, the size reached is either the start or a size in range. */
  lemma {:induction false} ApplyAllStartOrInRange(f: int, ops: seq<FontOp>)
    ensures ApplyAll(f, ops) == f || InRange(ApplyAll(f, ops))
    decreases |ops|
  {
    if ops != [] {
      var g := Apply(f, ops[0]);
      ApplyAllStartOrInRange(g, ops[1..]);
      if g != f {
        ApplyAllInRange(g, ops[1..]);
      }
    }
  }
}
