/**
 * The web font context (`apps/web/src/contexts/FontContext.tsx`): the size starts from
 * `localStorage` without a range check and is written back after every change.
 */
module WebFont {
  import opened Wrappers
  import opened Text
  import opened Numbers
  import opened FontScale

  const FontSizeKey: string := "azkar-font-size"

  /** The lazy initial state `saved ? parseInt(saved) : 16`; `None` stands for `NaN`. */
  function InitialSize(saved: Option<string>): (r: Option<int>)
    ensures saved.None? || saved == Some("") ==> r == Some(DefaultFontSize)
    ensures saved.Some? && saved.value != "" ==> r == JsParseInt(saved.value, true)
  {
    if saved.Some? && saved.value != "" then JsParseInt(saved.value, true) else Some(DefaultFontSize)
  }

  /** Whatever the effect wrote, `NaN` included, is read back as the same size on the next start. */
  lemma ReloadRestores(x: Option<int>)
    ensures InitialSize(Some(NumberToString(x))) == x
  {
    if x.Some? {
      ParsePrintedInt(x.value, true);
    } else {
      assert SpaceRun(Js, "NaN") == 0;
    }
  }

  /** The stored size is adopted as it is: a stored 40 starts the page at 40. */
  lemma StoredSizeUnchecked()
    ensures InitialSize(Some("40")) == Some(40) && !InRange(40)
  {
    ParsePrintedInt(40, true);
    assert IntToString(40) == "40";
  }

  /** A step on the current size; `NaN` plus 2 is `NaN`, which `setFontSize` ignores. */
  function Stepped(f: Option<int>, up: bool): (r: Option<int>)
    ensures f.None? ==> r.None?
    ensures f.Some? ==> r == Some(if up then Increased(f.value) else Decreased(f.value))
  {
    match f
    case None => None
    case Some(x) => Some(if up then Increased(x) else Decreased(x))
  }

  class FontProvider {
    var fontSize: Option<int>
    /** The `localStorage` entry under `FontSizeKey`. */
    var stored: Option<string>

    /** The effect has written the current size. */
    ghost predicate Persisted()
      reads this
    {
      stored == Some(NumberToString(fontSize))
    }

    /** Mounting reads the stored entry, then the effect writes the size back. */
    constructor(saved: Option<string>)
      ensures fontSize == InitialSize(saved)
      ensures Persisted()
    {
      fontSize := InitialSize(saved);
      stored := Some(NumberToString(InitialSize(saved)));
    }

    /** `setFontSize`: an in-range size replaces the state, which the effect writes back. */
    method SetFontSize(size: int)
      modifies this
      ensures fontSize == if InRange(size) then Some(size) else old(fontSize)
      ensures stored == if fontSize != old(fontSize) then Some(NumberToString(fontSize)) else old(stored)
      ensures old(Persisted()) ==> Persisted()
    {
      if InRange(size) {
        Write(Some(size));
      }
    }

    /** `increaseFontSize`: `setFontSize(Math.min(fontSize + 2, 24))`. */
    method IncreaseFontSize()
      modifies this
      ensures fontSize == Stepped(old(fontSize), true)
      ensures stored == if fontSize != old(fontSize) then Some(NumberToString(fontSize)) else old(stored)
      ensures old(Persisted()) ==> Persisted()
    {
      if fontSize.Some? {
        SetFontSize(if fontSize.value + FontSizeStep < MaxFontSize then fontSize.value + FontSizeStep else MaxFontSize);
      }
    }

    /** `decreaseFontSize`: `setFontSize(Math.max(fontSize - 2, 12))`. */
    method DecreaseFontSize()
      modifies this
      ensures fontSize == Stepped(old(fontSize), false)
      ensures stored == if fontSize != old(fontSize) then Some(NumberToString(fontSize)) else old(stored)
      ensures old(Persisted()) ==> Persisted()
    {
      if fontSize.Some? {
        SetFontSize(if fontSize.value - FontSizeStep > MinFontSize then fontSize.value - FontSizeStep else MinFontSize);
      }
    }

    /** The state update followed by the effect, which runs only when the value changed. */
    method Write(size: Option<int>)
      modifies this
      ensures fontSize == size
      ensures stored == if size != old(fontSize) then Some(NumberToString(size)) else old(stored)
    {
      if size != fontSize {
        stored := Some(NumberToString(size));
      }
      fontSize := size;
    }
  }
}
