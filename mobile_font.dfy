/**
 * The mobile font context (`apps/mobile/src/contexts/FontContext.tsx`): the size starts at 16,
 * adopts a stored size only when it is in range, and writes every accepted size to the device.
 */
module MobileFont {
  import opened Wrappers
  import opened Numbers
  import opened FontScale

  const FontSizeKey: string := "azkar-font-size"

  /** `loadFontSize` on current size `f`: a non-empty entry whose `parseInt(_, 10)` is in range. */
  function LoadedSize(f: int, saved: Option<string>): (r: int)
    ensures r == f || InRange(r)
    ensures InRange(f) ==> InRange(r)
    ensures saved.None? || saved == Some("") ==> r == f
  {
    if saved.Some? && saved.value != "" then
      match JsParseInt(saved.value, false)
      case Some(n) => Accept(n, f)
      case None => f
    else f
  }

  /** A size written by `setFontSize` is the size the next start loads. */
  lemma LoadRestores(f: int, n: int)
    requires InRange(n)
    ensures LoadedSize(f, Some(IntToString(n))) == n
  {
    ParsePrintedInt(n, false);
  }

  class FontProvider {
    var fontSize: int
    /** The AsyncStorage entry under `FontSizeKey`. */
    var stored: Option<string>
    /** Whether writes to AsyncStorage succeed; a failed write is logged and ignored. */
    const writable: bool

    ghost predicate Valid()
      reads this
    {
      InRange(fontSize)
    }

    constructor(stored: Option<string>, writable: bool)
      ensures fontSize == DefaultFontSize && this.stored == stored && this.writable == writable
      ensures Valid()
    {
      fontSize := DefaultFontSize;
      this.stored := stored;
      this.writable := writable;
    }

    /** `loadFontSize`: adopts the stored size if it parses to a size in range. */
    method LoadFontSize()
      requires Valid()
      modifies this`fontSize
      ensures Valid()
      ensures fontSize == LoadedSize(old(fontSize), stored)
    {
      if stored.Some? && stored.value != "" {
        var parsed := JsParseInt(stored.value, false);
        if parsed.Some? && InRange(parsed.value) {
          fontSize := parsed.value;
        }
      }
    }

    /** `setFontSize`: an in-range size replaces the state and is written; any other is ignored. */
    method SetFontSize(size: int)
      requires Valid()
      modifies this`fontSize, this`stored
      ensures Valid()
      ensures fontSize == Accept(size, old(fontSize))
      ensures stored == if InRange(size) && writable then Some(IntToString(size)) else old(stored)
      ensures InRange(size) && writable ==> LoadedSize(DefaultFontSize, stored) == fontSize
    {
      if InRange(size) {
        fontSize := size;
        if writable {
          stored := Some(IntToString(size));
          LoadRestores(DefaultFontSize, size);
        }
      }
    }

    /** `increaseFontSize`: `setFontSize(Math.min(fontSize + 2, 24))`. */
    method IncreaseFontSize()
      requires Valid()
      modifies this`fontSize, this`stored
      ensures Valid()
      ensures fontSize == Increased(old(fontSize))
      ensures stored == if writable then Some(IntToString(fontSize)) else old(stored)
    {
      SetFontSize(if fontSize + FontSizeStep < MaxFontSize then fontSize + FontSizeStep else MaxFontSize);
    }

    /** `decreaseFontSize`: `setFontSize(Math.max(fontSize - 2, 12))`. */
    method DecreaseFontSize()
      requires Valid()
      modifies this`fontSize, this`stored
      ensures Valid()
      ensures fontSize == Decreased(old(fontSize))
      ensures stored == if writable then Some(IntToString(fontSize)) else old(stored)
    {
      SetFontSize(if fontSize - FontSizeStep > MinFontSize then fontSize - FontSizeStep else MinFontSize);
    }
  }
}
