/**
 * The mobile settings screen (`apps/mobile/src/components/Settings.tsx`): the settings record and
 * the stored-progress count it shows, each change replacing the record and saving all of it.
 */
module MobileSettings {
  import opened Wrappers
  import opened FontScale
  import opened MobileCache

  /** `handleFontSizeChange(delta)`: the size clamped into range, the toggles kept. */
  function FontSizeChanged(s: AppSettings, delta: int): (r: AppSettings)
    ensures InRange(r.fontSize)
    ensures InRange(s.fontSize + delta) ==> r.fontSize == s.fontSize + delta
    ensures r.readingMode == s.readingMode && r.notificationsEnabled == s.notificationsEnabled
  {
    s.(fontSize := Clamp(s.fontSize + delta))
  }

  /** A step up and a step down by the same amount undo each other while both stay in range. */
  lemma FontSizeChangeUndo(s: AppSettings, delta: int)
    requires InRange(s.fontSize) && InRange(s.fontSize + delta)
    ensures FontSizeChanged(FontSizeChanged(s, delta), -delta) == s
  {
  }

  /** `handleReadingModeToggle`. */
  function ReadingModeToggled(s: AppSettings): (r: AppSettings)
    ensures r.readingMode != s.readingMode
    ensures r.fontSize == s.fontSize && r.notificationsEnabled == s.notificationsEnabled
  {
    s.(readingMode := !s.readingMode)
  }

  /** `handleNotificationsToggle`. */
  function NotificationsToggled(s: AppSettings): (r: AppSettings)
    ensures r.notificationsEnabled != s.notificationsEnabled
    ensures r.fontSize == s.fontSize && r.readingMode == s.readingMode
  {
    s.(notificationsEnabled := !s.notificationsEnabled)
  }

  /** Each toggle undoes itself, and the two commute. */
  lemma TogglesUndo(s: AppSettings)
    ensures ReadingModeToggled(ReadingModeToggled(s)) == s
    ensures NotificationsToggled(NotificationsToggled(s)) == s
    ensures ReadingModeToggled(NotificationsToggled(s)) == NotificationsToggled(ReadingModeToggled(s))
  {
  }

  class SettingsScreen {
    var settings: AppSettings
    var progressCount: int
    const storage: MobileStorage

    constructor(storage: MobileStorage)
      ensures settings == DefaultSettings && progressCount == 0 && this.storage == storage
    {
      settings := DefaultSettings;
      progressCount := 0;
      this.storage := storage;
    }

    /** The mount effect: `loadSettings` and `loadProgressCount`. */
    method Load()
      modifies this`settings, this`progressCount
      ensures settings == storage.GetSettings()
      ensures progressCount == |storage.GetAllProgress()|
    {
      settings := storage.GetSettings();
      progressCount := |storage.GetAllProgress()|;
    }

    /** `updateSettings`: the state becomes the new record, then all of it is saved. */
    method UpdateSettings(s: AppSettings)
      modifies this`settings, storage`items
      ensures settings == s
      ensures storage.items == if storage.writable then old(storage.items)[SettingsKey := SettingsRecord(s)] else old(storage.items)
      ensures storage.writable ==> storage.GetSettings() == settings
    {
      settings := s;
      var _ := storage.SaveSettings(s);
    }

    method FontSizeChange(delta: int)
      modifies this`settings, storage`items
      ensures settings == FontSizeChanged(old(settings), delta)
      ensures storage.items == if storage.writable then old(storage.items)[SettingsKey := SettingsRecord(settings)] else old(storage.items)
    {
      UpdateSettings(FontSizeChanged(settings, delta));
    }

    method ReadingModeToggle()
      modifies this`settings, storage`items
      ensures settings == ReadingModeToggled(old(settings))
      ensures storage.items == if storage.writable then old(storage.items)[SettingsKey := SettingsRecord(settings)] else old(storage.items)
    {
      UpdateSettings(ReadingModeToggled(settings));
    }

    method NotificationsToggle()
      modifies this`settings, storage`items
      ensures settings == NotificationsToggled(old(settings))
      ensures storage.items == if storage.writable then old(storage.items)[SettingsKey := SettingsRecord(settings)] else old(storage.items)
    {
      UpdateSettings(NotificationsToggled(settings));
    }

    /**
     * `clearAllProgress` once the confirmation is accepted: the progress list is emptied and the
     * count shown drops to zero; when the write fails the count is kept.
     */
    method ClearAllProgress(confirmed: bool)
      modifies this`progressCount, storage`items
      ensures !confirmed || !storage.writable ==> progressCount == old(progressCount) && storage.items == old(storage.items)
      ensures confirmed && storage.writable ==>
                progressCount == 0 && storage.items == old(storage.items)[ProgressKey := ProgressList([])]
      ensures confirmed && storage.writable ==> progressCount == |storage.GetAllProgress()| && storage.GetSettings() == old(storage.GetSettings())
    {
      if confirmed {
        var ok := storage.ClearProgress();
        if ok {
          progressCount := 0;
        }
      }
    }
  }
}
