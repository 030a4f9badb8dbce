/** The colour theme: a preference saved under "ui-theme" in local storage and
    the `dark` class on the document's root element, with the system's
    dark-mode media query as the fallback. */
module Theme {
  import opened Wrappers
  import opened Text

  datatype Theme = Light | Dark

  /** The storage key of the saved preference. */
  const StorageKey: string := "ui-theme"

  /** The string a theme is saved as. */
  function ThemeName(t: Theme): string {
    match t
    case Light => "light"
    case Dark => "dark"
  }

  /** `getPreferredTheme`, given what reading the storage gave (`None` for no
      entry or a storage that throws) and the media query (`None` when
      `matchMedia` is missing): a saved "light" or "dark" wins; anything else
      defers to the system, and with no media query the theme is light. */
  function PreferredTheme(saved: Option<string>, systemDark: Option<bool>): (t: Theme)
    ensures saved == Some("light") ==> t == Light
    ensures saved == Some("dark") ==> t == Dark
    ensures saved != Some("light") && saved != Some("dark") ==>
      (t == Dark <==> systemDark == Some(true))
  {
    if saved == Some("light") then Light
    else if saved == Some("dark") then Dark
    else if systemDark.Some? && systemDark.value then Dark
    else Light
  }

  /** A saved theme name is read back as that theme, whatever the system says. */
  lemma SavedThemeWins(t: Theme, systemDark: Option<bool>)
    ensures PreferredTheme(Some(ThemeName(t)), systemDark) == t
  {
  }

  /** The theme opposite to the one the class shows. */
  function Opposite(dark: bool): (t: Theme)
    ensures t == Dark <==> !dark
  {
    if dark then Light else Dark
  }

  /** The browser state the theme functions read and write. */
  class Document {
    /** The value stored under "ui-theme", if any. */
    var saved: Option<string>
    /** Whether the root element has the `dark` class. */
    var dark: bool
    /** False when local storage throws on every access. */
    const storageAvailable: bool
    /** The dark-mode media query's `matches`; `None` when `matchMedia` is missing. */
    const systemDark: Option<bool>
    /** Whether the media query object has `addEventListener` (older browsers
        lack it, and the optional call then does nothing). */
    const hasAddEventListener: bool

    constructor (saved: Option<string>, dark: bool, storageAvailable: bool, systemDark: Option<bool>,
                 hasAddEventListener: bool)
      ensures this.saved == saved && this.dark == dark
      ensures this.storageAvailable == storageAvailable && this.systemDark == systemDark
      ensures this.hasAddEventListener == hasAddEventListener
    {
      this.saved := saved;
      this.dark := dark;
      this.storageAvailable := storageAvailable;
      this.systemDark := systemDark;
      this.hasAddEventListener := hasAddEventListener;
    }

    /** What `localStorage.getItem` yields inside the `try`: a throwing storage
        reads as nothing. */
    function StoredValue(): Option<string>
      reads this
    {
      if storageAvailable then saved else None
    }

    /** `getPreferredTheme`. */
    method GetPreferredTheme() returns (t: Theme)
      ensures t == PreferredTheme(StoredValue(), systemDark)
      ensures storageAvailable && saved == Some("dark") ==> t == Dark
      ensures storageAvailable && saved == Some("light") ==> t == Light
    {
      var value := if storageAvailable then saved else None;
      if value == Some("light") {
        return Light;
      }
      if value == Some("dark") {
        return Dark;
      }
      t := if systemDark == Some(true) then Dark else Light;
    }

    /** `applyTheme`: the `dark` class is present exactly for the dark theme, and
        the theme's name is saved unless the storage throws. */
    method ApplyTheme(t: Theme)
      modifies this
      ensures dark <==> t == Dark
      ensures saved == (if storageAvailable then Some(ThemeName(t)) else old(saved))
    {
      dark := t == Dark;
      if storageAvailable {
        saved := Some(ThemeName(t));
      }
    }

    /** `ensureInitialTheme`: apply the preferred theme. The class then shows it,
        and the stored preference, if it was a theme name, is unchanged. */
    method EnsureInitialTheme()
      modifies this
      ensures dark <==> PreferredTheme(old(StoredValue()), systemDark) == Dark
      ensures storageAvailable ==> saved == Some(ThemeName(PreferredTheme(old(StoredValue()), systemDark)))
      ensures !storageAvailable ==> saved == old(saved)
    {
      var t := GetPreferredTheme();
      ApplyTheme(t);
    }

    /** `toggleTheme`: apply and return the theme opposite to the class. */
    method ToggleTheme() returns (next: Theme)
      modifies this
      ensures next == Opposite(old(dark))
      ensures dark <==> next == Dark
      ensures dark == !old(dark)
      ensures saved == (if storageAvailable then Some(ThemeName(next)) else old(saved))
    {
      next := if dark then Light else Dark;
      ApplyTheme(next);
    }

    /** Whether `watchSystemTheme` installs a handler: only when `matchMedia`
        exists and its media query object has `addEventListener`. */
    method WatchSystemTheme() returns (installed: bool)
      ensures installed <==> systemDark.Some? && hasAddEventListener
    {
      if systemDark.None? {
        return false;
      }
      installed := hasAddEventListener;
    }

    /** The installed handler on a system change to `matches`: the callback runs
        with the system's theme only when no preference is saved (no entry or an
        empty one); a storage that throws makes the handler throw before the
        callback. */
    method OnSystemChange(matches: bool) returns (callback: Option<Theme>)
      ensures callback.Some? <==> storageAvailable && HandlerFires(saved)
      ensures callback.Some? ==> callback.value == (if matches then Dark else Light)
      ensures callback.Some? ==> callback.value == PreferredTheme(StoredValue(), Some(matches))
    {
      if !storageAvailable {
        return None;
      }
      if Present(saved) {
        return None;
      }
      callback := Some(if matches then Dark else Light);
    }
  }

  /** Toggling twice puts the class back: the class after the second toggle is
      the class before the first. */
  lemma ToggleTwiceRestores(dark: bool)
    ensures (Opposite(Opposite(dark) == Dark) == Dark) == dark
  {
  }

  /** Whether the system-change handler calls back, given the stored value it
      reads: only when nothing (or "") is stored. */
  function HandlerFires(stored: Option<string>): (fires: bool)
    ensures fires ==> stored != Some("light") && stored != Some("dark")
  {
    !Present(stored)
  }

  /** When the handler calls back, the theme it reports is the one
      `getPreferredTheme` would now pick. The converse fails: a stored value that
      is not a theme name ("blue") keeps the handler silent, while
      `getPreferredTheme` ignores it and follows the system. */
  lemma HandlerAgreesWithPreference(stored: Option<string>, matches: bool)
    ensures HandlerFires(stored) ==> PreferredTheme(stored, Some(matches)) == (if matches then Dark else Light)
    ensures !HandlerFires(Some("blue")) && PreferredTheme(Some("blue"), Some(matches)) == (if matches then Dark else Light)
  {
  }
}
