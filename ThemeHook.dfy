/**
 * `useTheme`: the light/dark theme with two-phase start-up (a fixed first
 * value, then the stored or system value once mounted), persisted under one
 * storage key and mirrored as the `dark` class on the root element.
 * localStorage is a map from key to value and the class a boolean; the
 * system preference (`matchMedia('(prefers-color-scheme: dark)')`) is an
 * input.
 */
module ThemeHook {
  import opened Wrappers

  datatype Theme = Light | Dark

  /** The storage key the theme is kept under. */
  const THEME_STORAGE_KEY: string := "theme"

  /** The string a theme is stored as. */
  function ThemeName(t: Theme): (s: string)
    ensures s == "light" || s == "dark"
  {
    match t
    case Light => "light"
    case Dark => "dark"
  }

  /** The theme a stored string names, if it names one exactly. */
  function ParseTheme(s: string): (t: Option<Theme>)
    ensures t.Some? <==> s == "light" || s == "dark"
    ensures t.Some? ==> ThemeName(t.value) == s
  {
    if s == "dark" then Some(Dark)
    else if s == "light" then Some(Light)
    else None
  }

  /** Storing then reading a theme gives it back. */
  lemma ParseThemeName(t: Theme)
    ensures ParseTheme(ThemeName(t)) == Some(t)
  {
  }

  /** `getSystemTheme`: dark only with a window that prefers dark. */
  function GetSystemTheme(hasWindow: bool, prefersDark: bool): (t: Theme)
    ensures t == Dark <==> hasWindow && prefersDark
  {
    if !hasWindow then Light
    else if prefersDark then Dark else Light
  }

  /**
   * `getStoredTheme`: without a window, light; a stored value of exactly
   * "dark" or "light" wins; anything else, or nothing, falls back to the
   * system preference.
   */
  function GetStoredTheme(hasWindow: bool, storage: map<string, string>, prefersDark: bool): (t: Theme)
    ensures !hasWindow ==> t == Light
    ensures hasWindow && THEME_STORAGE_KEY in storage && ParseTheme(storage[THEME_STORAGE_KEY]).Some? ==>
      t == ParseTheme(storage[THEME_STORAGE_KEY]).value
    ensures hasWindow && (THEME_STORAGE_KEY !in storage || ParseTheme(storage[THEME_STORAGE_KEY]).None?) ==>
      t == GetSystemTheme(hasWindow, prefersDark)
  {
    if !hasWindow then Light
    else if THEME_STORAGE_KEY in storage && ParseTheme(storage[THEME_STORAGE_KEY]).Some? then
      ParseTheme(storage[THEME_STORAGE_KEY]).value
    else GetSystemTheme(hasWindow, prefersDark)
  }

  /** A theme written by setTheme is the one the next start-up reads, whatever the system prefers. */
  lemma StoredThemeReadsBack(storage: map<string, string>, t: Theme, prefersDark: bool)
    ensures GetStoredTheme(true, storage[THEME_STORAGE_KEY := ThemeName(t)], prefersDark) == t
  {
    ParseThemeName(t);
  }

  /** The theme toggleTheme switches to. */
  function Toggled(t: Theme): (u: Theme)
    ensures u != t
  {
    if t == Dark then Light else Dark
  }

  /** Toggling twice restores the theme. */
  lemma ToggledTwice(t: Theme)
    ensures Toggled(Toggled(t)) == t
  {
  }

  /** The theme state, the storage it persists to, and the root element's `dark` class. */
  class ThemeStore {
    var theme: Theme
    var isHydrated: bool
    var storage: map<string, string>
    var darkClass: bool

    /** The class is in step with the theme once hydrated. */
    ghost predicate Valid()
      reads this
    {
      isHydrated ==> darkClass == (theme == Dark)
    }

    /** The first render: light and not hydrated, the same on server and client. */
    constructor(storage: map<string, string>, darkClass: bool)
      ensures Valid()
      ensures theme == Light && !isHydrated
      ensures this.storage == storage && this.darkClass == darkClass
    {
      theme := Light;
      isHydrated := false;
      this.storage := storage;
      this.darkClass := darkClass;
    }

    /** `applyThemeToDOM` with a document present. */
    method ApplyThemeToDom(t: Theme)
      modifies this
      ensures darkClass == (t == Dark)
      ensures theme == old(theme) && isHydrated == old(isHydrated) && storage == old(storage)
    {
      if t == Dark {
        darkClass := true;
      } else {
        darkClass := false;
      }
    }

    /** The mount effect: the stored or system theme is applied and the store is hydrated. */
    method Hydrate(prefersDark: bool)
      modifies this
      ensures Valid()
      ensures theme == GetStoredTheme(true, old(storage), prefersDark)
      ensures isHydrated && darkClass == (theme == Dark)
      ensures storage == old(storage)
    {
      var stored := GetStoredTheme(true, storage, prefersDark);
      theme := stored;
      ApplyThemeToDom(stored);
      isHydrated := true;
    }

    /** `setTheme`: state, class and the one storage key change together. */
    method SetTheme(newTheme: Theme)
      requires Valid()
      modifies this
      ensures Valid()
      ensures theme == newTheme && darkClass == (newTheme == Dark)
      ensures storage == old(storage)[THEME_STORAGE_KEY := ThemeName(newTheme)]
      ensures isHydrated == old(isHydrated)
    {
      theme := newTheme;
      ApplyThemeToDom(newTheme);
      storage := storage[THEME_STORAGE_KEY := ThemeName(newTheme)];
    }

    /** `toggleTheme`: set the other theme. */
    method ToggleTheme()
      requires Valid()
      modifies this
      ensures Valid()
      ensures theme == Toggled(old(theme)) && darkClass == (theme == Dark)
      ensures storage == old(storage)[THEME_STORAGE_KEY := ThemeName(theme)]
      ensures isHydrated == old(isHydrated)
    {
      SetTheme(if theme == Dark then Light else Dark);
    }

    /** `isDarkMode`. */
    predicate IsDarkMode()
      reads this
    {
      theme == Dark
    }
  }

  /** setTheme touches no storage key but the theme's own. */
  lemma SetThemeKeepsOtherKeys(storage: map<string, string>, t: Theme, key: string)
    requires key != THEME_STORAGE_KEY
    ensures key in storage[THEME_STORAGE_KEY := ThemeName(t)] <==> key in storage
    ensures key in storage ==> storage[THEME_STORAGE_KEY := ThemeName(t)][key] == storage[key]
  {
  }

  /** Two toggles in a row restore the theme, the class and the stored value's key. */
  method ToggleTwice(store: ThemeStore)
    requires store.Valid()
    modifies store
    ensures store.theme == old(store.theme) && store.darkClass == (store.theme == Dark)
    ensures store.storage == old(store.storage)[THEME_STORAGE_KEY := ThemeName(old(store.theme))]
  {
    store.ToggleTheme();
    store.ToggleTheme();
    ToggledTwice(old(store.theme));
  }
}
