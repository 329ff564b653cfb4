/**
 * The context form of the theme store: `ThemeProvider` holds one store and
 * publishes its value; `useTheme` reads the context and fails outside a
 * provider. The stored-or-system rule, `setTheme` and `toggleTheme` are
 * those of the ThemeHook module.
 */
module ThemeProvider {
  import opened Wrappers
  import opened ThemeHook

  /** What the provider publishes (`UseThemeReturn` without its two callbacks). */
  datatype ThemeValue = ThemeValue(theme: Theme, isDarkMode: bool, isHydrated: bool)

  const USE_THEME_ERROR: string := "useTheme must be used within a ThemeProvider"

  class Provider {
    const store: ThemeStore

    ghost predicate Valid()
      reads this, store
    {
      store.Valid()
    }

    /** The first render: light and not hydrated. */
    constructor(storage: map<string, string>, darkClass: bool)
      ensures Valid() && fresh(store)
      ensures Value() == ThemeValue(Light, false, false)
      ensures store.storage == storage && store.darkClass == darkClass
    {
      store := new ThemeStore(storage, darkClass);
    }

    /** The provided value; isDarkMode is derived from the theme. */
    function Value(): (v: ThemeValue)
      reads this, store
      ensures v.theme == store.theme && v.isHydrated == store.isHydrated
      ensures v.isDarkMode <==> v.theme == Dark
    {
      ThemeValue(store.theme, store.IsDarkMode(), store.isHydrated)
    }

    /** The mount effect, by the same rule as the hook. */
    method Hydrate(prefersDark: bool)
      requires Valid()
      modifies store
      ensures Valid()
      ensures Value() == ThemeValue(GetStoredTheme(true, old(store.storage), prefersDark),
                                    GetStoredTheme(true, old(store.storage), prefersDark) == Dark, true)
      ensures store.darkClass == Value().isDarkMode && store.storage == old(store.storage)
    {
      store.Hydrate(prefersDark);
    }

    method SetTheme(newTheme: Theme)
      requires Valid()
      modifies store
      ensures Valid()
      ensures Value() == ThemeValue(newTheme, newTheme == Dark, old(store.isHydrated))
      ensures store.darkClass == (newTheme == Dark)
      ensures store.storage == old(store.storage)[THEME_STORAGE_KEY := ThemeName(newTheme)]
    {
      store.SetTheme(newTheme);
    }

    method ToggleTheme()
      requires Valid()
      modifies store
      ensures Valid()
      ensures Value().theme == Toggled(old(store.theme)) && store.darkClass == Value().isDarkMode
      ensures Value().isHydrated == old(store.isHydrated)
      ensures store.storage == old(store.storage)[THEME_STORAGE_KEY := ThemeName(Value().theme)]
    {
      store.ToggleTheme();
    }
  }

  /** `useTheme`: the nearest provider's value, or the error when there is none. */
  function UseTheme(context: Option<ThemeValue>): (r: Result<ThemeValue, string>)
    ensures context.None? <==> r == Err(USE_THEME_ERROR)
    ensures context.Some? ==> r == Ok(context.value)
  {
    match context
    case None => Err(USE_THEME_ERROR)
    case Some(v) => Ok(v)
  }
}
