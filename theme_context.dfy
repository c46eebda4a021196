/** The theme store: the user's preference (light, dark or follow the
    system), persisted under `themePreference`, and the effective colour scheme
    every screen reads, which is always light or dark. */
module ThemeContext {
  import opened Js
  import opened Storage

  datatype ThemePreference = LightPref | DarkPref | SystemPref {
    /** The stored spelling. */
    function Label(): string {
      match this
      case LightPref => "light"
      case DarkPref => "dark"
      case SystemPref => "system"
    }
  }

  datatype ColorScheme = Light | Dark {
    function Label(): string {
      match this
      case Light => "light"
      case Dark => "dark"
    }
  }

  /** The scheme the operating system reports (`'light'`, `'dark'`, or null
      when it reports none) is read as an optional string. */
  function SystemDefault(system: Option<string>): ColorScheme {
    if system == Some("dark") then Dark else Light
  }

  /** The saved-value check: only one of the three valid spellings is adopted. */
  function ParsePreference(saved: Option<string>): (r: Option<ThemePreference>)
    ensures r.Some? ==> saved == Some(r.value.Label())
  {
    if saved == Some("light") then Some(LightPref)
    else if saved == Some("dark") then Some(DarkPref)
    else if saved == Some("system") then Some(SystemPref)
    else None
  }

  /** Every preference that is written can be read back. */
  lemma ParseLabelRoundTrip(p: ThemePreference)
    ensures ParsePreference(Some(p.Label())) == Some(p)
  {
  }

  /** A stored value is accepted exactly when it is one of the three labels. */
  lemma ParseAcceptsOnlyLabels(saved: Option<string>)
    ensures ParsePreference(saved).Some? <==>
              saved in {Some("light"), Some("dark"), Some("system")}
  {
  }

  /** The scheme the preference resolves to: the preference itself when it is
      light or dark, and the system's report, dark only when the system says
      dark, when it is system. */
  function EffectiveScheme(pref: ThemePreference, system: Option<string>): (c: ColorScheme)
    ensures pref != SystemPref ==> c.Label() == pref.Label()
    ensures pref == SystemPref ==> (c == Dark <==> system == Some("dark"))
    ensures c.Label() == "light" || c.Label() == "dark"
  {
    match pref
    case LightPref => Light
    case DarkPref => Dark
    case SystemPref => SystemDefault(system)
  }

  /** The value the context hands to its consumers. */
  datatype ThemeValue = ThemeValue(themePreference: ThemePreference, colorScheme: ColorScheme)

  const OutsideProviderMessage := "useTheme must be used within a ThemeProvider"

  /** `useTheme`: the provider's value, or an error outside any provider. */
  function UseTheme(context: Option<ThemeValue>): (r: Result<ThemeValue>)
    ensures context.None? <==> r == Thrown(OutsideProviderMessage)
    ensures context.Some? ==> r == Ok(context.value)
  {
    match context
    case None => Thrown(OutsideProviderMessage)
    case Some(v) => Ok(v)
  }

  /** `ThemeProvider`'s two state cells. */
  class ThemeProvider {
    var themePreference: ThemePreference
    var colorScheme: ColorScheme
    const store: KeyValueStore

    /** Initially the preference is system and the scheme follows the system. */
    constructor (store: KeyValueStore, system: Option<string>)
      ensures this.store == store
      ensures themePreference == SystemPref
      ensures colorScheme == SystemDefault(system)
      ensures colorScheme == EffectiveScheme(themePreference, system)
    {
      this.store := store;
      themePreference := SystemPref;
      colorScheme := SystemDefault(system);
    }

    /** The loading effect: a saved value is adopted only when it is valid. */
    method LoadThemePreference()
      modifies this`themePreference
      ensures ParsePreference(store.GetItem(ThemePreferenceKey)).Some? ==>
                themePreference == ParsePreference(store.GetItem(ThemePreferenceKey)).value
      ensures ParsePreference(store.GetItem(ThemePreferenceKey)).None? ==>
                themePreference == old(themePreference)
    {
      var saved := store.GetItem(ThemePreferenceKey);
      var parsed := ParsePreference(saved);
      if parsed.Some? {
        themePreference := parsed.value;
      }
    }

    /** The effect that runs when the preference or the system scheme changes. */
    method SyncColorScheme(system: Option<string>)
      modifies this`colorScheme
      ensures colorScheme == EffectiveScheme(themePreference, system)
    {
      if themePreference == SystemPref {
        colorScheme := SystemDefault(system);
      } else {
        colorScheme := if themePreference == DarkPref then Dark else Light;
      }
    }

    /** `setThemePreference`: the value is written first, and the state changes
        only when the write succeeds; a failed write changes nothing. */
    method SetThemePreference(theme: ThemePreference, writeSucceeds: bool)
      modifies this`themePreference, store
      ensures writeSucceeds ==> store.entries == old(store.entries)[ThemePreferenceKey := theme.Label()]
      ensures writeSucceeds ==> themePreference == theme
      ensures !writeSucceeds ==> store.entries == old(store.entries) && themePreference == old(themePreference)
    {
      if writeSucceeds {
        store.SetItem(ThemePreferenceKey, theme.Label());
        themePreference := theme;
      }
    }

    /** What a consumer sees through the context. */
    function Value(): ThemeValue
      reads this
    {
      ThemeValue(themePreference, colorScheme)
    }
  }

  /** A preference that has been set and then reloaded from storage is the
      preference the provider holds. */
  lemma SetThenReload(entries: map<string, string>, theme: ThemePreference)
    ensures ParsePreference(Some(entries[ThemePreferenceKey := theme.Label()][ThemePreferenceKey])) == Some(theme)
  {
    ParseLabelRoundTrip(theme);
  }
}
