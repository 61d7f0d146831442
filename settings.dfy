/**
 * `DataStoreManager`: the three app settings kept in a preferences store.
 * The store is a map from key names to typed values; the readers are pure
 * mappings of it, the setters assign one key in place.
 */
module Settings {

  /** The app theme choice. */
  datatype DarkMode = LIGHT | DARK | SYSTEM

  /** `mode.name`: the enum constant's name. */
  function Name(mode: DarkMode): (r: string)
    ensures r == "LIGHT" <==> mode == LIGHT
    ensures r == "DARK" <==> mode == DARK
    ensures r == "SYSTEM" <==> mode == SYSTEM
  {
    match mode
    case LIGHT => "LIGHT"
    case DARK => "DARK"
    case SYSTEM => "SYSTEM"
  }

  /** A stored preference value: a string or a boolean preference. */
  datatype PrefValue = StringPref(s: string) | BoolPref(b: bool)

  /** The preferences file: key name to value. */
  type Preferences = map<string, PrefValue>

  const DARK_MODE_KEY: string := "dark_mode"
  const SOUND_KEY: string := "sound"
  const NOTIFICATIONS_KEY: string := "notifications"

  /** The dark-mode reader: stored "DARK" or "LIGHT" select that mode, anything else or nothing selects SYSTEM. */
  function ReadDarkMode(prefs: Preferences): (mode: DarkMode)
    ensures mode == DARK <==> DARK_MODE_KEY in prefs && prefs[DARK_MODE_KEY] == StringPref("DARK")
    ensures mode == LIGHT <==> DARK_MODE_KEY in prefs && prefs[DARK_MODE_KEY] == StringPref("LIGHT")
    ensures DARK_MODE_KEY !in prefs ==> mode == SYSTEM
  {
    if DARK_MODE_KEY in prefs && prefs[DARK_MODE_KEY] == StringPref("DARK") then DARK
    else if DARK_MODE_KEY in prefs && prefs[DARK_MODE_KEY] == StringPref("LIGHT") then LIGHT
    else SYSTEM
  }

  /** `key ?: true` for a boolean key: it reads false only when false is stored. */
  function ReadFlag(prefs: Preferences, key: string): (enabled: bool)
    ensures !enabled <==> key in prefs && prefs[key] == BoolPref(false)
    ensures key !in prefs ==> enabled
    ensures key in prefs && prefs[key].BoolPref? ==> enabled == prefs[key].b
  {
    if key in prefs && prefs[key].BoolPref? then prefs[key].b else true
  }

  /** The sound reader; on when never set. */
  function ReadSound(prefs: Preferences): (enabled: bool)
    ensures SOUND_KEY !in prefs ==> enabled
    ensures !enabled <==> SOUND_KEY in prefs && prefs[SOUND_KEY] == BoolPref(false)
  {
    ReadFlag(prefs, SOUND_KEY)
  }

  /** The notifications reader; on when never set. */
  function ReadNotifications(prefs: Preferences): (enabled: bool)
    ensures NOTIFICATIONS_KEY !in prefs ==> enabled
    ensures !enabled <==> NOTIFICATIONS_KEY in prefs && prefs[NOTIFICATIONS_KEY] == BoolPref(false)
  {
    ReadFlag(prefs, NOTIFICATIONS_KEY)
  }

  /** Storing a mode's name and reading it back gives the mode, for all three modes. */
  lemma DarkModeRoundTrip(prefs: Preferences, mode: DarkMode)
    ensures ReadDarkMode(prefs[DARK_MODE_KEY := StringPref(Name(mode))]) == mode
  {
  }

  /** Distinct mode names: the stored name determines the mode. */
  lemma NameInjective(m1: DarkMode, m2: DarkMode)
    ensures Name(m1) == Name(m2) <==> m1 == m2
  {
  }

  /** The preferences store owned by the manager. */
  class DataStoreManager {
    var preferences: Preferences

    constructor (stored: Preferences)
      ensures preferences == stored
    {
      preferences := stored;
    }

    /** `setDarkMode`: store the mode's name; the other two settings read as before. */
    method SetDarkMode(mode: DarkMode)
      modifies this
      ensures preferences == old(preferences)[DARK_MODE_KEY := StringPref(Name(mode))]
      ensures ReadDarkMode(preferences) == mode
      ensures ReadSound(preferences) == old(ReadSound(preferences))
      ensures ReadNotifications(preferences) == old(ReadNotifications(preferences))
    {
      preferences := preferences[DARK_MODE_KEY := StringPref(Name(mode))];
    }

    /** `setSound`: store the flag; the other two settings read as before. */
    method SetSound(enabled: bool)
      modifies this
      ensures preferences == old(preferences)[SOUND_KEY := BoolPref(enabled)]
      ensures ReadSound(preferences) == enabled
      ensures ReadDarkMode(preferences) == old(ReadDarkMode(preferences))
      ensures ReadNotifications(preferences) == old(ReadNotifications(preferences))
    {
      preferences := preferences[SOUND_KEY := BoolPref(enabled)];
    }

    /** `setNotifications`: store the flag; the other two settings read as before. */
    method SetNotifications(enabled: bool)
      modifies this
      ensures preferences == old(preferences)[NOTIFICATIONS_KEY := BoolPref(enabled)]
      ensures ReadNotifications(preferences) == enabled
      ensures ReadDarkMode(preferences) == old(ReadDarkMode(preferences))
      ensures ReadSound(preferences) == old(ReadSound(preferences))
    {
      preferences := preferences[NOTIFICATIONS_KEY := BoolPref(enabled)];
    }
  }
}
