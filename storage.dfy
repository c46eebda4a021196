/** The device-local key-value store (AsyncStorage) that the screens, the REST
    client and the theme provider share, and the keys they use. */
module Storage {
  import opened Js

  const AuthTokenKey := "authToken"
  const UserKey := "user"
  const ThemePreferenceKey := "themePreference"
  const SignupEmailKey := "signupEmail"
  const ResetPasswordEmailKey := "resetPasswordEmail"
  const VerifiedEmailKey := "verifiedEmail"

  /** The value stored under `key`, null when there is none. */
  function Lookup(entries: map<string, string>, key: string): (r: Option<string>)
    ensures r.Some? <==> key in entries
    ensures r.Some? ==> r.value == entries[key]
  {
    if key in entries then Some(entries[key]) else None
  }

  /** The store: every stored value is a plain string. */
  class KeyValueStore {
    var entries: map<string, string>

    constructor (initial: map<string, string>)
      ensures entries == initial
    {
      entries := initial;
    }

    /** `getItem(key)`: null when the key is absent. */
    function GetItem(key: string): (r: Option<string>)
      reads this
      ensures r == Lookup(entries, key)
    {
      Lookup(entries, key)
    }

    /** `setItem(key, value)`. */
    method SetItem(key: string, value: string)
      modifies this
      ensures entries == old(entries)[key := value]
    {
      entries := entries[key := value];
    }

    /** `removeItem(key)`: removing an absent key changes nothing. */
    method RemoveItem(key: string)
      modifies this
      ensures entries == old(entries) - {key}
    {
      entries := entries - {key};
    }
  }
}
