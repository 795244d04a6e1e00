/** An Android `SharedPreferences` file as an in-memory map from keys to typed
    values, with the `getX(key, default)` readers and `putX` writers the app uses. */
module Prefs {
  import opened KotlinInt

  datatype PrefValue =
    | IntValue(i: Int32)
    | BoolValue(b: bool)
    | StringValue(s: string)
    | StringSetValue(ss: set<string>)

  type Store = map<string, PrefValue>

  /** `getInt(key, default)`: the stored `Int`, or `default` when the key is absent. */
  function GetInt(store: Store, key: string, default: Int32): (r: Int32)
    ensures key !in store ==> r == default
    ensures key in store && store[key].IntValue? ==> r == store[key].i
  {
    if key in store && store[key].IntValue? then store[key].i else default
  }

  /** `getBoolean(key, default)`. */
  function GetBool(store: Store, key: string, default: bool): (r: bool)
    ensures key !in store ==> r == default
    ensures key in store && store[key].BoolValue? ==> r == store[key].b
  {
    if key in store && store[key].BoolValue? then store[key].b else default
  }

  /** `getString(key, default)`. */
  function GetString(store: Store, key: string, default: string): (r: string)
    ensures key !in store ==> r == default
    ensures key in store && store[key].StringValue? ==> r == store[key].s
  {
    if key in store && store[key].StringValue? then store[key].s else default
  }

  /** `getStringSet(key, default)`. */
  function GetStringSet(store: Store, key: string, default: set<string>): (r: set<string>)
    ensures key !in store ==> r == default
    ensures key in store && store[key].StringSetValue? ==> r == store[key].ss
  {
    if key in store && store[key].StringSetValue? then store[key].ss else default
  }
}
