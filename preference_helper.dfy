/** `PreferenceHelper`: the work and rest durations, in minutes, kept in the
    `reminder_prefs` file. */
module PreferenceHelper {
  import opened KotlinInt
  import opened Prefs

  const KeyWorkMinutes: string := "work_minutes"
  const KeyRestMinutes: string := "rest_minutes"
  const DefaultWorkMinutes: Int32 := 30
  const DefaultRestMinutes: Int32 := 5

  /** The work duration read from the file, 30 minutes when unset. */
  function WorkMinutesOf(store: Store): (r: Int32)
    ensures KeyWorkMinutes !in store ==> r == 30
    ensures KeyWorkMinutes in store && store[KeyWorkMinutes].IntValue? ==> r == store[KeyWorkMinutes].i
  {
    GetInt(store, KeyWorkMinutes, DefaultWorkMinutes)
  }

  /** The rest duration read from the file, 5 minutes when unset. */
  function RestMinutesOf(store: Store): (r: Int32)
    ensures KeyRestMinutes !in store ==> r == 5
    ensures KeyRestMinutes in store && store[KeyRestMinutes].IntValue? ==> r == store[KeyRestMinutes].i
  {
    GetInt(store, KeyRestMinutes, DefaultRestMinutes)
  }

  /** The file after `saveTimes(work, rest)`: both keys written, nothing checked. */
  function SaveTimesTo(store: Store, workMinutes: Int32, restMinutes: Int32): (r: Store)
    ensures r.Keys == store.Keys + {KeyWorkMinutes, KeyRestMinutes}
    ensures forall k :: k in store && k != KeyWorkMinutes && k != KeyRestMinutes ==> r[k] == store[k]
  {
    store[KeyWorkMinutes := IntValue(workMinutes)][KeyRestMinutes := IntValue(restMinutes)]
  }

  /** Whatever was saved is read back exactly, zero and negative durations
      included: `saveTimes` validates nothing. */
  lemma SaveTimesReadBack(store: Store, workMinutes: Int32, restMinutes: Int32)
    ensures WorkMinutesOf(SaveTimesTo(store, workMinutes, restMinutes)) == workMinutes
    ensures RestMinutesOf(SaveTimesTo(store, workMinutes, restMinutes)) == restMinutes
  {
  }

  /** Saving again replaces both durations: only the last save is visible. */
  lemma SaveTimesOverwrites(store: Store, w1: Int32, r1: Int32, w2: Int32, r2: Int32)
    ensures SaveTimesTo(SaveTimesTo(store, w1, r1), w2, r2) == SaveTimesTo(store, w2, r2)
  {
  }

  /** The `PreferenceHelper` object over its preferences file. */
  class PreferenceHelper {
    var prefs: Store

    constructor(prefs: Store)
      ensures this.prefs == prefs
    {
      this.prefs := prefs;
    }

    /** `saveTimes`. */
    method SaveTimes(workMinutes: Int32, restMinutes: Int32)
      modifies this
      ensures prefs == SaveTimesTo(old(prefs), workMinutes, restMinutes)
      ensures WorkMinutesOf(prefs) == workMinutes && RestMinutesOf(prefs) == restMinutes
    {
      prefs := SaveTimesTo(prefs, workMinutes, restMinutes);
    }

    /** `getWorkMinutes`. */
    method GetWorkMinutes() returns (minutes: Int32)
      ensures minutes == WorkMinutesOf(prefs)
    {
      minutes := WorkMinutesOf(prefs);
    }

    /** `getRestMinutes`. */
    method GetRestMinutes() returns (minutes: Int32)
      ensures minutes == RestMinutesOf(prefs)
    {
      minutes := RestMinutesOf(prefs);
    }
  }
}
