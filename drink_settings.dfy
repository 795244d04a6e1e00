/** The drink-reminder settings (`DrinkReminderSettings`) and their persistence in
    the preference file "drink_settings" (`DrinkSettingsRepository`). */
module DrinkSettings {
  import opened Wrappers
  import opened KotlinInt
  import opened Text
  import opened Prefs

  /** Weekdays use the Calendar numbering: 1 is Sunday, 2 Monday, …, 7 Saturday. */
  datatype DrinkReminderSettings = DrinkReminderSettings(
    dailyGoal: Int32,
    intervalMinutes: Int32,
    repeatDays: set<Int32>,
    startHour: Int32,
    startMinute: Int32,
    endHour: Int32,
    endMinute: Int32,
    usePopupReminder: bool)

  /** The defaults: 1000 ml a day, every 60 minutes, Monday to Friday, 9:00–18:00,
      popup reminders on. */
  const DefaultSettings := DrinkReminderSettings(1000, 60, {2, 3, 4, 5, 6}, 9, 0, 18, 0, true)

  const DailyGoalKey := "dailyGoal"
  const IntervalKey := "intervalMinutes"
  const RepeatDaysKey := "repeatDays"
  const StartHourKey := "startHour"
  const StartMinuteKey := "startMinute"
  const EndHourKey := "endHour"
  const EndMinuteKey := "endMinute"
  const PopupKey := "usePopupReminder"

  const SettingsKeys: set<string> :=
    {DailyGoalKey, IntervalKey, RepeatDaysKey, StartHourKey, StartMinuteKey, EndHourKey, EndMinuteKey, PopupKey}

  /** The weekdays as stored: their decimal strings. */
  function FormatDays(days: set<Int32>): set<string>
  {
    set d | d in days :: IntToString(d)
  }

  /** `map { it.toInt() }.toSet()`: the parsed weekdays, or `None` when some string
      is not an `Int` (`toInt` throws). */
  function ParseDays(strings: set<string>): (r: Option<set<Int32>>)
    ensures r.Some? <==> forall s :: s in strings ==> ParseInt(s).Some?
    ensures r.Some? ==> forall s :: s in strings ==> ParseInt(s).value in r.value
    ensures r.Some? ==> forall d :: d in r.value ==> exists s :: s in strings && ParseInt(s) == Some(d)
  {
    if forall s :: s in strings ==> ParseInt(s).Some? then
      Some(set s | s in strings && ParseInt(s).Some? :: ParseInt(s).value)
    else None
  }

  /** Weekdays read back as written. */
  lemma DaysRoundTrip(days: set<Int32>)
    ensures ParseDays(FormatDays(days)) == Some(days)
  {
    forall d | d in days ensures ParseInt(IntToString(d)) == Some(d) {
      ParseIntToString(d);
    }
    var strings := FormatDays(days);
    forall s | s in strings ensures ParseInt(s).Some? && ParseInt(s).value in days {
      var d :| d in days && s == IntToString(d);
    }
    var r := set s | s in strings && ParseInt(s).Some? :: ParseInt(s).value;
    forall d | d in days ensures d in r {
      assert IntToString(d) in strings;
      assert ParseInt(IntToString(d)).value == d;
    }
    assert r == days;
  }

  /** `loadSettings`: every key with its default; `None` when a stored weekday is not
      a number, because `toInt` then throws and nothing is returned. */
  function ReadSettings(store: Store): Option<DrinkReminderSettings>
  {
    var days := ParseDays(GetStringSet(store, RepeatDaysKey, {"2", "3", "4", "5", "6"}));
    if days.None? then None
    else Some(DrinkReminderSettings(
      GetInt(store, DailyGoalKey, 1000),
      GetInt(store, IntervalKey, 60),
      days.value,
      GetInt(store, StartHourKey, 9),
      GetInt(store, StartMinuteKey, 0),
      GetInt(store, EndHourKey, 18),
      GetInt(store, EndMinuteKey, 0),
      GetBool(store, PopupKey, true)))
  }

  /** The preference file after `saveSettings`. */
  function WriteSettings(store: Store, s: DrinkReminderSettings): Store
  {
    store[DailyGoalKey := IntValue(s.dailyGoal)]
         [IntervalKey := IntValue(s.intervalMinutes)]
         [RepeatDaysKey := StringSetValue(FormatDays(s.repeatDays))]
         [StartHourKey := IntValue(s.startHour)]
         [StartMinuteKey := IntValue(s.startMinute)]
         [EndHourKey := IntValue(s.endHour)]
         [EndMinuteKey := IntValue(s.endMinute)]
         [PopupKey := BoolValue(s.usePopupReminder)]
  }

  /** A file without any of the keys loads as the defaults. */
  lemma ReadEmptyIsDefault(store: Store)
    requires forall k :: k in SettingsKeys ==> k !in store
    ensures ReadSettings(store) == Some(DefaultSettings)
  {
    var strings: set<string> := {"2", "3", "4", "5", "6"};
    var two: Int32, three: Int32, four: Int32, five: Int32, six: Int32 := 2, 3, 4, 5, 6;
    ParseIntToString(two); ParseIntToString(three); ParseIntToString(four);
    ParseIntToString(five); ParseIntToString(six);
    assert IntToString(2) == "2" && IntToString(3) == "3" && IntToString(4) == "4";
    assert IntToString(5) == "5" && IntToString(6) == "6";
    assert FormatDays({2, 3, 4, 5, 6}) == strings;
    DaysRoundTrip({2, 3, 4, 5, 6});
  }

  /** Saving then loading gives the saved settings back. */
  lemma WriteReadRoundTrip(store: Store, s: DrinkReminderSettings)
    ensures ReadSettings(WriteSettings(store, s)) == Some(s)
  {
    DaysRoundTrip(s.repeatDays);
  }

  /** A save writes the eight keys and leaves every other key as it was. */
  lemma WriteTouchesOnlySettingsKeys(store: Store, s: DrinkReminderSettings)
    ensures WriteSettings(store, s).Keys == store.Keys + SettingsKeys
    ensures forall k :: k in store && k !in SettingsKeys ==> WriteSettings(store, s)[k] == store[k]
  {
  }

  /** A stored weekday that is not a number makes the load fail instead of falling
      back to the defaults. */
  lemma BadWeekdayFailsLoad(store: Store, bad: string)
    requires RepeatDaysKey in store && store[RepeatDaysKey].StringSetValue?
    requires bad in store[RepeatDaysKey].ss && ParseInt(bad).None?
    ensures ReadSettings(store).None?
  {
  }

  /** `DrinkSettingsRepository`, holding its preference file. */
  class DrinkSettingsRepository {
    var prefs: Store

    constructor(prefs: Store)
      ensures this.prefs == prefs
    {
      this.prefs := prefs;
    }

    /** `loadSettings`; `None` stands for the exception a bad weekday raises. */
    method LoadSettings() returns (r: Option<DrinkReminderSettings>)
      ensures r == ReadSettings(prefs)
    {
      r := ReadSettings(prefs);
    }

    /** `saveSettings`: afterwards a load reads exactly these settings. */
    method SaveSettings(settings: DrinkReminderSettings)
      modifies this
      ensures prefs == WriteSettings(old(prefs), settings)
      ensures ReadSettings(prefs) == Some(settings)
    {
      prefs := WriteSettings(prefs, settings);
      WriteReadRoundTrip(old(prefs), settings);
    }
  }
}
