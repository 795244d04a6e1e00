/** The settings screen's edits (`DrinkSettingsScreen`): each computes new settings
    from the settings shown. */
module SettingsScreen {
  import opened Wrappers
  import opened KotlinInt
  import opened Text
  import opened DrinkSettings

  /** What the time picker can return. */
  predicate PickerTime(hour: int, minute: int)
  {
    0 <= hour <= 23 && 0 <= minute <= 59
  }

  /** `hour * 60 + minute` in Kotlin `Int` arithmetic. */
  function MinuteOfDay(hour: Int32, minute: Int32): (m: Int32)
    ensures PickerTime(hour, minute) ==> m == hour * 60 + minute
  {
    Wrap32(Wrap32(hour * 60) + minute)
  }

  function StartOf(s: DrinkReminderSettings): Int32 { MinuteOfDay(s.startHour, s.startMinute) }
  function EndOf(s: DrinkReminderSettings): Int32 { MinuteOfDay(s.endHour, s.endMinute) }

  /** Everything but the reminder window is the same in both. */
  predicate SameButWindow(a: DrinkReminderSettings, b: DrinkReminderSettings)
  {
    a.(startHour := b.startHour, startMinute := b.startMinute, endHour := b.endHour, endMinute := b.endMinute) == b
  }

  /** The start picker: take the picked start; if it is not before the end, move the
      end to one hour after it, same minute, with hour 23 wrapping to 0. */
  function OnStartTimeSelected(s: DrinkReminderSettings, hour: Int32, minute: Int32): (r: DrinkReminderSettings)
    requires PickerTime(hour, minute)
    ensures SameButWindow(r, s)
    ensures r.startHour == hour && r.startMinute == minute
    ensures hour * 60 + minute < EndOf(s) ==> r.endHour == s.endHour && r.endMinute == s.endMinute
    ensures hour * 60 + minute >= EndOf(s) ==> r.endMinute == minute && r.endHour == (hour + 1) % 24
    ensures hour < 23 ==> StartOf(r) < EndOf(r)
    ensures PickerTime(r.startHour, r.startMinute)
    ensures PickerTime(s.endHour, s.endMinute) ==> PickerTime(r.endHour, r.endMinute)
  {
    var startMinutes := MinuteOfDay(hour, minute);
    var endMinutes := EndOf(s);
    if startMinutes >= endMinutes then
      var newEndHour: Int32 := if hour == 23 then 0 else hour + 1;
      s.(startHour := hour, startMinute := minute, endHour := newEndHour, endMinute := minute)
    else
      s.(startHour := hour, startMinute := minute)
  }

  /** A conflicting start at 23:mm leaves the end at 00:mm, before the start. */
  lemma StartAtElevenPmBreaksOrder(s: DrinkReminderSettings, minute: Int32)
    requires PickerTime(23, minute) && 23 * 60 + minute >= EndOf(s)
    ensures EndOf(OnStartTimeSelected(s, 23, minute)) < StartOf(OnStartTimeSelected(s, 23, minute))
  {
  }

  /** The end picker: take the picked end; if it is not after the start, move the
      start to one hour before it, same minute, with hour 0 wrapping to 23. */
  function OnEndTimeSelected(s: DrinkReminderSettings, hour: Int32, minute: Int32): (r: DrinkReminderSettings)
    requires PickerTime(hour, minute)
    ensures SameButWindow(r, s)
    ensures r.endHour == hour && r.endMinute == minute
    ensures hour * 60 + minute > StartOf(s) ==> r.startHour == s.startHour && r.startMinute == s.startMinute
    ensures hour * 60 + minute <= StartOf(s) ==> r.startMinute == minute && r.startHour == (hour + 23) % 24
    ensures hour > 0 ==> StartOf(r) < EndOf(r)
    ensures PickerTime(r.endHour, r.endMinute)
    ensures PickerTime(s.startHour, s.startMinute) ==> PickerTime(r.startHour, r.startMinute)
  {
    var startMinutes := StartOf(s);
    var endMinutes := MinuteOfDay(hour, minute);
    if endMinutes <= startMinutes then
      var newStartHour: Int32 := if hour == 0 then 23 else hour - 1;
      s.(startHour := newStartHour, startMinute := minute, endHour := hour, endMinute := minute)
    else
      s.(endHour := hour, endMinute := minute)
  }

  /** A conflicting end at 00:mm leaves the start at 23:mm, after the end. */
  lemma EndAtMidnightBreaksOrder(s: DrinkReminderSettings, minute: Int32)
    requires PickerTime(0, minute) && minute <= StartOf(s)
    ensures StartOf(OnEndTimeSelected(s, 0, minute)) > EndOf(OnEndTimeSelected(s, 0, minute))
  {
  }

  /** A weekday button press: add the day when it becomes selected, remove it
      otherwise. */
  function ToggleDay(days: set<Int32>, day: Int32, selected: bool): (r: set<Int32>)
    ensures day in r <==> selected
    ensures forall d :: d != day ==> (d in r <==> d in days)
  {
    if selected then days + {day} else days - {day}
  }

  /** The weekday buttons, Monday first, as Calendar day numbers. */
  const WeekdayButtons: seq<Int32> := [2, 3, 4, 5, 6, 7, 1]

  /** Calendar's number of the weekday `i` days after Monday. */
  function CalendarDay(i: nat): (d: int)
    requires i < 7
    ensures 1 <= d <= 7
  {
    (i + 1) % 7 + 1
  }

  /** The buttons list each Calendar weekday once, Monday to Sunday. */
  lemma WeekdayButtonsAreCalendarWeek()
    ensures |WeekdayButtons| == 7
    ensures forall i :: 0 <= i < 7 ==> WeekdayButtons[i] == CalendarDay(i)
    ensures forall d :: 1 <= d <= 7 <==> d in WeekdayButtons
    ensures forall i, j :: 0 <= i < j < 7 ==> WeekdayButtons[i] != WeekdayButtons[j]
  {
    assert forall i :: 0 <= i < 7 ==> WeekdayButtons[i] == CalendarDay(i);
    forall d | 1 <= d <= 7 ensures d in WeekdayButtons {
      assert WeekdayButtons[(d + 5) % 7] == d;
    }
  }

  /** The daily-goal field: a text that parses as an `Int` becomes the goal (no sign
      or range check); any other text is ignored. The inner `?: 0` is never used,
      because the text was just parsed. */
  function OnGoalTextChanged(s: DrinkReminderSettings, text: string): (r: DrinkReminderSettings)
    ensures ParseInt(text).None? ==> r == s
    ensures ParseInt(text).Some? ==> r == s.(dailyGoal := ParseInt(text).value)
  {
    match ParseInt(text)
    case Some(_) => s.(dailyGoal := ParseInt(text).GetOr(0))
    case None => s
  }

  /** The interval field, guarded the same way. */
  function OnIntervalTextChanged(s: DrinkReminderSettings, text: string): (r: DrinkReminderSettings)
    ensures ParseInt(text).None? ==> r == s
    ensures ParseInt(text).Some? ==> r == s.(intervalMinutes := ParseInt(text).value)
  {
    match ParseInt(text)
    case Some(_) => s.(intervalMinutes := ParseInt(text).GetOr(0))
    case None => s
  }

  /** Typing any `Int`, zero and negative numbers included, sets the goal and the
      interval to it. */
  lemma TypedNumbersAreAccepted(s: DrinkReminderSettings, n: Int32)
    ensures OnGoalTextChanged(s, IntToString(n)).dailyGoal == n
    ensures OnIntervalTextChanged(s, IntToString(n)).intervalMinutes == n
  {
    ParseIntToString(n);
  }
}
