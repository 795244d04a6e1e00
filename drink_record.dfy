/** One logged drink (`DrinkRecord`) and the day key it is filed under. */
module DrinkRecord {
  import opened KotlinInt
  import opened Text

  /** A row of the `drink_records` table. `id` 0 asks the database for a fresh key;
      `date` is the day key of the moment it was logged. */
  datatype DrinkRecord = DrinkRecord(id: int, amount: Int32, timestamp: int, date: string)

  /** The fields of `Calendar` the day key reads: `MONTH` counts from 0. */
  datatype CalendarDate = CalendarDate(year: nat, month: nat, dayOfMonth: nat)

  predicate ValidDate(d: CalendarDate)
  {
    d.month <= 11 && 1 <= d.dayOfMonth <= 31
  }

  /** `getCurrentDateString`: the year, then the month (counted from 1) and the day,
      each padded to two digits, joined by `-`. */
  function DateKey(d: CalendarDate): (key: string)
    requires ValidDate(d)
    ensures |key| == |IntToString(d.year)| + 6
    ensures key[..|IntToString(d.year)|] == IntToString(d.year)
  {
    Format02TwoDigits(d.month + 1);
    Format02TwoDigits(d.dayOfMonth);
    IntToString(d.year) + "-" + Format02(d.month + 1) + "-" + Format02(d.dayOfMonth)
  }

  /** The month field of a key reads as the month counted from 1, in 01..12, and the
      day field as the day of the month. */
  lemma DateKeyFields(d: CalendarDate)
    requires ValidDate(d)
    ensures var y := |IntToString(d.year)|;
      && AllDigits(DateKey(d)[y + 1..y + 3]) && 1 <= DigitsValue(DateKey(d)[y + 1..y + 3]) <= 12
      && DigitsValue(DateKey(d)[y + 1..y + 3]) == d.month + 1
      && AllDigits(DateKey(d)[y + 4..]) && DigitsValue(DateKey(d)[y + 4..]) == d.dayOfMonth
  {
    DateKeySlices(d);
    TwoDigitValue(d.month + 1);
    TwoDigitValue(d.dayOfMonth);
  }

  /** Where the two padded fields sit in a key. */
  lemma DateKeySlices(d: CalendarDate)
    requires ValidDate(d)
    ensures var y := |IntToString(d.year)|;
      && DateKey(d)[y + 1..y + 3] == Format02(d.month + 1)
      && DateKey(d)[y + 4..] == Format02(d.dayOfMonth)
  {
    var y := IntToString(d.year);
    Format02TwoDigits(d.month + 1);
    Format02TwoDigits(d.dayOfMonth);
    var key := DateKey(d);
    assert key == y + "-" + Format02(d.month + 1) + "-" + Format02(d.dayOfMonth);
    assert key[|y| + 1..|y| + 3] == Format02(d.month + 1);
    assert key[|y| + 4..] == Format02(d.dayOfMonth);
  }

  lemma TwoDigitValue(n: nat)
    requires n < 100
    ensures AllDigits(Format02(n)) && DigitsValue(Format02(n)) == n
  {
    if n >= 10 {
      DigitsValueOfNatToDigits(n);
    } else {
      var s := Format02(n);
      assert s == ['0', DigitChar(n)];
      assert s[..1] == ['0'] && s[..1][..0] == [];
      assert DigitsValue(s[..1]) == 0;
      assert DigitValue(s[1]) == n;
    }
  }

  /** Calendar order of days. */
  predicate ChronoLe(a: CalendarDate, b: CalendarDate)
  {
    a.year < b.year
    || (a.year == b.year && (a.month < b.month || (a.month == b.month && a.dayOfMonth <= b.dayOfMonth)))
  }

  /** The part of a key after the year. */
  function MonthDay(d: CalendarDate): string
    requires ValidDate(d)
  {
    "-" + Format02(d.month + 1) + "-" + Format02(d.dayOfMonth)
  }

  lemma MonthDayOrder(a: CalendarDate, b: CalendarDate)
    requires ValidDate(a) && ValidDate(b)
    ensures LexLe(MonthDay(a), MonthDay(b)) <==>
      a.month < b.month || (a.month == b.month && a.dayOfMonth <= b.dayOfMonth)
  {
    var ma, mb := Format02(a.month + 1), Format02(b.month + 1);
    var da, db := Format02(a.dayOfMonth), Format02(b.dayOfMonth);
    Format02TwoDigits(a.month + 1); Format02TwoDigits(b.month + 1);
    assert MonthDay(a) == "-" + (ma + ("-" + da));
    assert MonthDay(b) == "-" + (mb + ("-" + db));
    LexLeAppend("-", "-", ma + ("-" + da), mb + ("-" + db));
    LexLeAppend(ma, mb, "-" + da, "-" + db);
    LexLeAppend("-", "-", da, db);
    Format02Order(a.month + 1, b.month + 1);
    Format02Order(a.dayOfMonth, b.dayOfMonth);
  }

  /** For four-digit years, comparing keys as strings is comparing the days, and
      equal keys are the same day: what sorting stored keys relies on. */
  lemma DateKeyOrder(a: CalendarDate, b: CalendarDate)
    requires ValidDate(a) && ValidDate(b)
    requires 1000 <= a.year <= 9999 && 1000 <= b.year <= 9999
    ensures LexLe(DateKey(a), DateKey(b)) <==> ChronoLe(a, b)
    ensures DateKey(a) == DateKey(b) <==> a == b
  {
    var ya, yb := NatToDigits(a.year), NatToDigits(b.year);
    FourDigits(a.year);
    FourDigits(b.year);
    assert DateKey(a) == ya + MonthDay(a);
    assert DateKey(b) == yb + MonthDay(b);
    LexLeAppend(ya, yb, MonthDay(a), MonthDay(b));
    NatToDigitsOrder(a.year, b.year);
    MonthDayOrder(a, b);
    if DateKey(a) == DateKey(b) {
      LexLeTotal(DateKey(a), DateKey(b));
      LexLeAppend(yb, ya, MonthDay(b), MonthDay(a));
      MonthDayOrder(b, a);
    }
  }
}
