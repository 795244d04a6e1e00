/** `DrinkRecordRepository`: logging a drink under today's key and reading today's
    totals and the statistics through the DAO. "Now" and "today" are parameters. */
module DrinkRecordRepository {
  import opened Wrappers
  import opened KotlinInt
  import opened DrinkRecord
  import opened Collections
  import opened DrinkRecordDao

  class DrinkRecordRepository {
    const dao: DrinkRecordDao

    constructor(dao: DrinkRecordDao)
      ensures this.dao == dao
    {
      this.dao := dao;
    }

    /** `addDrinkRecord`: one new row with the amount as given (no check), the
        current time and today's key, under a fresh key. */
    method AddDrinkRecord(amount: Int32, now: int, today: CalendarDate)
      requires ValidDate(today) && dao.Valid()
      modifies dao
      ensures dao.Valid()
      ensures dao.records == old(dao.records) + [DrinkRecord(old(dao.nextId), amount, now, DateKey(today))]
      ensures dao.nextId == old(dao.nextId) + 1
    {
      var record := DrinkRecord(0, amount, now, DateKey(today));
      var _ := dao.InsertDrinkRecord(record);
    }

    /** `getTodayTotalAmount`: today's total, 0 for a day without rows. */
    method GetTodayTotalAmount(today: CalendarDate) returns (total: Int32)
      requires ValidDate(today)
      ensures total == TotalAmountByDate(dao.records, DateKey(today)).GetOr(0)
      ensures (forall r :: r in dao.records ==> r.date != DateKey(today)) ==> total == 0
    {
      TotalAmountByDateSpec(dao.records, DateKey(today));
      total := TotalAmountByDate(dao.records, DateKey(today)).GetOr(0);
    }

    /** `getTodayRecords`. */
    method GetTodayRecords(today: CalendarDate) returns (records: seq<DrinkRecord>)
      requires ValidDate(today)
      ensures records == RecordsByDate(dao.records, DateKey(today))
    {
      records := RecordsByDate(dao.records, DateKey(today));
    }

    /** `getLast7DaysStats`, passed through. */
    method GetLast7DaysStats() returns (stats: seq<DayStats>)
      ensures stats == Last7DaysStats(dao.records)
    {
      stats := Last7DaysStats(dao.records);
    }

    /** `getLast30DaysStats`, passed through. */
    method GetLast30DaysStats() returns (stats: seq<DayStats>)
      ensures stats == Last30DaysStats(dao.records)
    {
      stats := Last30DaysStats(dao.records);
    }

    /** `deleteRecord`, passed through. */
    method DeleteRecord(record: DrinkRecord)
      requires dao.Valid()
      modifies dao
      ensures dao.Valid()
      ensures dao.records == Filter(old(dao.records), NotId(record.id))
      ensures dao.nextId == old(dao.nextId)
    {
      dao.DeleteRecord(record);
    }
  }

  /** A drink logged today adds its amount to today's total, read with the same key
      format as the one it was filed under. */
  lemma LoggedDrinkCountsToday(records: seq<DrinkRecord>, id: int, amount: Int32, now: int, today: CalendarDate)
    requires ValidDate(today)
    ensures TotalAmountByDate(records + [DrinkRecord(id, amount, now, DateKey(today))], DateKey(today)).GetOr(0)
      == Wrap32(TotalAmountByDate(records, DateKey(today)).GetOr(0) + amount)
  {
    AppendedRowAddsToDayTotal(records, DrinkRecord(id, amount, now, DateKey(today)));
  }
}
