/** The `drink_records` table and its queries (`DrinkRecordDao`). The table is the
    sequence of its rows in insertion order; the queries are functions of it. */
module DrinkRecordDao {
  import opened Wrappers
  import opened KotlinInt
  import opened Text
  import opened Collections
  import opened DrinkRecord

  /** One row of the per-day statistics: a day key and that day's total. */
  datatype DayStats = DayStats(date: string, totalAmount: Int32)

  function Amount(r: DrinkRecord): int { r.amount }
  function DateOf(r: DrinkRecord): string { r.date }
  function IdOf(r: DrinkRecord): int { r.id }

  function OnDate(date: string): DrinkRecord -> bool
  {
    (r: DrinkRecord) => r.date == date
  }

  function NotOnDate(date: string): DrinkRecord -> bool
  {
    (r: DrinkRecord) => r.date != date
  }

  function NotId(id: int): DrinkRecord -> bool
  {
    (r: DrinkRecord) => r.id != id
  }

  /** The exact sum of a day's amounts. */
  function DaySum(records: seq<DrinkRecord>, date: string): int
  {
    SumOf(Filter(records, OnDate(date)), Amount)
  }

  // ---------------------------------------------------------------- queries

  /** `SELECT SUM(amount) … WHERE date = :date`, read as an `Int?`: SQL gives NULL
      for no rows, and the 64-bit sum is cut to 32 bits when read as an `Int`. */
  function TotalAmountByDate(records: seq<DrinkRecord>, date: string): Option<Int32>
  {
    var rows := Filter(records, OnDate(date));
    if |rows| == 0 then None else Some(Wrap32(SumOf(rows, Amount)))
  }

  /** The day total is absent exactly when no row has that day; otherwise it is the
      day's sum modulo 2^32, the sum itself when that fits an `Int`. */
  lemma TotalAmountByDateSpec(records: seq<DrinkRecord>, date: string)
    ensures TotalAmountByDate(records, date).None? <==> forall r :: r in records ==> r.date != date
    ensures TotalAmountByDate(records, date).Some? ==>
      (TotalAmountByDate(records, date).value - DaySum(records, date)) % 0x1_0000_0000 == 0
    ensures TotalAmountByDate(records, date).Some? && IntMin <= DaySum(records, date) <= IntMax ==>
      TotalAmountByDate(records, date).value == DaySum(records, date)
  {
    forall r | r in records && r.date == date ensures |Filter(records, OnDate(date))| > 0 {
      FilterContains(records, OnDate(date), r);
    }
  }

  /** Newest first. */
  predicate TimestampDesc(a: DrinkRecord, b: DrinkRecord) { a.timestamp >= b.timestamp }

  /** `SELECT * … WHERE date = :date ORDER BY timestamp DESC`. Rows with equal
      time stamps come out in insertion order here; SQL leaves that order open. */
  function RecordsByDate(records: seq<DrinkRecord>, date: string): seq<DrinkRecord>
  {
    SortBy(Filter(records, OnDate(date)), TimestampDesc)
  }

  /** The day's rows are exactly the rows of that day, each as often as in the
      table, newest first. */
  lemma RecordsByDateSpec(records: seq<DrinkRecord>, date: string, x: DrinkRecord)
    ensures multiset(RecordsByDate(records, date))[x] == if x.date == date then multiset(records)[x] else 0
    ensures SortedBy(RecordsByDate(records, date), TimestampDesc)
  {
    FilterMultiset(records, OnDate(date), x);
    SortBySorted(Filter(records, OnDate(date)), TimestampDesc);
  }

  /** One statistics row per record in `firsts`: its day and that day's total. */
  function DayRows(firsts: seq<DrinkRecord>, records: seq<DrinkRecord>): (rows: seq<DayStats>)
    ensures |rows| == |firsts|
    ensures forall i :: 0 <= i < |rows| ==>
      rows[i].date == firsts[i].date && rows[i].totalAmount == Wrap32(DaySum(records, firsts[i].date))
  {
    if |firsts| == 0 then []
    else [DayStats(firsts[0].date, Wrap32(DaySum(records, firsts[0].date)))] + DayRows(firsts[1..], records)
  }

  /** Later days first, comparing day keys as strings. */
  predicate DateDesc(a: DayStats, b: DayStats) { LexLe(b.date, a.date) }

  function StatsDate(s: DayStats): string { s.date }

  /** `SELECT date, SUM(amount) … GROUP BY date ORDER BY date DESC` without a limit. */
  function AllDayStats(records: seq<DrinkRecord>): seq<DayStats>
  {
    SortBy(DayRows(DistinctBy(records, DateOf), records), DateDesc)
  }

  /** The same query with `LIMIT limit`. */
  function DayStatsLimit(records: seq<DrinkRecord>, limit: nat): seq<DayStats>
  {
    Take(AllDayStats(records), limit)
  }

  /** `getLast7DaysStats`. */
  function Last7DaysStats(records: seq<DrinkRecord>): seq<DayStats> { DayStatsLimit(records, 7) }

  /** `getLast30DaysStats`. */
  function Last30DaysStats(records: seq<DrinkRecord>): seq<DayStats> { DayStatsLimit(records, 30) }

  lemma DateDescIsTotalPreorder()
    ensures TotalPreorder(DateDesc)
  {
    forall a: DayStats, b: DayStats ensures DateDesc(a, b) || DateDesc(b, a) {
      LexLeTotal(a.date, b.date);
    }
    forall a: DayStats, b: DayStats, c: DayStats | DateDesc(a, b) && DateDesc(b, c) ensures DateDesc(a, c) {
      LexLeTransitive(c.date, b.date, a.date);
    }
  }

  /** Each row of the full statistics is a day that has rows, with that day's total. */
  lemma AllDayStatsRows(records: seq<DrinkRecord>, s: DayStats)
    requires s in AllDayStats(records)
    ensures s.totalAmount == Wrap32(DaySum(records, s.date))
    ensures exists r :: r in records && r.date == s.date
  {
    var firsts := DistinctBy(records, DateOf);
    var rows := DayRows(firsts, records);
    assert s in multiset(AllDayStats(records));
    assert s in multiset(rows);
    var i :| 0 <= i < |rows| && rows[i] == s;
    assert firsts[i] in records;
  }

  /** Every day that has rows gets a row in the full statistics. */
  lemma AllDayStatsCoverDays(records: seq<DrinkRecord>, r: DrinkRecord)
    requires r in records
    ensures exists s :: s in AllDayStats(records) && s.date == r.date
  {
    var firsts := DistinctBy(records, DateOf);
    var rows := DayRows(firsts, records);
    var k :| 0 <= k < |records| && records[k] == r;
    DistinctByCoversKeys(records, DateOf, k);
    var j :| 0 <= j < |firsts| && DateOf(firsts[j]) == DateOf(records[k]);
    assert rows[j] in multiset(AllDayStats(records));
  }

  /** No day gets two rows in the full statistics. */
  lemma AllDayStatsDistinctDates(records: seq<DrinkRecord>)
    ensures forall i, j :: 0 <= i < j < |AllDayStats(records)| ==>
      AllDayStats(records)[i].date != AllDayStats(records)[j].date
  {
    var rows := DayRows(DistinctBy(records, DateOf), records);
    DistinctByUniqueKeys(records, DateOf);
    assert forall a, b :: 0 <= a < b < |rows| ==> StatsDate(rows[a]) != StatsDate(rows[b]);
    DistinctKeysPermutation(rows, AllDayStats(records), StatsDate);
  }

  /** The full statistics run latest day first. */
  lemma AllDayStatsSorted(records: seq<DrinkRecord>)
    ensures SortedBy(AllDayStats(records), DateDesc)
  {
    DateDescIsTotalPreorder();
    SortBySorted(DayRows(DistinctBy(records, DateOf), records), DateDesc);
  }

  /** The limited statistics hold at most `limit` rows, each a day that has rows,
      with that day's total. */
  lemma DayStatsLimitRows(records: seq<DrinkRecord>, limit: nat, s: DayStats)
    requires s in DayStatsLimit(records, limit)
    ensures |DayStatsLimit(records, limit)| <= limit
    ensures s.totalAmount == Wrap32(DaySum(records, s.date))
    ensures exists r :: r in records && r.date == s.date
  {
    AllDayStatsRows(records, s);
  }

  /** The limited statistics list strictly later days first. */
  lemma DayStatsLimitOrder(records: seq<DrinkRecord>, limit: nat, i: nat, j: nat)
    requires i < j < |DayStatsLimit(records, limit)|
    ensures LexLe(DayStatsLimit(records, limit)[j].date, DayStatsLimit(records, limit)[i].date)
    ensures DayStatsLimit(records, limit)[i].date != DayStatsLimit(records, limit)[j].date
  {
    AllDayStatsDistinctDates(records);
    AllDayStatsSorted(records);
    assert DayStatsLimit(records, limit)[i] == AllDayStats(records)[i];
    assert DayStatsLimit(records, limit)[j] == AllDayStats(records)[j];
  }

  /** A day that has rows is missing from the limited statistics only when the limit
      is reached, and then it is earlier than (or equal to, as a string) every
      listed day. */
  lemma DayStatsLimitKeepsLatest(records: seq<DrinkRecord>, limit: nat, r: DrinkRecord)
    requires r in records
    ensures
      || (exists s :: s in DayStatsLimit(records, limit) && s.date == r.date)
      || (|DayStatsLimit(records, limit)| == limit
          && forall s :: s in DayStatsLimit(records, limit) ==> LexLe(r.date, s.date))
  {
    var all := AllDayStats(records);
    AllDayStatsCoverDays(records, r);
    AllDayStatsSorted(records);
    var t :| t in all && t.date == r.date;
    var k :| 0 <= k < |all| && all[k] == t;
    if k < limit {
      KeptDayIsListed(all, limit, k);
    } else {
      CutOffDayIsEarlier(all, limit, k);
    }
  }

  /** A row among the first `limit` is kept. */
  lemma KeptDayIsListed(all: seq<DayStats>, limit: nat, k: nat)
    requires k < limit && k < |all|
    ensures all[k] in Take(all, limit)
  {
    assert Take(all, limit)[k] == all[k];
  }

  /** In a list sorted latest day first, a row past the first `limit` is no later
      than any of them. */
  lemma CutOffDayIsEarlier(all: seq<DayStats>, limit: nat, k: nat)
    requires SortedBy(all, DateDesc) && limit <= k < |all|
    ensures |Take(all, limit)| == limit
    ensures forall s :: s in Take(all, limit) ==> LexLe(all[k].date, s.date)
  {
    forall s | s in Take(all, limit) ensures LexLe(all[k].date, s.date) {
      var i :| 0 <= i < limit && Take(all, limit)[i] == s;
      assert DateDesc(all[i], all[k]);
    }
  }

  /** The 7-day statistics are the first seven rows of the 30-day statistics. */
  lemma Last7IsPrefixOfLast30(records: seq<DrinkRecord>)
    ensures Last7DaysStats(records) == Take(Last30DaysStats(records), 7)
  {
  }

  // ---------------------------------------------------------------- the table

  /** The table with Room's auto-generated keys (`AUTOINCREMENT`): `nextId` is one
      more than the largest key ever used, so keys of deleted rows are not reused. */
  class DrinkRecordDao {
    var records: seq<DrinkRecord>
    var nextId: int

    /** Keys are unique and all below the next key. */
    predicate Valid()
      reads this
    {
      && nextId >= 1
      && (forall i :: 0 <= i < |records| ==> records[i].id < nextId)
      && (forall i, j :: 0 <= i < j < |records| ==> records[i].id != records[j].id)
    }

    constructor()
      ensures records == [] && nextId == 1 && Valid()
    {
      records := [];
      nextId := 1;
    }

    /** `@Insert`: a record with key 0 gets the next key; a record with a key already
        in the table is refused (the default conflict strategy aborts), anything
        else is stored as given. */
    method InsertDrinkRecord(record: DrinkRecord) returns (inserted: bool)
      requires Valid()
      modifies this
      ensures Valid()
      ensures record.id == 0 ==>
        inserted && records == old(records) + [record.(id := old(nextId))] && nextId == old(nextId) + 1
      ensures record.id != 0 && (exists r :: r in old(records) && r.id == record.id) ==>
        !inserted && records == old(records) && nextId == old(nextId)
      ensures record.id != 0 && !(exists r :: r in old(records) && r.id == record.id) ==>
        inserted && records == old(records) + [record]
        && nextId == if record.id >= old(nextId) then record.id + 1 else old(nextId)
    {
      if record.id == 0 {
        records := records + [record.(id := nextId)];
        nextId := nextId + 1;
        inserted := true;
      } else if exists r :: r in records && r.id == record.id {
        inserted := false;
      } else {
        records := records + [record];
        if record.id >= nextId {
          nextId := record.id + 1;
        }
        inserted := true;
      }
    }

    /** `@Delete`: removes the row with the record's key. */
    method DeleteRecord(record: DrinkRecord)
      requires Valid()
      modifies this
      ensures records == Filter(old(records), NotId(record.id)) && nextId == old(nextId)
      ensures Valid()
    {
      FilterDistinctKeys(records, NotId(record.id), IdOf);
      records := Filter(records, NotId(record.id));
    }

    /** `DELETE … WHERE date = :date`. */
    method DeleteRecordsByDate(date: string)
      requires Valid()
      modifies this
      ensures records == Filter(old(records), NotOnDate(date)) && nextId == old(nextId)
      ensures Valid()
    {
      FilterDistinctKeys(records, NotOnDate(date), IdOf);
      records := Filter(records, NotOnDate(date));
    }
  }

  /** A delete by key removes the row with that key and keeps every other row. */
  lemma DeleteRecordSpec(records: seq<DrinkRecord>, id: int, x: DrinkRecord)
    ensures forall r :: r in Filter(records, NotId(id)) ==> r.id != id
    ensures x.id != id ==> multiset(Filter(records, NotId(id)))[x] == multiset(records)[x]
  {
    FilterMultiset(records, NotId(id), x);
  }

  /** A delete by day removes every row of that day and keeps every other row. */
  lemma DeleteByDateSpec(records: seq<DrinkRecord>, date: string, x: DrinkRecord)
    ensures forall r :: r in Filter(records, NotOnDate(date)) ==> r.date != date
    ensures x.date != date ==> multiset(Filter(records, NotOnDate(date)))[x] == multiset(records)[x]
    ensures TotalAmountByDate(Filter(records, NotOnDate(date)), date).None?
  {
    FilterMultiset(records, NotOnDate(date), x);
    TotalAmountByDateSpec(Filter(records, NotOnDate(date)), date);
  }

  /** A new row of a day adds its amount to the day's exact sum. */
  lemma DaySumAppend(records: seq<DrinkRecord>, r: DrinkRecord)
    ensures Filter(records + [r], OnDate(r.date)) == Filter(records, OnDate(r.date)) + [r]
    ensures DaySum(records + [r], r.date) == DaySum(records, r.date) + r.amount
  {
    assert (records + [r])[..|records|] == records;
    var rows := Filter(records, OnDate(r.date));
    SumOfAppend(rows, [r], Amount);
    assert [r][..0] == [];
  }

  /** A new row of a day adds its amount to the day's total (in `Int` arithmetic),
      starting from 0 for a day without rows. */
  lemma AppendedRowAddsToDayTotal(records: seq<DrinkRecord>, r: DrinkRecord)
    ensures TotalAmountByDate(records + [r], r.date) == Some(Wrap32(TotalAmountByDate(records, r.date).GetOr(0) + r.amount))
  {
    DaySumAppend(records, r);
    var rows := Filter(records, OnDate(r.date));
    if |rows| == 0 {
      assert SumOf(rows, Amount) == 0;
    } else {
      Wrap32Add(SumOf(rows, Amount), r.amount);
    }
  }
}
