/** The calendar screen (CalendarViewModel.swift): the month's revenue, the
    selected day's record, adjustment and overall totals, the ±1 step of a
    record's count at its integer unit price, the month grid of leading
    blanks and day cells, and the lookups the cells and rows use. The lists
    are the snapshots the screen holds after its fetches. */
module CalendarView {
  import opened Wrappers
  import opened Lists
  import opened Dates
  import opened Models
  import opened Store
  import opened Documents
  import RS = RecordService
  import AS = AdjustmentService
  import TS = TreatmentService

  // ------------------------------------------------------------------ totals

  /** `monthlyRevenue` over the month's records and `totalRecordAmount` over
      the selected day's: the sum of the records' totals. */
  function RecordTotal(records: seq<DailyRecord>): int
  {
    Sum(records, RS.TotalOf)
  }

  /** `totalAdjustmentAmount`: the sum of the selected day's adjustments. */
  function AdjustmentTotal(adjustments: seq<DailyAdjustment>): int
  {
    Sum(adjustments, AS.AmountOf)
  }

  /** `dailyTotal`: what the day's records and adjustments bring in. */
  function DailyTotal(records: seq<DailyRecord>, adjustments: seq<DailyAdjustment>): int
  {
    RecordTotal(records) + AdjustmentTotal(adjustments)
  }

  // --------------------------------------------------------------- count step

  /** The new count of `updateRecordCount`: one more, or one fewer but never
      below zero. */
  function NewCount(count: int, increment: bool): (n: int)
    ensures increment ==> n == count + 1
    ensures !increment ==> n >= 0
    ensures !increment && count >= 1 ==> n == count - 1
    ensures !increment && count < 1 ==> n == 0
  {
    if increment then count + 1 else if count - 1 > 0 then count - 1 else 0
  }

  /** The new total of `updateRecordCount`: the integer unit price (Swift's
      truncating `/`, which traps on a zero count) times the new count. */
  function NewTotal(record: DailyRecord, newCount: int): (t: int)
    requires record.count != 0
    ensures record.count > 0 ==> t == record.UnitPrice() * newCount
  {
    TruncDiv(record.totalAmount, record.count) * newCount
  }

  /** `updateRecordCount(record:increment:)`: a record without an id is
      left alone and no call is made (`None`); otherwise the record service
      is asked to set the new count and total, which deletes the record when
      the count has come down to zero. The refetch that follows a success is
      not part of this model. */
  method UpdateRecordCount(service: RS.RecordService, record: DailyRecord, increment: bool,
                           writeReply: WriteReply, deleteReply: WriteReply)
    returns (outcome: Option<Outcome<Error>>)
    requires record.id.Some? ==> record.count != 0
    modifies service
    ensures record.id.None? ==>
      outcome.None? && service.records == old(service.records) && service.lastError == old(service.lastError)
    ensures record.id.Some? ==>
      var id, n := record.id.value, NewCount(record.count, increment);
      && outcome.Some?
      && (n <= 0 ==>
            match deleteReply
            case Written => outcome.value == Pass && service.records == RemoveId(old(service.records), RS.RecordId, id)
            case WriteRejected(reason) => outcome.value == Fail(DeleteFailed(reason)) && service.records == old(service.records))
      && (n > 0 ==>
            match writeReply
            case Written =>
              outcome.value == Pass && service.records == RS.SetCount(old(service.records), id, n, NewTotal(record, n))
            case WriteRejected(reason) => outcome.value == Fail(UpdateFailed(reason)) && service.records == old(service.records))
    ensures record.id.Some? && !increment && record.count == 1 && deleteReply.Written? ==>
      service.records == RemoveId(old(service.records), RS.RecordId, record.id.value)
    ensures RS.PositiveCounts(old(service.records)) ==> RS.PositiveCounts(service.records)
  {
    if record.id.None? {
      return None;
    }
    var newCount := NewCount(record.count, increment);
    var newTotalAmount := NewTotal(record, newCount);
    var o := service.UpdateRecordCount(record.id.value, newCount, newTotalAmount, writeReply, deleteReply);
    outcome := Some(o);
  }

  // -------------------------------------------------------------- month grid

  /** The date of day `d` (counting from 1) of the month that starts at
      `startOfMonth`: `date(bySetting: .day, value: d, of: startOfMonth)` in
      a time zone without daylight-saving shifts. */
  function DayDate(startOfMonth: Instant, d: int): Instant
  {
    startOfMonth + (d - 1) * SecondsPerDay
  }

  /** `getDaysInMonth()`: `firstWeekday - 1` blank cells, then one cell per
      day of the month, in order; no cells at all when the calendar gives no
      range of days. */
  method DaysInMonth(startOfMonth: Instant, firstWeekday: int, dayCount: Option<nat>)
    returns (days: seq<Option<Instant>>)
    requires dayCount.Some? ==> firstWeekday >= 1
    ensures dayCount.None? ==> days == []
    ensures dayCount.Some? ==> |days| == firstWeekday - 1 + dayCount.value
    ensures dayCount.Some? ==> forall i :: 0 <= i < firstWeekday - 1 ==> days[i].None?
    ensures dayCount.Some? ==>
      forall d :: 1 <= d <= dayCount.value ==> days[firstWeekday - 2 + d] == Some(DayDate(startOfMonth, d))
  {
    days := [];
    if dayCount.None? {
      return;
    }
    var n := dayCount.value;
    var blank := 1;
    while blank < firstWeekday
      invariant 1 <= blank <= firstWeekday
      invariant |days| == blank - 1
      invariant forall i :: 0 <= i < |days| ==> days[i].None?
    {
      days := days + [None];
      blank := blank + 1;
    }
    var day := 1;
    while day <= n
      invariant 1 <= day <= n + 1
      invariant |days| == firstWeekday - 1 + (day - 1)
      invariant forall i :: 0 <= i < firstWeekday - 1 ==> days[i].None?
      invariant forall d :: 1 <= d < day ==> days[firstWeekday - 2 + d] == Some(DayDate(startOfMonth, d))
    {
      days := days + [Some(DayDate(startOfMonth, day))];
      day := day + 1;
    }
  }

  // ----------------------------------------------------------------- lookups

  /** `hasRecords(for:)`: some record of the month falls on the date's day. */
  function HasRecords(monthlyRecords: seq<DailyRecord>, date: Instant): (r: bool)
    ensures r <==> exists i :: 0 <= i < |monthlyRecords| && SameDay(monthlyRecords[i].date, date)
  {
    Contains(monthlyRecords, RS.OnDayOf(date))
  }

  /** `getTreatment(byId:)`: the first treatment with the id, and none when
      no treatment has it. */
  function GetTreatment(treatments: seq<Treatment>, id: string): (t: Option<Treatment>)
    ensures t.None? <==> forall k :: 0 <= k < |treatments| ==> treatments[k].id != Some(id)
    ensures t.Some? ==> t.value.id == Some(id) && t.value in treatments
    ensures t.Some? ==>
      exists i :: 0 <= i < |treatments| && treatments[i] == t.value && treatments[i].id == Some(id)
                  && forall j :: 0 <= j < i ==> treatments[j].id != Some(id)
  {
    FindIdFacts(treatments, TS.TreatmentId, id);
    FindId(treatments, TS.TreatmentId, id)
  }

  // ------------------------------------------------------------------ lemmas

  /** With the selected day's records and adjustments fetched, the screen's
      day total is the record service's revenue for the day plus the
      adjustment service's total for it, which is its discounts plus its
      additions. */
  lemma DailyTotalOfDay(records: seq<DailyRecord>, adjustments: seq<DailyAdjustment>, day: Instant)
    requires forall i :: 0 <= i < |records| ==> RS.OnDay(day, records[i])
    requires forall i :: 0 <= i < |adjustments| ==> AS.OnDay(day, adjustments[i])
    ensures DailyTotal(records, adjustments) == RS.TotalRevenueOn(records, day) + AS.TotalAdjustment(adjustments, day)
    ensures DailyTotal(records, adjustments) ==
      RS.TotalRevenueOn(records, day) + AS.TotalDiscount(adjustments, day) + AS.TotalExtra(adjustments, day)
  {
    FilterAll(records, RS.OnDayOf(day));
    FilterAll(adjustments, AS.OnDayOf(day));
    AS.TotalsSplit(adjustments, day);
  }

  function OffDayShareOf(day: Instant): DailyRecord -> int
  {
    (r: DailyRecord) => if RS.OnDay(day, r) then 0 else r.totalAmount
  }

  /** When no total is negative, a day's revenue lies between zero and the
      month's revenue. */
  lemma DayWithinMonth(monthlyRecords: seq<DailyRecord>, day: Instant)
    requires forall i :: 0 <= i < |monthlyRecords| ==> monthlyRecords[i].totalAmount >= 0
    ensures 0 <= RS.TotalRevenueOn(monthlyRecords, day) <= RecordTotal(monthlyRecords)
  {
    RS.TotalRevenueAsSum(monthlyRecords, day);
    SumAdd(monthlyRecords, RS.TotalOf, RS.DayShareOf(day), OffDayShareOf(day));
    SumSign(monthlyRecords, RS.DayShareOf(day));
    SumSign(monthlyRecords, OffDayShareOf(day));
  }

  /** A day without records has no revenue; a day with records whose totals
      are all positive has some. */
  lemma HasRecordsRevenue(monthlyRecords: seq<DailyRecord>, day: Instant)
    ensures !HasRecords(monthlyRecords, day) ==> RS.TotalRevenueOn(monthlyRecords, day) == 0
    ensures HasRecords(monthlyRecords, day) && (forall i :: 0 <= i < |monthlyRecords| ==> monthlyRecords[i].totalAmount > 0)
      ==> RS.TotalRevenueOn(monthlyRecords, day) > 0
  {
    RS.TotalRevenueAsSum(monthlyRecords, day);
    PositiveShare(monthlyRecords, day);
  }

  lemma {:induction false} PositiveShare(records: seq<DailyRecord>, day: Instant)
    ensures (forall i :: 0 <= i < |records| ==> !RS.OnDay(day, records[i])) ==> Sum(records, RS.DayShareOf(day)) == 0
    ensures (exists i :: 0 <= i < |records| && RS.OnDay(day, records[i]))
            && (forall i :: 0 <= i < |records| ==> records[i].totalAmount > 0)
      ==> Sum(records, RS.DayShareOf(day)) > 0
  {
    if records != [] {
      PositiveShare(records[1..], day);
      assert forall i :: 1 <= i < |records| ==> records[1..][i - 1] == records[i];
      SumSign(records[1..], RS.DayShareOf(day));
    }
  }

  /** A count stepped up and then down, or down and then up, is the count
      it started from, as long as it was at least one. */
  lemma CountStepsInverse(count: int)
    requires count >= 1
    ensures NewCount(NewCount(count, true), false) == count
    ensures NewCount(NewCount(count, false), true) == count
  {
  }

  /** Dividing an exact multiple of a positive count by it gives back the
      factor, for either sign (Swift's division truncates). */
  lemma ExactQuotient(p: int, c: int)
    requires c > 0
    ensures TruncDiv(p * c, c) == p
  {
    var q := TruncDiv(p * c, c);
    assert p * c - q * c == (p - q) * c;
    assert -c < (p - q) * c < c;
    MulAwayFromZero(p - q, c);
  }

  lemma MulAwayFromZero(x: int, c: int)
    requires c > 0
    ensures x >= 1 ==> x * c >= c
    ensures x <= -1 ==> x * c <= -c
  {
    if x >= 1 {
      assert x * c == c + (x - 1) * c;
    } else if x <= -1 {
      assert x * c == -c + (x + 1) * c;
    }
  }

  /** When every treatment of the record was sold at one price, stepping
      the count keeps the total price times count. */
  lemma NewTotalAtPrice(record: DailyRecord, price: int, increment: bool)
    requires record.count > 0 && record.totalAmount == price * record.count
    ensures NewTotal(record, NewCount(record.count, increment)) == price * NewCount(record.count, increment)
  {
    ExactQuotient(price, record.count);
  }

  /** Recomputing a non-negative total at its own count loses less than one
      unit per treatment, and never adds any. */
  lemma RecomputedTotal(record: DailyRecord)
    requires record.count > 0 && record.totalAmount >= 0
    ensures NewTotal(record, record.count) <= record.totalAmount < NewTotal(record, record.count) + record.count
  {
    var u := record.UnitPrice();
    assert (u + 1) * record.count == u * record.count + record.count;
  }

  /** The day cells of a month that starts on a day boundary are day
      boundaries themselves, and different cells are different days. */
  lemma DayCellsFacts(startOfMonth: Instant, d: int, e: int)
    requires StartOfDay(startOfMonth) == startOfMonth
    ensures StartOfDay(DayDate(startOfMonth, d)) == DayDate(startOfMonth, d)
    ensures SameDay(DayDate(startOfMonth, d), DayDate(startOfMonth, e)) <==> d == e
  {
    var a, b := DayDate(startOfMonth, d), DayDate(startOfMonth, e);
    DayBoundary(startOfMonth, d - 1);
    DayBoundary(startOfMonth, e - 1);
    if d != e {
      assert a - b == (d - e) * SecondsPerDay;
    }
  }

  lemma DayBoundary(s: Instant, k: int)
    requires StartOfDay(s) == s
    ensures StartOfDay(s + k * SecondsPerDay) == s + k * SecondsPerDay
  {
    assert s % SecondsPerDay == 0;
    assert (s + k * SecondsPerDay) % SecondsPerDay == 0 by {
      assert s + k * SecondsPerDay == (s / SecondsPerDay + k) * SecondsPerDay;
    }
  }

  /** With unique ids, looking a stored treatment up by its id finds it. */
  lemma GetTreatmentUnique(treatments: seq<Treatment>, i: nat)
    requires UniqueIds(treatments, TS.TreatmentId) && i < |treatments| && treatments[i].id.Some?
    ensures GetTreatment(treatments, treatments[i].id.value) == Some(treatments[i])
  {
    var id := treatments[i].id.value;
    UniqueIdIndex(treatments, TS.TreatmentId, i, id);
  }
}
