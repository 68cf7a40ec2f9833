/** The daily-record service (RecordService.swift): an in-memory list that
    mirrors the user's daily records in the store. Tapping a treatment on a
    day either raises the count of that day's record for the treatment or
    creates one; a count that drops to zero deletes the record. */
module RecordService {
  import opened Wrappers
  import opened Lists
  import opened Dates
  import opened Models
  import opened Store
  import opened Documents

  // ----------------------------------------------------------- list queries

  /** The record counts `treatmentId` on the day whose key is `dayKey`. */
  predicate InSlot(dayKey: Instant, treatmentId: string, r: DailyRecord)
  {
    StartOfDay(r.date) == dayKey && r.treatmentId == treatmentId
  }

  function RecordId(r: DailyRecord): Option<string>
  {
    r.id
  }

  predicate OnDay(day: Instant, r: DailyRecord)
  {
    StartOfDay(r.date) == StartOfDay(day)
  }

  // The predicates above as function values, each written once so that
  // every use denotes the same function.

  function InSlotOf(dayKey: Instant, treatmentId: string): DailyRecord -> bool
  {
    r => InSlot(dayKey, treatmentId, r)
  }

  function OnDayOf(day: Instant): DailyRecord -> bool
  {
    r => OnDay(day, r)
  }

  function TotalOf(r: DailyRecord): int
  {
    r.totalAmount
  }

  /** A record's total if it is on `day`, else 0. */
  function DayShareOf(day: Instant): DailyRecord -> int
  {
    (r: DailyRecord) => if OnDay(day, r) then r.totalAmount else 0
  }

  function OfTreatment(treatmentId: string): DailyRecord -> bool
  {
    (r: DailyRecord) => r.treatmentId == treatmentId
  }

  function WithCount(count: int, totalAmount: int): DailyRecord -> DailyRecord
  {
    (r: DailyRecord) => r.(count := count, totalAmount := totalAmount)
  }

  /** The record found by the lookup in `addOrUpdateRecord`. */
  function SlotRecord(records: seq<DailyRecord>, dayKey: Instant, treatmentId: string): Option<DailyRecord>
  {
    match FirstIndex(records, InSlotOf(dayKey, treatmentId))
    case None => None
    case Some(i) => Some(records[i])
  }

  /** The local patch after a successful count update: the first record with
      the id gets the new count and total, nothing else changes. */
  function SetCount(records: seq<DailyRecord>, id: string, count: int, totalAmount: int): seq<DailyRecord>
  {
    UpdateFirst(records, HasIdOf(RecordId, id), WithCount(count, totalAmount))
  }

  /** `getTotalRevenue(for:)`: the sum of the totals of the records on `day`. */
  function TotalRevenueOn(records: seq<DailyRecord>, day: Instant): int
  {
    Sum(Filter(records, OnDayOf(day)), TotalOf)
  }

  /** `groupRecordsByTreatment()`: the records of each treatment that occurs,
      in their original order. */
  function GroupByTreatment(records: seq<DailyRecord>): (g: map<string, seq<DailyRecord>>)
    ensures forall tid :: tid in g <==> exists i :: 0 <= i < |records| && records[i].treatmentId == tid
  {
    map tid | tid in TreatmentIds(records) :: Filter(records, OfTreatment(tid))
  }

  function TreatmentIds(records: seq<DailyRecord>): set<string>
  {
    set i | 0 <= i < |records| :: records[i].treatmentId
  }

  /** Every record counts at least one treatment. */
  ghost predicate PositiveCounts(records: seq<DailyRecord>)
  {
    forall i :: 0 <= i < |records| ==> records[i].count > 0
  }

  // ---------------------------------------------------------------- service

  class RecordService {
    var records: seq<DailyRecord>
    /** The error of the last failed call (`errorMessage`), cleared when a
        call starts. */
    var lastError: Option<Error>

    constructor()
      ensures records == [] && lastError == None
    {
      records := [];
      lastError := None;
    }

    /** `fetchRecords(userId:date:)`: the query's answer replaces the list; if
        the query fails, the stale list is kept and the error is recorded. */
    method FetchRecords(reply: FetchReply<DailyRecord>)
      modifies this
      ensures reply.Fetched? ==> records == reply.items && lastError == None
      ensures reply.FetchRejected? ==>
        records == old(records) && lastError == Some(FetchFailed(reply.reason))
    {
      lastError := None;
      match reply
      case Fetched(items) =>
        records := items;
      case FetchRejected(reason) =>
        lastError := Some(FetchFailed(reason));
    }

    /** `fetchMonthlyRecords`: the decodable documents of the month's query
        are returned, and the cached list is left alone; if the query fails,
        nothing is returned and the error is recorded. */
    method FetchMonthlyRecords(reply: FetchReply<Option<DailyRecord>>)
      returns (monthly: seq<DailyRecord>)
      modifies this
      ensures records == old(records)
      ensures reply.Fetched? ==> monthly == Decodable(reply.items) && lastError == None
      ensures reply.FetchRejected? ==> monthly == [] && lastError == Some(FetchFailed(reply.reason))
    {
      lastError := None;
      match reply
      case Fetched(docs) =>
        monthly := Decodable(docs);
      case FetchRejected(reason) =>
        monthly := [];
        lastError := Some(FetchFailed(reason));
    }

    /** `clearRecords`. */
    method ClearRecords()
      modifies this
      ensures records == [] && lastError == old(lastError)
    {
      records := [];
    }

    /** `addOrUpdateRecord`: if a record of the same day and treatment with an
        id is cached, the store is asked to raise its count by one and its
        total by `price`; otherwise a new record with count 1 is added. On
        success the list is patched and the document id returned; on failure
        the list is unchanged and the error rethrown. */
    method AddOrUpdateRecord(date: Instant, treatmentId: string, price: int,
                             updateReply: WriteReply, addReply: AddReply, now: Instant)
      returns (result: Result<string, Error>)
      modifies this
      ensures var existing := SlotRecord(old(records), StartOfDay(date), treatmentId);
        existing.Some? && existing.value.id.Some? ==>
          match updateReply
          case Written =>
            && result == Success(existing.value.id.value)
            && records == SetCount(old(records), existing.value.id.value,
                                   existing.value.count + 1, existing.value.totalAmount + price)
          case WriteRejected(reason) =>
            result == Failure(UpdateFailed(reason)) && records == old(records)
      ensures var existing := SlotRecord(old(records), StartOfDay(date), treatmentId);
        !(existing.Some? && existing.value.id.Some?) ==>
          match addReply
          case Added(documentId) =>
            && result == Success(documentId)
            && records == old(records) + [DailyRecord(Some(documentId), StartOfDay(date), treatmentId, 1, price, now)]
          case AddRejected(reason) =>
            result == Failure(AddFailed(reason)) && records == old(records)
      ensures result.Failure? <==> lastError.Some?
      ensures result.Failure? ==> lastError == Some(result.error)
    {
      lastError := None;
      var dayKey := StartOfDay(date);
      var existing := SlotRecord(records, dayKey, treatmentId);
      if existing.Some? && existing.value.id.Some? {
        var existingId := existing.value.id.value;
        var newCount := existing.value.count + 1;
        var newTotalAmount := existing.value.totalAmount + price;
        match updateReply
        case Written =>
          records := SetCount(records, existingId, newCount, newTotalAmount);
          result := Success(existingId);
        case WriteRejected(reason) =>
          result := Failure(UpdateFailed(reason));
          lastError := Some(result.error);
      } else {
        match addReply
        case Added(documentId) =>
          records := records + [DailyRecord(Some(documentId), dayKey, treatmentId, 1, price, now)];
          result := Success(documentId);
        case AddRejected(reason) =>
          result := Failure(AddFailed(reason));
          lastError := Some(result.error);
      }
    }

    /** `deleteRecord`: on success every record with the id is removed. */
    method DeleteRecord(id: string, reply: WriteReply) returns (outcome: Outcome<Error>)
      modifies this
      ensures reply.Written? ==> outcome == Pass && records == RemoveId(old(records), RecordId, id)
      ensures reply.WriteRejected? ==>
        outcome == Fail(DeleteFailed(reply.reason)) && records == old(records)
      ensures lastError == if outcome.Fail? then Some(outcome.error) else None
    {
      lastError := None;
      match reply
      case Written =>
        records := RemoveId(records, RecordId, id);
        outcome := Pass;
      case WriteRejected(reason) =>
        outcome := Fail(DeleteFailed(reason));
        lastError := Some(outcome.error);
    }

    /** `updateRecordCount`: a count of zero or less deletes the record (and
        uses the delete call's answer); otherwise the store is asked to set
        count and total, and on success the first record with the id gets
        them. */
    method UpdateRecordCount(id: string, count: int, totalAmount: int,
                             writeReply: WriteReply, deleteReply: WriteReply)
      returns (outcome: Outcome<Error>)
      modifies this
      ensures count <= 0 ==>
        match deleteReply
        case Written => outcome == Pass && records == RemoveId(old(records), RecordId, id)
        case WriteRejected(reason) => outcome == Fail(DeleteFailed(reason)) && records == old(records)
      ensures count > 0 ==>
        match writeReply
        case Written => outcome == Pass && records == SetCount(old(records), id, count, totalAmount)
        case WriteRejected(reason) => outcome == Fail(UpdateFailed(reason)) && records == old(records)
      ensures PositiveCounts(old(records)) ==> PositiveCounts(records)
      ensures lastError == if outcome.Fail? then Some(outcome.error) else None
    {
      if count <= 0 {
        outcome := DeleteRecord(id, deleteReply);
        RemoveIdKeepsPositive(old(records), id);
        return;
      }
      lastError := None;
      match writeReply
      case Written =>
        SetCountKeepsPositive(records, id, count, totalAmount);
        records := SetCount(records, id, count, totalAmount);
        outcome := Pass;
      case WriteRejected(reason) =>
        outcome := Fail(UpdateFailed(reason));
        lastError := Some(outcome.error);
    }
  }

  // ----------------------------------------------------------------- lemmas

  /** A successful count update changes the first record with the id, in its
      count and total only, and leaves every other record as it was. */
  lemma SetCountFacts(records: seq<DailyRecord>, id: string, count: int, totalAmount: int)
    ensures var after := SetCount(records, id, count, totalAmount);
      && |after| == |records|
      && (forall k :: 0 <= k < |records| && records[k].id != Some(id) ==> after[k] == records[k])
      && (forall k :: 0 <= k < |records| && records[k].id == Some(id) ==>
            after[k] == records[k] || after[k] == records[k].(count := count, totalAmount := totalAmount))
      && ((exists k :: 0 <= k < |records| && records[k].id == Some(id)) ==>
            exists k :: 0 <= k < |after| && after[k] == records[k].(count := count, totalAmount := totalAmount)
                     && after[k].id == Some(id))
  {
    IdTests(RecordId, id);
    UpdateFirstFacts(records, HasIdOf(RecordId, id), WithCount(count, totalAmount));
    var j := FirstIndex(records, HasIdOf(RecordId, id));
    if j.Some? {
      var k, after := j.value, SetCount(records, id, count, totalAmount);
      assert after[k] == WithCount(count, totalAmount)(records[k]) == records[k].(count := count, totalAmount := totalAmount);
      assert after[k].id == Some(id);
    }
  }

  /** The day total is the sum over all records with the other days' totals
      counted as zero. */
  lemma TotalRevenueAsSum(records: seq<DailyRecord>, day: Instant)
    ensures TotalRevenueOn(records, day) ==
      Sum(records, DayShareOf(day))
  {
    SumFilter(records, OnDayOf(day), TotalOf, DayShareOf(day));
  }

  /** With unique ids, the count update for the id of the record at `i`
      patches exactly that record. */
  lemma CountPatchAt(records: seq<DailyRecord>, i: nat, count: int, totalAmount: int)
    requires UniqueIds(records, RecordId) && i < |records| && records[i].id.Some?
    ensures SetCount(records, records[i].id.value, count, totalAmount)
      == records[i := records[i].(count := count, totalAmount := totalAmount)]
  {
    var id := records[i].id.value;
    IdTests(RecordId, id);
    UniqueIdIndex(records, RecordId, i, id);
    UpdateFirstAt(records, HasIdOf(RecordId, id), WithCount(count, totalAmount), i);
    assert WithCount(count, totalAmount)(records[i]) == records[i].(count := count, totalAmount := totalAmount);
  }

  /** Replacing the first slot record by another record of the slot keeps it
      the first. */
  lemma SlotAfterUpdate(records: seq<DailyRecord>, dayKey: Instant, treatmentId: string, i: nat, e': DailyRecord)
    requires FirstIndex(records, InSlotOf(dayKey, treatmentId)) == Some(i)
    requires InSlot(dayKey, treatmentId, e')
    ensures SlotRecord(records[i := e'], dayKey, treatmentId) == Some(e')
  {
    var after := records[i := e'];
    forall k | 0 <= k < i ensures !InSlot(dayKey, treatmentId, after[k]) {
      assert after[k] == records[k];
    }
    FirstIndexIs(after, InSlotOf(dayKey, treatmentId), i);
  }

  /** Replacing a record of `day` by one whose total is `price` higher raises
      the day's revenue by `price`. */
  lemma RevenueAfterUpdate(records: seq<DailyRecord>, day: Instant, i: nat, e': DailyRecord)
    requires i < |records| && OnDay(day, records[i]) && StartOfDay(e'.date) == StartOfDay(records[i].date)
    ensures TotalRevenueOn(records[i := e'], day) ==
      TotalRevenueOn(records, day) - records[i].totalAmount + e'.totalAmount
  {
    TotalRevenueAsSum(records, day);
    TotalRevenueAsSum(records[i := e'], day);
    SumUpdate(records, i, e', DayShareOf(day));
  }

  /** Tapping a treatment that has no record that day: the appended record
      is the one the lookup will find next time, and the day's revenue rises
      by `price`. */
  lemma {:induction false} AppendFacts(records: seq<DailyRecord>, day: Instant, treatmentId: string, price: int,
                                       documentId: string, now: Instant)
    requires SlotRecord(records, StartOfDay(day), treatmentId).None?
    ensures var created := DailyRecord(Some(documentId), StartOfDay(day), treatmentId, 1, price, now);
      && SlotRecord(records + [created], StartOfDay(day), treatmentId) == Some(created)
      && TotalRevenueOn(records + [created], day) == TotalRevenueOn(records, day) + price
  {
    var created := DailyRecord(Some(documentId), StartOfDay(day), treatmentId, 1, price, now);
    StartOfDayIdempotent(day);
    var after := records + [created];
    assert FirstIndex(after, InSlotOf(StartOfDay(day), treatmentId)) == Some(|records|) by {
      assert after[|records|] == created;
      forall k | 0 <= k < |records| ensures !InSlot(StartOfDay(day), treatmentId, after[k]) {
        assert after[k] == records[k];
      }
    }
    assert OnDay(day, created);
    assert Filter([created], OnDayOf(day)) == [created] by { assert [created][1..] == []; }
    FilterAppend(records, [created], OnDayOf(day));
    SumAppend(Filter(records, OnDayOf(day)), [created], TotalOf);
    assert Sum([created], TotalOf) == price by { assert [created][1..] == []; }
  }

  /** Two taps on a treatment with no record yet that day (both store calls
      succeeding, ids unique and the new id unused) leave one record for it
      with count 2 and total `2 * price`. */
  lemma TwoTaps(records: seq<DailyRecord>, day: Instant, treatmentId: string, price: int,
                documentId: string, now: Instant)
    requires UniqueIds(records, RecordId)
    requires forall k :: 0 <= k < |records| ==> records[k].id != Some(documentId)
    requires SlotRecord(records, StartOfDay(day), treatmentId).None?
    ensures var created := DailyRecord(Some(documentId), StartOfDay(day), treatmentId, 1, price, now);
      var after := SetCount(records + [created], documentId, 2, 2 * price);
      && |after| == |records| + 1
      && SlotRecord(after, StartOfDay(day), treatmentId) == Some(created.(count := 2, totalAmount := 2 * price))
      && TotalRevenueOn(after, day) == TotalRevenueOn(records, day) + 2 * price
  {
    var created := DailyRecord(Some(documentId), StartOfDay(day), treatmentId, 1, price, now);
    AppendFacts(records, day, treatmentId, price, documentId, now);
    var once := records + [created];
    AppendKeepsUnique(records, RecordId, created);
    var i := |records|;
    var twice := created.(count := 2, totalAmount := 2 * price);
    assert once[i] == created;
    CountPatchAt(once, i, 2, 2 * price);
    assert FirstIndex(once, InSlotOf(StartOfDay(day), treatmentId)) == Some(i);
    SlotAfterUpdate(once, StartOfDay(day), treatmentId, i, twice);
    RevenueAfterUpdate(once, day, i, twice);
  }

  /** Storing a positive count keeps every count positive. */
  lemma SetCountKeepsPositive(records: seq<DailyRecord>, id: string, count: int, totalAmount: int)
    requires count > 0
    ensures PositiveCounts(records) ==> PositiveCounts(SetCount(records, id, count, totalAmount))
  {
  }

  /** Removing records keeps every count positive. */
  lemma RemoveIdKeepsPositive(records: seq<DailyRecord>, id: string)
    ensures PositiveCounts(records) ==> PositiveCounts(RemoveId(records, RecordId, id))
  {
    var after := RemoveId(records, RecordId, id);
    FilterMembers(records, LacksIdOf(RecordId, id));
    if PositiveCounts(records) {
      forall k | 0 <= k < |after| ensures after[k].count > 0 {
        var r := after[k];
        assert r in records;
      }
    }
  }

  /** Grouping puts every record in the group of its treatment, every group
      is non-empty and holds only that treatment's records, each as often as
      it occurs in the list and in list order. */
  lemma GroupByTreatmentFacts(records: seq<DailyRecord>)
    ensures var g := GroupByTreatment(records);
      && (forall i :: 0 <= i < |records| ==>
            records[i].treatmentId in g && records[i] in g[records[i].treatmentId])
      && (forall tid :: tid in g ==> |g[tid]| > 0)
      && (forall tid, k :: tid in g && 0 <= k < |g[tid]| ==> g[tid][k].treatmentId == tid)
      && (forall tid, r: DailyRecord :: tid in g ==>
            multiset(g[tid])[r] == if r.treatmentId == tid then multiset(records)[r] else 0)
      && (forall tid :: tid in g ==> g[tid] == Filter(records, OfTreatment(tid)))
  {
    var g := GroupByTreatment(records);
    forall tid, r: DailyRecord | tid in g
      ensures multiset(g[tid])[r] == if r.treatmentId == tid then multiset(records)[r] else 0
    {
      FilterMultiplicity(records, OfTreatment(tid), r);
    }
    forall tid | tid in g ensures |g[tid]| > 0 {
      var i :| 0 <= i < |records| && records[i].treatmentId == tid;
      FilterMembers(records, OfTreatment(tid));
    }
    forall i | 0 <= i < |records|
      ensures records[i].treatmentId in g && records[i] in g[records[i].treatmentId]
    {
      FilterMembers(records, OfTreatment(records[i].treatmentId));
    }
  }
}
