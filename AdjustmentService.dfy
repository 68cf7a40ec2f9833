/** The daily-adjustment service (AdjustmentService.swift): an in-memory list
    of one day's adjustments (discounts and surcharges) mirrored in the
    store, the month's adjustments fetched on demand, and a day's totals:
    all adjustments, the discounts only, and the additions only. */
module AdjustmentService {
  import opened Wrappers
  import opened Lists
  import opened Dates
  import opened Models
  import opened Store
  import opened Documents

  function AdjustmentId(a: DailyAdjustment): Option<string>
  {
    a.id
  }

  predicate OnDay(day: Instant, a: DailyAdjustment)
  {
    StartOfDay(a.date) == StartOfDay(day)
  }

  // The filters and projections as function values, each written once so
  // that every use denotes the same function.

  function OnDayOf(day: Instant): DailyAdjustment -> bool
  {
    a => OnDay(day, a)
  }

  function DiscountOn(day: Instant): DailyAdjustment -> bool
  {
    a => OnDay(day, a) && a.amount < 0
  }

  function ExtraOn(day: Instant): DailyAdjustment -> bool
  {
    a => OnDay(day, a) && a.amount > 0
  }

  function AmountOf(a: DailyAdjustment): int
  {
    a.amount
  }

  /** `getTotalAdjustment(for:)`: the sum of the day's amounts. */
  function TotalAdjustment(adjustments: seq<DailyAdjustment>, day: Instant): int
  {
    Sum(Filter(adjustments, OnDayOf(day)), AmountOf)
  }

  /** `getTotalDiscount(for:)`: the sum of the day's negative amounts. */
  function TotalDiscount(adjustments: seq<DailyAdjustment>, day: Instant): (r: int)
    ensures r <= 0
  {
    SumSign(Filter(adjustments, DiscountOn(day)), AmountOf);
    Sum(Filter(adjustments, DiscountOn(day)), AmountOf)
  }

  /** `getTotalExtra(for:)`: the sum of the day's positive amounts. */
  function TotalExtra(adjustments: seq<DailyAdjustment>, day: Instant): (r: int)
    ensures r >= 0
  {
    SumSign(Filter(adjustments, ExtraOn(day)), AmountOf);
    Sum(Filter(adjustments, ExtraOn(day)), AmountOf)
  }

  class AdjustmentService {
    var adjustments: seq<DailyAdjustment>
    /** The error of the last failed call (`errorMessage`), cleared when a
        call starts. */
    var lastError: Option<Error>

    constructor()
      ensures adjustments == [] && lastError == None
    {
      adjustments := [];
      lastError := None;
    }

    /** `fetchAdjustments(userId:date:)`: the answer to the query for the
        day's documents replaces the list; if it fails, the stale list is
        kept and the error is recorded. */
    method FetchAdjustments(reply: FetchReply<DailyAdjustment>)
      modifies this
      ensures reply.Fetched? ==> adjustments == reply.items && lastError == None
      ensures reply.FetchRejected? ==>
        adjustments == old(adjustments) && lastError == Some(FetchFailed(reply.reason))
    {
      lastError := None;
      match reply
      case Fetched(items) =>
        adjustments := items;
      case FetchRejected(reason) =>
        lastError := Some(FetchFailed(reason));
    }

    /** `fetchMonthlyAdjustments`: the decodable documents of the month's
        query are returned, and the cached list is left alone; if the query
        fails, nothing is returned and the error is recorded. */
    method FetchMonthlyAdjustments(reply: FetchReply<Option<DailyAdjustment>>)
      returns (monthly: seq<DailyAdjustment>)
      modifies this
      ensures adjustments == old(adjustments)
      ensures reply.Fetched? ==> monthly == Decodable(reply.items) && lastError == None
      ensures reply.FetchRejected? ==> monthly == [] && lastError == Some(FetchFailed(reply.reason))
    {
      lastError := None;
      match reply
      case Fetched(docs) =>
        monthly := Decodable(docs);
      case FetchRejected(reason) =>
        monthly := [];
        lastError := Some(FetchFailed(reason));
    }

    /** `addAdjustment`: the adjustment is dated at the start of its day;
        once the store has given it an id it is appended. */
    method AddAdjustment(date: Instant, amount: int, reason: Option<string>, reply: AddReply, now: Instant)
      returns (result: Result<string, Error>)
      modifies this
      ensures reply.Added? ==>
        && result == Success(reply.documentId)
        && adjustments == old(adjustments) + [DailyAdjustment(Some(reply.documentId), StartOfDay(date), amount, reason, now)]
      ensures reply.AddRejected? ==> result == Failure(AddFailed(reply.reason)) && adjustments == old(adjustments)
      ensures lastError == if result.Failure? then Some(result.error) else None
    {
      lastError := None;
      match reply
      case Added(documentId) =>
        adjustments := adjustments + [DailyAdjustment(Some(documentId), StartOfDay(date), amount, reason, now)];
        result := Success(documentId);
      case AddRejected(reason) =>
        result := Failure(AddFailed(reason));
        lastError := Some(result.error);
    }

    /** `updateAdjustment`: an adjustment without an id is refused before
        anything else happens (the recorded error is left as it was);
        otherwise, once the store accepts the new amount and reason, the
        first adjustment with the id is replaced by the given one. */
    method UpdateAdjustment(adjustment: DailyAdjustment, reply: WriteReply) returns (outcome: Outcome<Error>)
      modifies this
      ensures adjustment.id.None? ==>
        outcome == Fail(InvalidId) && adjustments == old(adjustments) && lastError == old(lastError)
      ensures adjustment.id.Some? ==>
        match reply
        case Written =>
          && outcome == Pass && lastError == None
          && adjustments == ReplaceId(old(adjustments), AdjustmentId, adjustment.id.value, adjustment)
        case WriteRejected(reason) =>
          && outcome == Fail(UpdateFailed(reason)) && lastError == Some(outcome.error)
          && adjustments == old(adjustments)
    {
      if adjustment.id.None? {
        return Fail(InvalidId);
      }
      lastError := None;
      match reply
      case Written =>
        adjustments := ReplaceId(adjustments, AdjustmentId, adjustment.id.value, adjustment);
        outcome := Pass;
      case WriteRejected(reason) =>
        outcome := Fail(UpdateFailed(reason));
        lastError := Some(outcome.error);
    }

    /** `deleteAdjustment`: on success every adjustment with the id is
        removed. */
    method DeleteAdjustment(id: string, reply: WriteReply) returns (outcome: Outcome<Error>)
      modifies this
      ensures reply.Written? ==> outcome == Pass && adjustments == RemoveId(old(adjustments), AdjustmentId, id)
      ensures reply.WriteRejected? ==>
        outcome == Fail(DeleteFailed(reply.reason)) && adjustments == old(adjustments)
      ensures lastError == if outcome.Fail? then Some(outcome.error) else None
    {
      lastError := None;
      match reply
      case Written =>
        adjustments := RemoveId(adjustments, AdjustmentId, id);
        outcome := Pass;
      case WriteRejected(reason) =>
        outcome := Fail(DeleteFailed(reason));
        lastError := Some(outcome.error);
    }

    /** `clearAdjustments`. */
    method ClearAdjustments()
      modifies this
      ensures adjustments == [] && lastError == old(lastError)
    {
      adjustments := [];
    }
  }

  // ----------------------------------------------------------------- lemmas

  /** A day's discounts sum to at most zero, its additions to at least
      zero, and together they make the day's total (a zero amount counts in
      neither). */
  lemma TotalsSplit(adjustments: seq<DailyAdjustment>, day: Instant)
    ensures TotalDiscount(adjustments, day) <= 0
    ensures TotalExtra(adjustments, day) >= 0
    ensures TotalAdjustment(adjustments, day) == TotalDiscount(adjustments, day) + TotalExtra(adjustments, day)
  {
    var all := (a: DailyAdjustment) => if OnDay(day, a) then a.amount else 0;
    var neg := (a: DailyAdjustment) => if OnDay(day, a) && a.amount < 0 then a.amount else 0;
    var pos := (a: DailyAdjustment) => if OnDay(day, a) && a.amount > 0 then a.amount else 0;
    SumFilter(adjustments, OnDayOf(day), AmountOf, all);
    SumFilter(adjustments, DiscountOn(day), AmountOf, neg);
    SumFilter(adjustments, ExtraOn(day), AmountOf, pos);
    SumAdd(adjustments, all, neg, pos);
  }

  /** Adding an adjustment changes the total of its own day by its amount
      and of every other day not at all. */
  lemma AddAdjustmentFacts(adjustments: seq<DailyAdjustment>, date: Instant, amount: int, reason: Option<string>,
                           documentId: string, now: Instant, day: Instant)
    ensures var after := adjustments + [DailyAdjustment(Some(documentId), StartOfDay(date), amount, reason, now)];
      TotalAdjustment(after, day) ==
        TotalAdjustment(adjustments, day) + (if SameDay(day, date) then amount else 0)
  {
    var created := DailyAdjustment(Some(documentId), StartOfDay(date), amount, reason, now);
    StartOfDayIdempotent(date);
    assert OnDay(day, created) <==> SameDay(day, date);
    SumFilterAppend(adjustments, OnDayOf(day), AmountOf, created);
  }

  /** A discount added to a day lowers that day's discount total by its
      size and leaves its additions alone; an addition does the reverse. */
  lemma AddAdjustmentSplit(adjustments: seq<DailyAdjustment>, date: Instant, amount: int, reason: Option<string>,
                           documentId: string, now: Instant)
    ensures var after := adjustments + [DailyAdjustment(Some(documentId), StartOfDay(date), amount, reason, now)];
      && TotalDiscount(after, date) == TotalDiscount(adjustments, date) + (if amount < 0 then amount else 0)
      && TotalExtra(after, date) == TotalExtra(adjustments, date) + (if amount > 0 then amount else 0)
  {
    var created := DailyAdjustment(Some(documentId), StartOfDay(date), amount, reason, now);
    StartOfDayIdempotent(date);
    assert OnDay(date, created);
    SumFilterAppend(adjustments, DiscountOn(date), AmountOf, created);
    SumFilterAppend(adjustments, ExtraOn(date), AmountOf, created);
  }
}
