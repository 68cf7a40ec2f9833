/** The settlement screen (SettlementViewModel.swift): for the month shown,
    the revenue (daily records plus adjustments), the expenses, the net
    profit, the revenue of each treatment, the amount entered for each
    expense category, and the month's key `"YYYY-MM"` together with the keys
    of the months before and after it. The lists are the snapshots the
    screen holds after its fetches. */
module Settlement {
  import opened Wrappers
  import opened Lists
  import opened Models
  import opened Decimal
  import opened Documents
  import RS = RecordService
  import ES = ExpenseService
  import AS = AdjustmentService
  import TS = TreatmentService

  // ------------------------------------------------------------------ months

  /** A calendar month: `month` counts from 1 (January) to 12. */
  datatype YearMonth = YearMonth(year: int, month: int)

  predicate ValidMonth(ym: YearMonth)
  {
    1 <= ym.month <= 12
  }

  /** The number of months since January of year 0. */
  function MonthIndex(ym: YearMonth): int
  {
    ym.year * 12 + (ym.month - 1)
  }

  /** The month of `date(byAdding: .month, value: -1)`: one month earlier,
      so January goes back to December of the year before. */
  function PreviousMonth(ym: YearMonth): (p: YearMonth)
    requires ValidMonth(ym)
    ensures ValidMonth(p) && MonthIndex(p) == MonthIndex(ym) - 1
    ensures ym.month == 1 ==> p == YearMonth(ym.year - 1, 12)
  {
    if ym.month == 1 then YearMonth(ym.year - 1, 12) else YearMonth(ym.year, ym.month - 1)
  }

  /** The month of `date(byAdding: .month, value: 1)`: one month later, so
      December goes on to January of the year after. */
  function NextMonth(ym: YearMonth): (n: YearMonth)
    requires ValidMonth(ym)
    ensures ValidMonth(n) && MonthIndex(n) == MonthIndex(ym) + 1
    ensures ym.month == 12 ==> n == YearMonth(ym.year + 1, 1)
  {
    if ym.month == 12 then YearMonth(ym.year + 1, 1) else YearMonth(ym.year, ym.month + 1)
  }

  /** `String(format: "%04d-%02d", year, month)`: the year padded to four
      digits, a dash, and the month padded to two. */
  function YearMonthString(ym: YearMonth): (s: string)
    requires ValidMonth(ym) && ym.year >= 0
    ensures |s| >= 7 && s[|s| - 3] == '-'
    ensures AllDigits(s[..|s| - 3]) && AllDigits(s[|s| - 2..])
    ensures ym.year <= 9999 ==> |s| == 7
  {
    DigitsAtMost(ym.month, 2);
    YearDigits(ym.year);
    var y, m := ZeroPad(Digits(ym.year), 4), ZeroPad(Digits(ym.month), 2);
    KeyParts(y, m);
    y + "-" + m
  }

  /** Reads a month key back: the digits before the dash as the year, the
      two after it as the month. */
  function ParseYearMonth(s: string): Option<YearMonth>
  {
    if |s| >= 7 && s[|s| - 3] == '-' && AllDigits(s[..|s| - 3]) && AllDigits(s[|s| - 2..]) then
      var ym := YearMonth(ParseDigits(s[..|s| - 3]), ParseDigits(s[|s| - 2..]));
      if ValidMonth(ym) then Some(ym) else None
    else None
  }

  // ------------------------------------------------------------------ totals

  /** `totalRevenue`: the totals of all the month's records plus all its
      adjustments. */
  function TotalRevenue(records: seq<DailyRecord>, adjustments: seq<DailyAdjustment>): int
  {
    Sum(records, RS.TotalOf) + Sum(adjustments, AS.AmountOf)
  }

  /** `totalExpense`: the amounts of all the month's expenses. */
  function TotalExpense(expenses: seq<MonthlyExpense>): int
  {
    Sum(expenses, ES.AmountOf)
  }

  /** `netProfit`, which is negative when the expenses exceed the revenue. */
  function NetProfit(records: seq<DailyRecord>, adjustments: seq<DailyAdjustment>,
                     expenses: seq<MonthlyExpense>): int
  {
    TotalRevenue(records, adjustments) - TotalExpense(expenses)
  }

  function OfCategory(categoryId: string): MonthlyExpense -> bool
  {
    (e: MonthlyExpense) => e.categoryId == categoryId
  }

  /** `getExpenseAmount(for:)`: the amount of the first of the month's
      expenses in the category, and 0 when there is none. */
  function GetExpenseAmount(expenses: seq<MonthlyExpense>, categoryId: string): (r: int)
    ensures (forall k :: 0 <= k < |expenses| ==> expenses[k].categoryId != categoryId) ==> r == 0
    ensures forall i :: 0 <= i < |expenses| && expenses[i].categoryId == categoryId
                        && (forall j :: 0 <= j < i ==> expenses[j].categoryId != categoryId)
                        ==> r == expenses[i].amount
  {
    match First(expenses, OfCategory(categoryId))
    case None => 0
    case Some(e) => e.amount
  }

  // ------------------------------------------------------ revenue by treatment

  /** One row of the revenue-by-treatment table. */
  datatype TreatmentRevenue = TreatmentRevenue(treatmentId: string, name: string, color: string, amount: int)

  function RowAmount(row: TreatmentRevenue): int
  {
    row.amount
  }

  function RowTreatment(row: TreatmentRevenue): string
  {
    row.treatmentId
  }

  /** The sort key of `sorted { $0.amount > $1.amount }`: larger amounts
      first. */
  function Descending(row: TreatmentRevenue): int
  {
    -row.amount
  }

  /** The record's treatment is one of the screen's treatments. */
  function Resolves(treatments: seq<Treatment>): DailyRecord -> bool
  {
    (r: DailyRecord) => FindId(treatments, TS.TreatmentId, r.treatmentId).Some?
  }

  function Unresolved(treatments: seq<Treatment>): DailyRecord -> bool
  {
    (r: DailyRecord) => FindId(treatments, TS.TreatmentId, r.treatmentId).None?
  }

  /** The dictionary `revenueDict` after the loop over the records: each
      treatment id that occurs, with the running sum of its records'
      totals. */
  function RevenueTotals(records: seq<DailyRecord>): map<string, int>
    decreases |records|
  {
    if records == [] then map[]
    else
      var k := |records| - 1;
      var m := RevenueTotals(records[..k]);
      var tid := records[k].treatmentId;
      m[tid := (if tid in m then m[tid] else 0) + records[k].totalAmount]
  }

  /** The row the join makes of a treatment id: the treatment's name and
      colour with the sum of its records' totals, and none when no treatment
      has the id. */
  function JoinedRow(records: seq<DailyRecord>, treatments: seq<Treatment>, treatmentId: string): Option<TreatmentRevenue>
  {
    match FindId(treatments, TS.TreatmentId, treatmentId)
    case None => None
    case Some(t) => Some(TreatmentRevenue(treatmentId, t.name, t.color,
                                          Sum(Filter(records, RS.OfTreatment(treatmentId)), RS.TotalOf)))
  }

  /** A record's total when its treatment is among `picked` and resolves,
      else 0. */
  function ShareOf(treatments: seq<Treatment>, picked: set<string>): DailyRecord -> int
  {
    (r: DailyRecord) =>
      if r.treatmentId in picked && FindId(treatments, TS.TreatmentId, r.treatmentId).Some? then r.totalAmount else 0
  }

  /** The loop that fills `revenueDict`. */
  method AccumulateRevenue(records: seq<DailyRecord>) returns (revenue: map<string, int>)
    ensures revenue == RevenueTotals(records)
  {
    revenue := map[];
    var k := 0;
    while k < |records|
      invariant 0 <= k <= |records|
      invariant revenue == RevenueTotals(records[..k])
    {
      var tid := records[k].treatmentId;
      revenue := revenue[tid := (if tid in revenue then revenue[tid] else 0) + records[k].totalAmount];
      assert records[..k + 1][..k] == records[..k];
      k := k + 1;
    }
    assert records[..k] == records;
  }

  /** One step of the `compactMap` closure: the row of `treatmentId` with
      its summed `amount` is added when a treatment has the id. */
  function JoinOne(joined: seq<TreatmentRevenue>, treatments: seq<Treatment>, treatmentId: string, amount: int)
    : seq<TreatmentRevenue>
  {
    match FindId(treatments, TS.TreatmentId, treatmentId)
    case None => joined
    case Some(t) => joined + [TreatmentRevenue(treatmentId, t.name, t.color, amount)]
  }

  /** Each row is the joined row of one of the ids in `seen`. */
  ghost predicate RowsFrom(records: seq<DailyRecord>, treatments: seq<Treatment>,
                           rows: seq<TreatmentRevenue>, seen: set<string>)
  {
    forall i :: 0 <= i < |rows| ==>
      rows[i].treatmentId in seen && JoinedRow(records, treatments, rows[i].treatmentId) == Some(rows[i])
  }

  /** Every id in `seen` that a treatment has has a row. */
  ghost predicate Covers(treatments: seq<Treatment>, rows: seq<TreatmentRevenue>, seen: set<string>)
  {
    forall t :: t in seen && FindId(treatments, TS.TreatmentId, t).Some? ==>
      exists i :: 0 <= i < |rows| && rows[i].treatmentId == t
  }

  /** What the rows joined from the ids in `seen` satisfy: each is the joined
      row of one of those ids, no id has two, every resolving id among them
      has one, and they add up to the totals of the records whose treatment
      is among them and resolves. */
  ghost predicate JoinedFrom(records: seq<DailyRecord>, treatments: seq<Treatment>,
                             joined: seq<TreatmentRevenue>, seen: set<string>)
  {
    && RowsFrom(records, treatments, joined, seen)
    && DistinctBy(joined, RowTreatment)
    && Covers(treatments, joined, seen)
    && Sum(joined, RowAmount) == Sum(records, ShareOf(treatments, seen))
  }

  /** `revenueByTreatment`: the per-treatment sums are joined with the
      treatments (`compactMap` over the dictionary, in the dictionary's
      unspecified order, dropping the ids no treatment has) and sorted by
      amount, largest first. Every row is the joined row of a treatment id
      that occurs in the records; no id has two rows; every record whose
      treatment resolves has its treatment's row; and the rows add up to the
      totals of exactly the records whose treatment resolves. */
  method RevenueByTreatment(records: seq<DailyRecord>, treatments: seq<Treatment>)
    returns (rows: seq<TreatmentRevenue>)
    ensures forall i :: 0 <= i < |rows| ==>
      rows[i].treatmentId in RS.TreatmentIds(records) && JoinedRow(records, treatments, rows[i].treatmentId) == Some(rows[i])
    ensures forall i, j :: 0 <= i < j < |rows| ==> rows[i].treatmentId != rows[j].treatmentId
    ensures forall k :: 0 <= k < |records| && FindId(treatments, TS.TreatmentId, records[k].treatmentId).Some? ==>
      exists i :: 0 <= i < |rows| && rows[i].treatmentId == records[k].treatmentId
    ensures forall i, j :: 0 <= i < j < |rows| ==> rows[i].amount >= rows[j].amount
    ensures Sum(rows, RowAmount) == Sum(Filter(records, Resolves(treatments)), RS.TotalOf)
  {
    var revenue := AccumulateRevenue(records);
    RevenueTotalsFacts(records);
    var joined := JoinRows(records, treatments, revenue);
    rows := SortBy(joined, Descending);
    JoinFinish(records, treatments, joined, rows);
    assert forall k :: 0 <= k < |records| ==> records[k].treatmentId in RS.TreatmentIds(records);
  }

  /** The `compactMap` over the dictionary, taking its ids in an
      unspecified order. */
  method JoinRows(records: seq<DailyRecord>, treatments: seq<Treatment>, revenue: map<string, int>)
    returns (joined: seq<TreatmentRevenue>)
    requires revenue.Keys == RS.TreatmentIds(records)
    requires forall t :: t in revenue ==> revenue[t] == Sum(Filter(records, RS.OfTreatment(t)), RS.TotalOf)
    ensures JoinedFrom(records, treatments, joined, RS.TreatmentIds(records))
  {
    joined := [];
    var remaining := revenue.Keys;
    JoinStart(records, treatments, revenue.Keys);
    while remaining != {}
      invariant JoinPending(records, treatments, revenue.Keys, remaining, joined)
      decreases |remaining|
    {
      var t :| t in remaining;
      JoinStep(records, treatments, revenue, remaining, joined, t);
      joined := JoinOne(joined, treatments, t, revenue[t]);
      remaining := remaining - {t};
    }
    JoinDone(records, treatments, revenue.Keys, joined);
  }

  /** The loop's invariant: the ids still to join are among the
      dictionary's, and the rows so far are joined from the others. */
  ghost predicate JoinPending(records: seq<DailyRecord>, treatments: seq<Treatment>, keys: set<string>,
                              remaining: set<string>, joined: seq<TreatmentRevenue>)
  {
    remaining <= keys && JoinedFrom(records, treatments, joined, keys - remaining)
  }

  // ------------------------------------------------------------------ lemmas

  /** Month numbers name months one to one. */
  lemma MonthIndexInjective(a: YearMonth, b: YearMonth)
    requires ValidMonth(a) && ValidMonth(b) && MonthIndex(a) == MonthIndex(b)
    ensures a == b
  {
  }

  /** Going back a month and forward again, or forward and back, returns to
      the month one started from. */
  lemma PreviousNextInverse(ym: YearMonth)
    requires ValidMonth(ym)
    ensures NextMonth(PreviousMonth(ym)) == ym && PreviousMonth(NextMonth(ym)) == ym
  {
    MonthIndexInjective(NextMonth(PreviousMonth(ym)), ym);
    MonthIndexInjective(PreviousMonth(NextMonth(ym)), ym);
  }

  /** A spelling of at most `k` digits for a number below `10^k`. */
  lemma {:induction false} DigitsAtMost(n: nat, k: nat)
    requires k >= 1 && n < Pow10(k)
    ensures |Digits(n)| <= k
  {
    if k == 1 {
      assert Pow10(1) == 10;
    } else if n >= 10 {
      assert n / 10 < Pow10(k - 1);
      DigitsAtMost(n / 10, k - 1);
    }
  }

  lemma YearDigits(n: nat)
    ensures n <= 9999 ==> |Digits(n)| <= 4
  {
    if n <= 9999 {
      assert Pow10(4) == 10000;
      DigitsAtMost(n, 4);
    }
  }

  /** A key cut at its dash gives back the two padded numbers. */
  lemma KeyParts(y: string, m: string)
    requires |y| >= 4 && |m| == 2
    ensures var s := y + "-" + m;
      |s| >= 7 && s[|s| - 3] == '-' && s[..|s| - 3] == y && s[|s| - 2..] == m
  {
    var s := y + "-" + m;
    assert s[..|s| - 3] == y;
    assert s[|s| - 2..] == m;
  }

  /** The month key reads back as its month. */
  lemma YearMonthRoundTrip(ym: YearMonth)
    requires ValidMonth(ym) && ym.year >= 0
    ensures ParseYearMonth(YearMonthString(ym)) == Some(ym)
  {
    var y, m := ZeroPad(Digits(ym.year), 4), ZeroPad(Digits(ym.month), 2);
    DigitsAtMost(ym.month, 2);
    PaddedValue(ym.year, 4);
    PaddedValue(ym.month, 2);
    assert YearMonthString(ym) == y + "-" + m;
    ParseKey(y, m, ym);
  }

  lemma PaddedValue(n: nat, width: nat)
    ensures ParseDigits(ZeroPad(Digits(n), width)) == n
  {
    ParseZeroPad(Digits(n), width);
    ParseDigitsOfDigits(n);
  }

  /** A key made of two digit strings that read as a valid month reads back
      as that month. */
  lemma ParseKey(y: string, m: string, ym: YearMonth)
    requires AllDigits(y) && AllDigits(m) && |y| >= 4 && |m| == 2
    requires ParseDigits(y) == ym.year && ParseDigits(m) == ym.month && ValidMonth(ym)
    ensures ParseYearMonth(y + "-" + m) == Some(ym)
  {
    KeyParts(y, m);
  }

  /** Different months have different keys; in particular the month copied
      from is never the month copied into. */
  lemma YearMonthStringInjective(a: YearMonth, b: YearMonth)
    requires ValidMonth(a) && a.year >= 0 && ValidMonth(b) && b.year >= 0
    ensures YearMonthString(a) == YearMonthString(b) <==> a == b
    ensures a.year >= 1 || a.month > 1 ==> YearMonthString(PreviousMonth(a)) != YearMonthString(a)
  {
    YearMonthRoundTrip(a);
    YearMonthRoundTrip(b);
    if a.year >= 1 || a.month > 1 {
      YearMonthRoundTrip(PreviousMonth(a));
    }
  }

  /** The month's revenue is what the resolving records bring in, plus what
      the records of treatments the screen does not know bring in (they have
      no row in the revenue-by-treatment table but still count), plus the
      adjustments. */
  lemma RevenueSplit(records: seq<DailyRecord>, adjustments: seq<DailyAdjustment>, treatments: seq<Treatment>)
    ensures TotalRevenue(records, adjustments) ==
      Sum(Filter(records, Resolves(treatments)), RS.TotalOf)
      + Sum(Filter(records, Unresolved(treatments)), RS.TotalOf)
      + Sum(adjustments, AS.AmountOf)
  {
    var known := (r: DailyRecord) => if Resolves(treatments)(r) then r.totalAmount else 0;
    var unknown := (r: DailyRecord) => if Unresolved(treatments)(r) then r.totalAmount else 0;
    SumFilter(records, Resolves(treatments), RS.TotalOf, known);
    SumFilter(records, Unresolved(treatments), RS.TotalOf, unknown);
    SumAdd(records, RS.TotalOf, known, unknown);
  }

  /** Each record or adjustment of the month raises the net profit by its
      amount and each expense lowers it by its amount, so the profit falls
      below zero once the expenses exceed the revenue. */
  lemma NetProfitChanges(records: seq<DailyRecord>, adjustments: seq<DailyAdjustment>, expenses: seq<MonthlyExpense>,
                         r: DailyRecord, a: DailyAdjustment, e: MonthlyExpense)
    ensures NetProfit(records + [r], adjustments, expenses) == NetProfit(records, adjustments, expenses) + r.totalAmount
    ensures NetProfit(records, adjustments + [a], expenses) == NetProfit(records, adjustments, expenses) + a.amount
    ensures NetProfit(records, adjustments, expenses + [e]) == NetProfit(records, adjustments, expenses) - e.amount
    ensures NetProfit(records, adjustments, expenses) < 0 <==>
      TotalExpense(expenses) > TotalRevenue(records, adjustments)
  {
    SumAppend(records, [r], RS.TotalOf);
    SumAppend(adjustments, [a], AS.AmountOf);
    SumAppend(expenses, [e], ES.AmountOf);
  }

  /** With the month's expenses fetched, the screen's total and per-category
      amount agree with the expense service's total and amount for the
      month. */
  lemma ExpensesAgreeWithService(expenses: seq<MonthlyExpense>, yearMonth: string, categoryId: string)
    requires forall k :: 0 <= k < |expenses| ==> expenses[k].yearMonth == yearMonth
    ensures TotalExpense(expenses) == ES.TotalExpense(expenses, yearMonth)
    ensures GetExpenseAmount(expenses, categoryId) == ES.ExpenseAmount(expenses, yearMonth, categoryId)
  {
    FilterAll(expenses, ES.InMonthOf(yearMonth));
    match FirstIndex(expenses, OfCategory(categoryId)) {
      case None =>
      case Some(i) =>
        assert ES.InSlot(yearMonth, categoryId, expenses[i]);
    }
  }

  /** The dictionary has a key for exactly the treatment ids that occur,
      holding the sum of that treatment's records' totals. */
  lemma {:induction false} RevenueTotalsFacts(records: seq<DailyRecord>)
    ensures RevenueTotals(records).Keys == RS.TreatmentIds(records)
    ensures forall t :: t in RevenueTotals(records) ==>
      RevenueTotals(records)[t] == Sum(Filter(records, RS.OfTreatment(t)), RS.TotalOf)
  {
    if records != [] {
      var k := |records| - 1;
      var init, r := records[..k], records[k];
      assert records == init + [r];
      RevenueTotalsFacts(init);
      TreatmentIdsSnoc(init, r);
      forall t | t in RevenueTotals(records)
        ensures RevenueTotals(records)[t] == Sum(Filter(records, RS.OfTreatment(t)), RS.TotalOf)
      {
        SumFilterAppend(init, RS.OfTreatment(t), RS.TotalOf, r);
        if t !in RevenueTotals(init) {
          NoneOfTreatment(init, t);
        }
      }
    }
  }

  lemma TreatmentIdsSnoc(init: seq<DailyRecord>, r: DailyRecord)
    ensures RS.TreatmentIds(init + [r]) == RS.TreatmentIds(init) + {r.treatmentId}
  {
    var records := init + [r];
    forall t | t in RS.TreatmentIds(records) ensures t in RS.TreatmentIds(init) + {r.treatmentId} {
      var i :| 0 <= i < |records| && records[i].treatmentId == t;
      if i < |init| { assert init[i] == records[i]; }
    }
    forall t | t in RS.TreatmentIds(init) ensures t in RS.TreatmentIds(records) {
      var i :| 0 <= i < |init| && init[i].treatmentId == t;
      assert records[i] == init[i];
    }
    assert records[|init|] == r;
  }

  /** A treatment id that does not occur contributes nothing. */
  lemma NoneOfTreatment(records: seq<DailyRecord>, t: string)
    requires t !in RS.TreatmentIds(records)
    ensures Sum(Filter(records, RS.OfTreatment(t)), RS.TotalOf) == 0
  {
    var zero := (r: DailyRecord) => 0;
    SumFilterWithin(records, RS.OfTreatment(t), RS.TotalOf, zero);
    SumZero(records, zero);
  }

  /** Taking one more treatment into the join adds its records' totals if
      it resolves, and nothing otherwise. */
  lemma SeenStep(records: seq<DailyRecord>, treatments: seq<Treatment>, seen: set<string>, t: string)
    requires t !in seen
    ensures Sum(records, ShareOf(treatments, seen + {t})) ==
      Sum(records, ShareOf(treatments, seen))
        + (if FindId(treatments, TS.TreatmentId, t).Some? then Sum(Filter(records, RS.OfTreatment(t)), RS.TotalOf) else 0)
  {
    var h := (r: DailyRecord) =>
      if r.treatmentId == t && FindId(treatments, TS.TreatmentId, r.treatmentId).Some? then r.totalAmount else 0;
    SumAdd(records, ShareOf(treatments, seen + {t}), ShareOf(treatments, seen), h);
    if FindId(treatments, TS.TreatmentId, t).Some? {
      SumFilter(records, RS.OfTreatment(t), RS.TotalOf, h);
    } else {
      SumZero(records, h);
    }
  }

  lemma JoinStart(records: seq<DailyRecord>, treatments: seq<Treatment>, keys: set<string>)
    ensures JoinPending(records, treatments, keys, keys, [])
  {
    assert keys - keys == {};
    SumZero(records, ShareOf(treatments, {}));
  }

  lemma JoinDone(records: seq<DailyRecord>, treatments: seq<Treatment>, keys: set<string>,
                 joined: seq<TreatmentRevenue>)
    requires JoinPending(records, treatments, keys, {}, joined)
    ensures JoinedFrom(records, treatments, joined, keys)
  {
    assert keys - {} == keys;
  }

  /** One turn of the loop: the id taken is the dictionary's, and joining
      it with its sum keeps the invariant for the ids left. */
  lemma JoinStep(records: seq<DailyRecord>, treatments: seq<Treatment>, revenue: map<string, int>,
                 remaining: set<string>, joined: seq<TreatmentRevenue>, t: string)
    requires forall t :: t in revenue ==> revenue[t] == Sum(Filter(records, RS.OfTreatment(t)), RS.TotalOf)
    requires JoinPending(records, treatments, revenue.Keys, remaining, joined)
    requires t in remaining
    ensures t in revenue && |remaining - {t}| < |remaining|
    ensures JoinPending(records, treatments, revenue.Keys, remaining - {t}, JoinOne(joined, treatments, t, revenue[t]))
  {
    var keys := revenue.Keys;
    assert keys - (remaining - {t}) == (keys - remaining) + {t};
    JoinOneStep(records, treatments, joined, keys - remaining, t, revenue[t]);
  }

  /** Joining one more id of the dictionary, with its sum, keeps the
      joined rows what they should be. */
  lemma JoinOneStep(records: seq<DailyRecord>, treatments: seq<Treatment>,
                    joined: seq<TreatmentRevenue>, seen: set<string>, t: string, amount: int)
    requires JoinedFrom(records, treatments, joined, seen)
    requires t !in seen
    requires amount == Sum(Filter(records, RS.OfTreatment(t)), RS.TotalOf)
    ensures JoinedFrom(records, treatments, JoinOne(joined, treatments, t, amount), seen + {t})
  {
    SeenStep(records, treatments, seen, t);
    match FindId(treatments, TS.TreatmentId, t) {
      case Some(treatment) =>
        var row := TreatmentRevenue(t, treatment.name, treatment.color, amount);
        StepRows(records, treatments, joined, seen, t, row);
        StepDistinct(records, treatments, joined, seen, row);
        StepCovers(treatments, joined, seen, row);
        SumAppend(joined, [row], RowAmount);
        assert Sum([row], RowAmount) == row.amount by { assert [row][1..] == []; }
      case None =>
        StepCoversUnresolved(treatments, joined, seen, t);
    }
  }

  lemma StepRows(records: seq<DailyRecord>, treatments: seq<Treatment>,
                 joined: seq<TreatmentRevenue>, seen: set<string>, t: string, row: TreatmentRevenue)
    requires RowsFrom(records, treatments, joined, seen)
    requires row.treatmentId == t && JoinedRow(records, treatments, t) == Some(row)
    ensures RowsFrom(records, treatments, joined + [row], seen + {t})
  {
    var after := joined + [row];
    forall i | 0 <= i < |after|
      ensures after[i].treatmentId in seen + {t} && JoinedRow(records, treatments, after[i].treatmentId) == Some(after[i])
    {
      if i < |joined| {
        assert after[i] == joined[i];
      }
    }
  }

  lemma StepDistinct(records: seq<DailyRecord>, treatments: seq<Treatment>,
                     joined: seq<TreatmentRevenue>, seen: set<string>, row: TreatmentRevenue)
    requires RowsFrom(records, treatments, joined, seen) && DistinctBy(joined, RowTreatment)
    requires row.treatmentId !in seen
    ensures DistinctBy(joined + [row], RowTreatment)
  {
    var after := joined + [row];
    forall i, j | 0 <= i < j < |after| ensures RowTreatment(after[i]) != RowTreatment(after[j]) {
      assert after[i] == joined[i];
      if j < |joined| {
        assert after[j] == joined[j];
      }
    }
  }

  lemma StepCovers(treatments: seq<Treatment>, joined: seq<TreatmentRevenue>, seen: set<string>, row: TreatmentRevenue)
    requires Covers(treatments, joined, seen)
    ensures Covers(treatments, joined + [row], seen + {row.treatmentId})
  {
    var after := joined + [row];
    forall u | u in seen + {row.treatmentId} && FindId(treatments, TS.TreatmentId, u).Some?
      ensures exists i :: 0 <= i < |after| && after[i].treatmentId == u
    {
      if u == row.treatmentId {
        assert after[|joined|] == row;
      } else {
        var i :| 0 <= i < |joined| && joined[i].treatmentId == u;
        assert after[i] == joined[i];
      }
    }
  }

  lemma StepCoversUnresolved(treatments: seq<Treatment>, joined: seq<TreatmentRevenue>, seen: set<string>, t: string)
    requires Covers(treatments, joined, seen)
    requires FindId(treatments, TS.TreatmentId, t).None?
    ensures Covers(treatments, joined, seen + {t})
  {
  }

  /** Once every id of the dictionary is joined, the sorted rows have the
      properties `RevenueByTreatment` promises. */
  lemma JoinFinish(records: seq<DailyRecord>, treatments: seq<Treatment>,
                   joined: seq<TreatmentRevenue>, rows: seq<TreatmentRevenue>)
    requires JoinedFrom(records, treatments, joined, RS.TreatmentIds(records))
    requires rows == SortBy(joined, Descending)
    ensures RowsFrom(records, treatments, rows, RS.TreatmentIds(records))
    ensures DistinctBy(rows, RowTreatment)
    ensures Covers(treatments, rows, RS.TreatmentIds(records))
    ensures forall i, j :: 0 <= i < j < |rows| ==> rows[i].amount >= rows[j].amount
    ensures Sum(rows, RowAmount) == Sum(Filter(records, Resolves(treatments)), RS.TotalOf)
  {
    SortByFacts(joined, Descending);
    PermutedRows(records, treatments, joined, rows, RS.TreatmentIds(records));
    PermutedCovers(treatments, joined, rows, RS.TreatmentIds(records));
    DistinctByPermutation(joined, rows, RowTreatment);
    SumPermutation(joined, rows, RowAmount);
    SumFilterWithin(records, Resolves(treatments), RS.TotalOf, ShareOf(treatments, RS.TreatmentIds(records)));
    forall i, j | 0 <= i < j < |rows| ensures rows[i].amount >= rows[j].amount {
      assert Descending(rows[i]) <= Descending(rows[j]);
    }
  }

  lemma PermutedRows(records: seq<DailyRecord>, treatments: seq<Treatment>,
                     joined: seq<TreatmentRevenue>, rows: seq<TreatmentRevenue>, seen: set<string>)
    requires RowsFrom(records, treatments, joined, seen)
    requires multiset(rows) == multiset(joined)
    ensures RowsFrom(records, treatments, rows, seen)
  {
    forall i | 0 <= i < |rows|
      ensures rows[i].treatmentId in seen && JoinedRow(records, treatments, rows[i].treatmentId) == Some(rows[i])
    {
      assert rows[i] in multiset(joined);
    }
  }

  lemma PermutedCovers(treatments: seq<Treatment>, joined: seq<TreatmentRevenue>, rows: seq<TreatmentRevenue>,
                       seen: set<string>)
    requires Covers(treatments, joined, seen)
    requires multiset(rows) == multiset(joined)
    ensures Covers(treatments, rows, seen)
  {
    forall t | t in seen && FindId(treatments, TS.TreatmentId, t).Some?
      ensures exists i :: 0 <= i < |rows| && rows[i].treatmentId == t
    {
      var j :| 0 <= j < |joined| && joined[j].treatmentId == t;
      assert joined[j] in multiset(rows);
    }
  }
}
