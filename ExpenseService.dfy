/** The monthly-expense service (ExpenseService.swift): an in-memory list that
    mirrors the user's expenses of one month in the store. An expense is
    keyed by its month and category: an upsert changes the amount of the
    cached expense of that month and category, or adds one; a month can be
    started by copying the previous month's expenses. */
module ExpenseService {
  import opened Wrappers
  import opened Lists
  import opened Dates
  import opened Models
  import opened Store
  import opened Documents

  // ----------------------------------------------------------- list queries

  function ExpenseId(e: MonthlyExpense): Option<string>
  {
    e.id
  }

  /** The expense is the one of `categoryId` in `yearMonth`. */
  predicate InSlot(yearMonth: string, categoryId: string, e: MonthlyExpense)
  {
    e.yearMonth == yearMonth && e.categoryId == categoryId
  }

  // The predicates and projections as function values, each written once so
  // that every use denotes the same function.

  function InSlotOf(yearMonth: string, categoryId: string): MonthlyExpense -> bool
  {
    e => InSlot(yearMonth, categoryId, e)
  }

  function InMonthOf(yearMonth: string): MonthlyExpense -> bool
  {
    (e: MonthlyExpense) => e.yearMonth == yearMonth
  }

  function AmountOf(e: MonthlyExpense): int
  {
    e.amount
  }

  function WithAmount(amount: int): MonthlyExpense -> MonthlyExpense
  {
    (e: MonthlyExpense) => e.(amount := amount)
  }

  /** The expense's category is not one of `categoryIds`. */
  function OutsideOf(categoryIds: set<string>): MonthlyExpense -> bool
  {
    (e: MonthlyExpense) => e.categoryId !in categoryIds
  }

  /** The two expenses are of different months or categories. */
  function DistinctSlots(): (MonthlyExpense, MonthlyExpense) -> bool
  {
    (a: MonthlyExpense, b: MonthlyExpense) => !InSlot(a.yearMonth, a.categoryId, b)
  }

  /** The expense `upsertExpense` and `getExpenseAmount` look for: the first
      one of the month and category. */
  function SlotExpense(expenses: seq<MonthlyExpense>, yearMonth: string, categoryId: string): Option<MonthlyExpense>
  {
    First(expenses, InSlotOf(yearMonth, categoryId))
  }

  /** The local patch after a successful amount update: the first expense
      with the id gets the new amount. */
  function SetAmount(expenses: seq<MonthlyExpense>, id: string, amount: int): seq<MonthlyExpense>
  {
    UpdateFirst(expenses, HasIdOf(ExpenseId, id), WithAmount(amount))
  }

  /** `getTotalExpense(for:)`: the sum of the month's amounts. */
  function TotalExpense(expenses: seq<MonthlyExpense>, yearMonth: string): int
  {
    Sum(Filter(expenses, InMonthOf(yearMonth)), AmountOf)
  }

  /** `getExpenseAmount`: the amount of the first expense of the month and
      category, and 0 when there is none. */
  function ExpenseAmount(expenses: seq<MonthlyExpense>, yearMonth: string, categoryId: string): (r: int)
    ensures (forall k :: 0 <= k < |expenses| ==> !InSlot(yearMonth, categoryId, expenses[k])) ==> r == 0
    ensures forall i :: 0 <= i < |expenses| && InSlot(yearMonth, categoryId, expenses[i])
                        && (forall j :: 0 <= j < i ==> !InSlot(yearMonth, categoryId, expenses[j]))
                        ==> r == expenses[i].amount
  {
    match SlotExpense(expenses, yearMonth, categoryId)
    case None => 0
    case Some(e) => e.amount
  }

  /** The categories the expenses are of. */
  function CategoryIds(expenses: seq<MonthlyExpense>): set<string>
  {
    set e | e in expenses :: e.categoryId
  }

  /** Whether an upsert of the month and category updates a cached expense
      (one is cached and has an id) rather than adding one. */
  predicate UpdatesInPlace(expenses: seq<MonthlyExpense>, yearMonth: string, categoryId: string)
  {
    var existing := SlotExpense(expenses, yearMonth, categoryId);
    existing.Some? && existing.value.id.Some?
  }

  /** The list after a successful upsert: the cached expense's amount
      patched, or the new expense (stored under `documentId`) appended. */
  function Upserted(expenses: seq<MonthlyExpense>, yearMonth: string, categoryId: string, amount: int,
                    documentId: string, now: Instant): seq<MonthlyExpense>
  {
    if UpdatesInPlace(expenses, yearMonth, categoryId) then
      SetAmount(expenses, SlotExpense(expenses, yearMonth, categoryId).value.id.value, amount)
    else
      expenses + [MonthlyExpense(Some(documentId), yearMonth, categoryId, amount, now)]
  }

  /** The copy of one previous expense into `toYearMonth`, if the store
      accepted adding it; a rejected copy is skipped. */
  function CopyOf(previous: MonthlyExpense, reply: AddReply, toYearMonth: string, now: Instant): seq<MonthlyExpense>
  {
    match reply
    case Added(documentId) => [MonthlyExpense(Some(documentId), toYearMonth, previous.categoryId, previous.amount, now)]
    case AddRejected(_) => []
  }

  /** What `copyFromPreviousMonth` appends, in order: for each previous
      expense whose category is not in `existing`, its copy, where the store
      answers the add for the `k`-th previous expense with `addReplies(k)`.
      `existing` is computed once, before any copy is made. */
  function Copies(previous: seq<MonthlyExpense>, existing: set<string>, toYearMonth: string,
                  addReplies: nat -> AddReply, now: Instant): seq<MonthlyExpense>
    decreases |previous|
  {
    if previous == [] then []
    else
      var k := |previous| - 1;
      Copies(previous[..k], existing, toYearMonth, addReplies, now)
        + (if previous[k].categoryId in existing then [] else CopyOf(previous[k], addReplies(k), toYearMonth, now))
  }

  /** `groupExpensesByCategory`: each category of the list mapped to its
      expense, a later expense of the same category replacing an earlier. */
  function GroupLast(expenses: seq<MonthlyExpense>): map<string, MonthlyExpense>
    decreases |expenses|
  {
    if expenses == [] then map[]
    else
      var k := |expenses| - 1;
      GroupLast(expenses[..k])[expenses[k].categoryId := expenses[k]]
  }

  /** Every cached expense has been stored (has an id). */
  ghost predicate AllStored(expenses: seq<MonthlyExpense>)
  {
    forall k :: 0 <= k < |expenses| ==> expenses[k].id.Some?
  }

  /** The state an upsert-only history keeps: stored, ids unique, and at
      most one expense per month and category. */
  ghost predicate Valid(expenses: seq<MonthlyExpense>)
  {
    AllStored(expenses) && UniqueIds(expenses, ExpenseId) && Pairwise(expenses, DistinctSlots())
  }

  class ExpenseService {
    var expenses: seq<MonthlyExpense>
    /** The error of the last failed call (`errorMessage`), cleared when a
        call starts. */
    var lastError: Option<Error>

    constructor()
      ensures expenses == [] && lastError == None
    {
      expenses := [];
      lastError := None;
    }

    /** `fetchExpenses(userId:yearMonth:)`: the month query's answer
        replaces the list; if it fails, the stale list is kept and the error
        is recorded. */
    method FetchExpenses(reply: FetchReply<MonthlyExpense>)
      modifies this
      ensures reply.Fetched? ==> expenses == reply.items && lastError == None
      ensures reply.FetchRejected? ==>
        expenses == old(expenses) && lastError == Some(FetchFailed(reply.reason))
    {
      lastError := None;
      match reply
      case Fetched(items) =>
        expenses := items;
      case FetchRejected(reason) =>
        lastError := Some(FetchFailed(reason));
    }

    /** `upsertExpense`: if an expense of the month and category with an id
        is cached, the store is asked to set its amount (answered by
        `updateReply`); otherwise a new expense is added (answered by
        `addReply`). On success the list is patched and the id returned; on
        failure the list is unchanged and the error rethrown. */
    method UpsertExpense(yearMonth: string, categoryId: string, amount: int,
                         updateReply: WriteReply, addReply: AddReply, now: Instant)
      returns (result: Result<string, Error>)
      modifies this
      ensures UpdatesInPlace(old(expenses), yearMonth, categoryId) ==>
        result == match updateReply
                  case Written => Success(SlotExpense(old(expenses), yearMonth, categoryId).value.id.value)
                  case WriteRejected(reason) => Failure(UpdateFailed(reason))
      ensures !UpdatesInPlace(old(expenses), yearMonth, categoryId) ==>
        result == match addReply
                  case Added(documentId) => Success(documentId)
                  case AddRejected(reason) => Failure(AddFailed(reason))
      ensures result.Success? ==>
        expenses == Upserted(old(expenses), yearMonth, categoryId, amount, result.value, now)
      ensures result.Failure? ==> expenses == old(expenses)
      ensures lastError == if result.Failure? then Some(result.error) else None
    {
      lastError := None;
      var existing := SlotExpense(expenses, yearMonth, categoryId);
      if existing.Some? && existing.value.id.Some? {
        var existingId := existing.value.id.value;
        match updateReply
        case Written =>
          expenses := SetAmount(expenses, existingId, amount);
          result := Success(existingId);
        case WriteRejected(reason) =>
          result := Failure(UpdateFailed(reason));
          lastError := Some(result.error);
      } else {
        match addReply
        case Added(documentId) =>
          expenses := expenses + [MonthlyExpense(Some(documentId), yearMonth, categoryId, amount, now)];
          result := Success(documentId);
        case AddRejected(reason) =>
          result := Failure(AddFailed(reason));
          lastError := Some(result.error);
      }
    }

    /** `deleteExpense`: on success every expense with the id is removed. */
    method DeleteExpense(id: string, reply: WriteReply) returns (outcome: Outcome<Error>)
      modifies this
      ensures reply.Written? ==> outcome == Pass && expenses == RemoveId(old(expenses), ExpenseId, id)
      ensures reply.WriteRejected? ==>
        outcome == Fail(DeleteFailed(reply.reason)) && expenses == old(expenses)
      ensures Valid(old(expenses)) ==> Valid(expenses)
      ensures lastError == if outcome.Fail? then Some(outcome.error) else None
    {
      lastError := None;
      match reply
      case Written =>
        RemoveKeepsValid(expenses, id);
        expenses := RemoveId(expenses, ExpenseId, id);
        outcome := Pass;
      case WriteRejected(reason) =>
        outcome := Fail(DeleteFailed(reason));
        lastError := Some(outcome.error);
    }

    /** `copyFromPreviousMonth`: the previous month's expenses are fetched
        (`previousReply`); if there are none, nothing happens. Otherwise the
        target month's expenses are fetched (`currentReply`) and each
        previous expense whose category the target month does not have yet
        is added to the store as a copy for `toYearMonth`; a copy the store
        rejects is skipped and the loop goes on. Only a failed fetch fails
        the call. */
    method CopyFromPreviousMonth(toYearMonth: string, previousReply: FetchReply<MonthlyExpense>,
                                 currentReply: FetchReply<MonthlyExpense>, addReplies: nat -> AddReply,
                                 now: Instant)
      returns (outcome: Outcome<Error>)
      modifies this
      ensures previousReply.FetchRejected? ==>
        outcome == Fail(FetchFailed(previousReply.reason)) && expenses == old(expenses)
      ensures previousReply == Fetched([]) ==> outcome == Pass && expenses == old(expenses)
      ensures previousReply.Fetched? && previousReply.items != [] ==>
        match currentReply
        case FetchRejected(reason) =>
          outcome == Fail(FetchFailed(reason)) && expenses == old(expenses)
        case Fetched(current) =>
          && outcome == Pass
          && expenses == old(expenses) + Copies(previousReply.items, CategoryIds(current), toYearMonth, addReplies, now)
      ensures lastError == if outcome.Fail? then Some(outcome.error) else None
    {
      lastError := None;
      if previousReply.FetchRejected? {
        outcome := Fail(FetchFailed(previousReply.reason));
        lastError := Some(outcome.error);
        return;
      }
      var previous := previousReply.items;
      if previous == [] {
        outcome := Pass;
        return;
      }
      if currentReply.FetchRejected? {
        outcome := Fail(FetchFailed(currentReply.reason));
        lastError := Some(outcome.error);
        return;
      }
      var existing := CategoryIds(currentReply.items);
      var k := 0;
      while k < |previous|
        invariant 0 <= k <= |previous|
        invariant expenses == old(expenses) + Copies(previous[..k], existing, toYearMonth, addReplies, now)
        invariant lastError == None
      {
        var p := previous[k];
        if p.categoryId !in existing {
          match addReplies(k)
          case Added(documentId) =>
            expenses := expenses + [MonthlyExpense(Some(documentId), toYearMonth, p.categoryId, p.amount, now)];
          case AddRejected(_) =>
        }
        assert previous[..k + 1][..k] == previous[..k];
        k := k + 1;
      }
      assert previous[..k] == previous;
      outcome := Pass;
    }

    /** `groupExpensesByCategory`. */
    method GroupExpensesByCategory() returns (grouped: map<string, MonthlyExpense>)
      ensures grouped == GroupLast(expenses)
    {
      grouped := map[];
      var k := 0;
      while k < |expenses|
        invariant 0 <= k <= |expenses|
        invariant grouped == GroupLast(expenses[..k])
      {
        grouped := grouped[expenses[k].categoryId := expenses[k]];
        assert expenses[..k + 1][..k] == expenses[..k];
        k := k + 1;
      }
      assert expenses[..k] == expenses;
    }

    /** `clearExpenses`. */
    method ClearExpenses()
      modifies this
      ensures expenses == [] && lastError == old(lastError)
    {
      expenses := [];
    }
  }

  // ----------------------------------------------------------------- lemmas

  /** What the local patches and the lookups mean on expenses. */
  lemma ExpenseTests(id: string, yearMonth: string, categoryId: string, amount: int)
    ensures forall e :: HasIdOf(ExpenseId, id)(e) <==> e.id == Some(id)
    ensures forall e :: LacksIdOf(ExpenseId, id)(e) <==> e.id != Some(id)
    ensures forall e :: WithAmount(amount)(e) == e.(amount := amount)
    ensures forall e :: InSlotOf(yearMonth, categoryId)(e) <==> InSlot(yearMonth, categoryId, e)
  {
    IdTests(ExpenseId, id);
  }

  /** With unique ids, the amount update for the id of the expense at `i`
      patches exactly that expense. */
  lemma AmountPatchAt(expenses: seq<MonthlyExpense>, i: nat, amount: int)
    requires UniqueIds(expenses, ExpenseId) && i < |expenses| && expenses[i].id.Some?
    ensures SetAmount(expenses, expenses[i].id.value, amount) == expenses[i := expenses[i].(amount := amount)]
  {
    var id := expenses[i].id.value;
    ExpenseTests(id, "", "", amount);
    UniqueIdIndex(expenses, ExpenseId, i, id);
    UpdateFirstAt(expenses, HasIdOf(ExpenseId, id), WithAmount(amount), i);
  }

  /** Replacing the first expense of a slot by another of the slot keeps it
      the one the lookup finds. */
  lemma SlotAfterPatch(expenses: seq<MonthlyExpense>, yearMonth: string, categoryId: string, i: nat, e': MonthlyExpense)
    requires FirstIndex(expenses, InSlotOf(yearMonth, categoryId)) == Some(i)
    requires InSlot(yearMonth, categoryId, e')
    ensures SlotExpense(expenses[i := e'], yearMonth, categoryId) == Some(e')
    ensures ExpenseAmount(expenses[i := e'], yearMonth, categoryId) == e'.amount
  {
    var after := expenses[i := e'];
    forall k | 0 <= k < i ensures !InSlot(yearMonth, categoryId, after[k]) {
      assert after[k] == expenses[k];
    }
    FirstIndexIs(after, InSlotOf(yearMonth, categoryId), i);
  }

  /** An upsert that updates in place keeps the length, makes the new
      amount the one looked up, and changes the month total by the
      difference of the amounts. */
  lemma UpsertReplaceFacts(expenses: seq<MonthlyExpense>, yearMonth: string, categoryId: string, amount: int,
                           documentId: string, now: Instant)
    requires UniqueIds(expenses, ExpenseId) && UpdatesInPlace(expenses, yearMonth, categoryId)
    ensures var after := Upserted(expenses, yearMonth, categoryId, amount, documentId, now);
      && |after| == |expenses|
      && ExpenseAmount(after, yearMonth, categoryId) == amount
      && TotalExpense(after, yearMonth) ==
           TotalExpense(expenses, yearMonth) - ExpenseAmount(expenses, yearMonth, categoryId) + amount
  {
    var i := FirstIndex(expenses, InSlotOf(yearMonth, categoryId)).value;
    var e' := expenses[i].(amount := amount);
    AmountPatchAt(expenses, i, amount);
    SlotAfterPatch(expenses, yearMonth, categoryId, i, e');
    SumFilterUpdate(expenses, InMonthOf(yearMonth), AmountOf, i, e');
  }

  /** An upsert that adds makes the new amount the one looked up and raises
      the month total by it; the old lookup found nothing. */
  lemma UpsertAppendFacts(expenses: seq<MonthlyExpense>, yearMonth: string, categoryId: string, amount: int,
                          documentId: string, now: Instant)
    requires SlotExpense(expenses, yearMonth, categoryId).None?
    ensures var after := Upserted(expenses, yearMonth, categoryId, amount, documentId, now);
      && after == expenses + [MonthlyExpense(Some(documentId), yearMonth, categoryId, amount, now)]
      && ExpenseAmount(expenses, yearMonth, categoryId) == 0
      && ExpenseAmount(after, yearMonth, categoryId) == amount
      && TotalExpense(after, yearMonth) == TotalExpense(expenses, yearMonth) + amount
  {
    var created := MonthlyExpense(Some(documentId), yearMonth, categoryId, amount, now);
    var after := expenses + [created];
    forall k | 0 <= k < |expenses| ensures !InSlot(yearMonth, categoryId, after[k]) {
      assert after[k] == expenses[k];
    }
    assert after[|expenses|] == created;
    SumFilterAppend(expenses, InMonthOf(yearMonth), AmountOf, created);
  }

  /** Whichever way it goes, a successful upsert makes `amount` the month
      and category's amount and changes the month total by the difference
      between the new and the old amount, when every cached expense is
      stored and ids are unique. */
  lemma UpsertTotal(expenses: seq<MonthlyExpense>, yearMonth: string, categoryId: string, amount: int,
                    documentId: string, now: Instant)
    requires AllStored(expenses) && UniqueIds(expenses, ExpenseId)
    ensures var after := Upserted(expenses, yearMonth, categoryId, amount, documentId, now);
      && ExpenseAmount(after, yearMonth, categoryId) == amount
      && TotalExpense(after, yearMonth) ==
           TotalExpense(expenses, yearMonth) - ExpenseAmount(expenses, yearMonth, categoryId) + amount
  {
    if UpdatesInPlace(expenses, yearMonth, categoryId) {
      UpsertReplaceFacts(expenses, yearMonth, categoryId, amount, documentId, now);
    } else {
      UpsertAppendFacts(expenses, yearMonth, categoryId, amount, documentId, now);
    }
  }

  /** A successful upsert keeps the list valid, provided the store's new id
      is not in use. */
  lemma UpsertKeepsValid(expenses: seq<MonthlyExpense>, yearMonth: string, categoryId: string, amount: int,
                         documentId: string, now: Instant)
    requires Valid(expenses)
    requires forall k :: 0 <= k < |expenses| ==> expenses[k].id != Some(documentId)
    ensures Valid(Upserted(expenses, yearMonth, categoryId, amount, documentId, now))
  {
    var after := Upserted(expenses, yearMonth, categoryId, amount, documentId, now);
    if UpdatesInPlace(expenses, yearMonth, categoryId) {
      var i := FirstIndex(expenses, InSlotOf(yearMonth, categoryId)).value;
      AmountPatchAt(expenses, i, amount);
      assert after == expenses[i := expenses[i].(amount := amount)];
      forall a, b | 0 <= a < b < |after| ensures DistinctSlots()(after[a], after[b]) {
        assert DistinctSlots()(expenses[a], expenses[b]);
      }
      forall a, b | 0 <= a < b < |after| && ExpenseId(after[a]).Some?
        ensures ExpenseId(after[a]) != ExpenseId(after[b])
      {
        assert ExpenseId(expenses[a]) != ExpenseId(expenses[b]);
      }
    } else {
      var created := MonthlyExpense(Some(documentId), yearMonth, categoryId, amount, now);
      assert after == expenses + [created];
      AppendKeepsUnique(expenses, ExpenseId, created);
      assert SlotExpense(expenses, yearMonth, categoryId).None? by {
        var i := FirstIndex(expenses, InSlotOf(yearMonth, categoryId));
        if i.Some? {
          assert expenses[i.value].id.Some?;
        }
      }
      forall a, b | 0 <= a < b < |after| ensures DistinctSlots()(after[a], after[b]) {
        assert after[a] == expenses[a];
        if b < |expenses| {
          assert after[b] == expenses[b];
        }
      }
    }
  }

  /** Setting an amount the expense with the id already has changes nothing. */
  lemma SetAmountUnchanged(expenses: seq<MonthlyExpense>, id: string, amount: int)
    requires UniqueIds(expenses, ExpenseId)
    requires forall k :: 0 <= k < |expenses| && expenses[k].id == Some(id) ==> expenses[k].amount == amount
    ensures SetAmount(expenses, id, amount) == expenses
  {
    ExpenseTests(id, "", "", amount);
    UpdateFirstFacts(expenses, HasIdOf(ExpenseId, id), WithAmount(amount));
  }

  /** Upserting the same amount twice leaves the list as one upsert does. */
  lemma UpsertIdempotent(expenses: seq<MonthlyExpense>, yearMonth: string, categoryId: string, amount: int,
                         documentId: string, documentId2: string, now: Instant, now2: Instant)
    requires Valid(expenses)
    requires forall k :: 0 <= k < |expenses| ==> expenses[k].id != Some(documentId)
    ensures var once := Upserted(expenses, yearMonth, categoryId, amount, documentId, now);
      Upserted(once, yearMonth, categoryId, amount, documentId2, now2) == once
  {
    var once := Upserted(expenses, yearMonth, categoryId, amount, documentId, now);
    UpsertKeepsValid(expenses, yearMonth, categoryId, amount, documentId, now);
    UpsertTotal(expenses, yearMonth, categoryId, amount, documentId, now);
    if UpdatesInPlace(expenses, yearMonth, categoryId) {
      var j := FirstIndex(expenses, InSlotOf(yearMonth, categoryId)).value;
      AmountPatchAt(expenses, j, amount);
      assert InSlot(yearMonth, categoryId, once[j]);
    } else {
      assert InSlot(yearMonth, categoryId, once[|expenses|]);
    }
    var i := FirstIndex(once, InSlotOf(yearMonth, categoryId));
    assert i.Some?;
    var e := once[i.value];
    assert UpdatesInPlace(once, yearMonth, categoryId);
    var id := e.id.value;
    assert e.amount == amount;
    UniqueIdIndex(once, ExpenseId, i.value, id);
    SetAmountUnchanged(once, id, amount);
  }

  /** Deleting keeps the list valid. */
  lemma RemoveKeepsValid(expenses: seq<MonthlyExpense>, id: string)
    ensures Valid(expenses) ==> Valid(RemoveId(expenses, ExpenseId, id))
  {
    RemoveIdKeepsUnique(expenses, ExpenseId, id);
    FilterKeepsPairwise(expenses, LacksIdOf(ExpenseId, id), DistinctSlots());
    var after := RemoveId(expenses, ExpenseId, id);
    FilterMembers(expenses, LacksIdOf(ExpenseId, id));
    if AllStored(expenses) {
      forall k | 0 <= k < |after| ensures after[k].id.Some? {
        assert after[k] in expenses;
      }
    }
  }

  /** Every copy is an expense of the target month, stored under the id the
      store gave it, of a category the target month did not have, created
      at `now`, and repeats the category and amount of the previous expense
      whose add it answers; there are never more copies than previous
      expenses. */
  lemma {:induction false} CopiesFacts(previous: seq<MonthlyExpense>, existing: set<string>, toYearMonth: string,
                                       addReplies: nat -> AddReply, now: Instant)
    ensures var c := Copies(previous, existing, toYearMonth, addReplies, now);
      && |c| <= |previous|
      && forall j :: 0 <= j < |c| ==>
           && c[j].yearMonth == toYearMonth && c[j].categoryId !in existing
           && c[j].createdAt == now && c[j].id.Some?
           && exists k :: 0 <= k < |previous| && previous[k].categoryId == c[j].categoryId
                          && previous[k].amount == c[j].amount && addReplies(k) == Added(c[j].id.value)
  {
    if previous != [] {
      var k := |previous| - 1;
      var init := previous[..k];
      CopiesFacts(init, existing, toYearMonth, addReplies, now);
      var head := Copies(init, existing, toYearMonth, addReplies, now);
      var tail := if previous[k].categoryId in existing then [] else CopyOf(previous[k], addReplies(k), toYearMonth, now);
      var c := head + tail;
      forall j | 0 <= j < |c|
        ensures exists k' :: 0 <= k' < |previous| && previous[k'].categoryId == c[j].categoryId
                             && previous[k'].amount == c[j].amount && addReplies(k') == Added(c[j].id.value)
      {
        if j < |head| {
          var k' :| 0 <= k' < |init| && init[k'].categoryId == head[j].categoryId
                    && init[k'].amount == head[j].amount && addReplies(k') == Added(head[j].id.value);
          assert previous[k'] == init[k'];
        } else {
          assert c[j] == tail[0];
        }
      }
    }
  }

  /** When the store accepts every add, the copies are exactly the previous
      expenses whose category the target month does not have, in order,
      with their categories and amounts; two previous expenses of the same
      such category are both copied. */
  lemma {:induction false} CopiesAllAdded(previous: seq<MonthlyExpense>, existing: set<string>, toYearMonth: string,
                                          addReplies: nat -> AddReply, now: Instant)
    requires forall k :: 0 <= k < |previous| ==> addReplies(k).Added?
    ensures var c, kept := Copies(previous, existing, toYearMonth, addReplies, now), Filter(previous, OutsideOf(existing));
      && |c| == |kept|
      && forall j :: 0 <= j < |c| ==> c[j].categoryId == kept[j].categoryId && c[j].amount == kept[j].amount
  {
    if previous != [] {
      var k := |previous| - 1;
      var init, last := previous[..k], previous[k];
      CopiesAllAdded(init, existing, toYearMonth, addReplies, now);
      assert previous == init + [last];
      FilterAppend(init, [last], OutsideOf(existing));
      assert Filter([last], OutsideOf(existing)) == if last.categoryId in existing then [] else [last] by {
        assert [last][1..] == [];
      }
    }
  }

  /** An empty target month copies every previous expense whose add the
      store accepts. */
  lemma CopiesIntoEmptyMonth(previous: seq<MonthlyExpense>, toYearMonth: string,
                             addReplies: nat -> AddReply, now: Instant)
    requires forall k :: 0 <= k < |previous| ==> addReplies(k).Added?
    ensures var c := Copies(previous, {}, toYearMonth, addReplies, now);
      && |c| == |previous|
      && forall j :: 0 <= j < |c| ==> c[j].categoryId == previous[j].categoryId && c[j].amount == previous[j].amount
  {
    CopiesAllAdded(previous, {}, toYearMonth, addReplies, now);
    FilterAll(previous, OutsideOf({}));
  }

  /** The grouping has a key for exactly the categories of the list, and
      each key's value is the last expense of that category. */
  lemma {:induction false} GroupLastFacts(expenses: seq<MonthlyExpense>)
    ensures GroupLast(expenses).Keys == CategoryIds(expenses)
    ensures forall c :: c in GroupLast(expenses) ==>
      exists i :: 0 <= i < |expenses| && expenses[i] == GroupLast(expenses)[c] && expenses[i].categoryId == c
                  && forall j :: i < j < |expenses| ==> expenses[j].categoryId != c
  {
    if expenses != [] {
      var k := |expenses| - 1;
      var init, last := expenses[..k], expenses[k];
      GroupLastFacts(init);
      assert expenses == init + [last];
      var g := GroupLast(expenses);
      assert CategoryIds(expenses) == CategoryIds(init) + {last.categoryId} by {
        forall e | e in expenses ensures e in init || e == last { }
        forall e | e in init ensures e in expenses { }
      }
      forall c | c in g
        ensures exists i :: 0 <= i < |expenses| && expenses[i] == g[c] && expenses[i].categoryId == c
                            && forall j :: i < j < |expenses| ==> expenses[j].categoryId != c
      {
        if c == last.categoryId {
          assert expenses[k] == g[c];
        } else {
          var i :| 0 <= i < |init| && init[i] == GroupLast(init)[c] && init[i].categoryId == c
                   && forall j :: i < j < |init| ==> init[j].categoryId != c;
          assert expenses[i] == g[c];
          forall j | i < j < |expenses| ensures expenses[j].categoryId != c {
            if j < k { assert expenses[j] == init[j]; }
          }
        }
      }
    }
  }
}
