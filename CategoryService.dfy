/** The expense-category service (CategoryService.swift): an in-memory list
    of the user's expense categories in display order, mirrored in the
    store, and the five categories every new user starts with. */
module CategoryService {
  import opened Wrappers
  import opened Lists
  import opened Dates
  import opened Models
  import opened Store
  import opened Documents
  import opened Ordering

  function CategoryId(c: ExpenseCategory): Option<string>
  {
    c.id
  }

  function CategoryOrder(c: ExpenseCategory): int
  {
    c.order
  }

  /** A reorder's local stamp: the position becomes the order. */
  function WithOrder(): (ExpenseCategory, int) -> ExpenseCategory
  {
    (c: ExpenseCategory, i: int) => c.(order := i)
  }

  /** The list after a successful add: the new category appended, then the
      list sorted by order. */
  function AfterAdd(categories: seq<ExpenseCategory>, created: ExpenseCategory): seq<ExpenseCategory>
  {
    SortBy(categories + [created], CategoryOrder)
  }

  /** The categories created for a new user, as (name, icon) pairs, in
      order. */
  const Defaults: seq<(string, string)> := [("재료비", "🧴"), ("인건비", "👤"), ("월세", "🏠"), ("관리비", "🔧"), ("기타", "💰")]

  /** The `k`-th default category as stored under `documentId`. */
  function DefaultCategory(k: nat, documentId: string, now: Instant): (c: ExpenseCategory)
    requires k < |Defaults|
  {
    ExpenseCategory(Some(documentId), Defaults[k].0, Some(Defaults[k].1), k, now)
  }

  /** What `createDefaultCategories` appends after its first `n` adds: the
      `k`-th default (order `k`, created at `times(k)`) when the store
      accepts its add (`addReplies(k)`); a rejected one is skipped. */
  function DefaultsAdded(n: nat, addReplies: nat -> AddReply, times: nat -> Instant): seq<ExpenseCategory>
    requires n <= |Defaults|
  {
    if n == 0 then []
    else
      DefaultsAdded(n - 1, addReplies, times)
        + match addReplies(n - 1)
          case Added(documentId) => [DefaultCategory(n - 1, documentId, times(n - 1))]
          case AddRejected(_) => []
  }

  class CategoryService {
    var categories: seq<ExpenseCategory>
    /** The error of the last failed call (`errorMessage`), cleared when a
        call starts. */
    var lastError: Option<Error>

    constructor()
      ensures categories == [] && lastError == None
    {
      categories := [];
      lastError := None;
    }

    /** `fetchCategories`: the query's answer (asked for in order) replaces
        the list; if it fails, the stale list is kept and the error is
        recorded. */
    method FetchCategories(reply: FetchReply<ExpenseCategory>)
      modifies this
      ensures reply.Fetched? ==> categories == reply.items && lastError == None
      ensures reply.FetchRejected? ==>
        categories == old(categories) && lastError == Some(FetchFailed(reply.reason))
    {
      lastError := None;
      match reply
      case Fetched(items) =>
        categories := items;
      case FetchRejected(reason) =>
        lastError := Some(FetchFailed(reason));
    }

    /** `addCategory`: the new category gets the order after the largest;
        once the store has given it an id it is appended and the list sorted
        by order. */
    method AddCategory(name: string, icon: Option<string>, reply: AddReply, now: Instant)
      returns (result: Result<string, Error>)
      modifies this
      ensures reply.Added? ==>
        && result == Success(reply.documentId)
        && categories == AfterAdd(old(categories),
             ExpenseCategory(Some(reply.documentId), name, icon, NextOrder(old(categories), CategoryOrder), now))
      ensures reply.AddRejected? ==> result == Failure(AddFailed(reply.reason)) && categories == old(categories)
      ensures lastError == if result.Failure? then Some(result.error) else None
    {
      lastError := None;
      var newOrder := NextOrder(categories, CategoryOrder);
      match reply
      case Added(documentId) =>
        categories := AfterAdd(categories, ExpenseCategory(Some(documentId), name, icon, newOrder, now));
        result := Success(documentId);
      case AddRejected(reason) =>
        result := Failure(AddFailed(reason));
        lastError := Some(result.error);
    }

    /** `updateCategory`: a category without an id is refused before
        anything else happens (the recorded error is left as it was);
        otherwise, once the store accepts the new name and icon, the first
        category with the id is replaced by the given one. */
    method UpdateCategory(category: ExpenseCategory, reply: WriteReply) returns (outcome: Outcome<Error>)
      modifies this
      ensures category.id.None? ==>
        outcome == Fail(InvalidId) && categories == old(categories) && lastError == old(lastError)
      ensures category.id.Some? ==>
        match reply
        case Written =>
          && outcome == Pass && lastError == None
          && categories == ReplaceId(old(categories), CategoryId, category.id.value, category)
        case WriteRejected(reason) =>
          && outcome == Fail(UpdateFailed(reason)) && lastError == Some(outcome.error)
          && categories == old(categories)
    {
      if category.id.None? {
        return Fail(InvalidId);
      }
      lastError := None;
      match reply
      case Written =>
        categories := ReplaceId(categories, CategoryId, category.id.value, category);
        outcome := Pass;
      case WriteRejected(reason) =>
        outcome := Fail(UpdateFailed(reason));
        lastError := Some(outcome.error);
    }

    /** `deleteCategory`: on success every category with the id is removed. */
    method DeleteCategory(id: string, reply: WriteReply) returns (outcome: Outcome<Error>)
      modifies this
      ensures reply.Written? ==> outcome == Pass && categories == RemoveId(old(categories), CategoryId, id)
      ensures reply.WriteRejected? ==>
        outcome == Fail(DeleteFailed(reply.reason)) && categories == old(categories)
      ensures lastError == if outcome.Fail? then Some(outcome.error) else None
    {
      lastError := None;
      match reply
      case Written =>
        categories := RemoveId(categories, CategoryId, id);
        outcome := Pass;
      case WriteRejected(reason) =>
        outcome := Fail(DeleteFailed(reason));
        lastError := Some(outcome.error);
    }

    /** `reorderCategories`: the batch of new orders for the stored
        categories of `reordered` is sent (`batch`); once the store commits
        it, the list becomes `reordered` numbered by position. */
    method ReorderCategories(reordered: seq<ExpenseCategory>, reply: WriteReply)
      returns (batch: seq<(string, int)>, outcome: Outcome<Error>)
      modifies this
      ensures batch == OrderUpdates(reordered, CategoryId)
      ensures reply.Written? ==> outcome == Pass && categories == Reindexed(reordered, WithOrder())
      ensures reply.WriteRejected? ==>
        outcome == Fail(UpdateFailed(reply.reason)) && categories == old(categories)
      ensures lastError == if outcome.Fail? then Some(outcome.error) else None
    {
      lastError := None;
      batch := BuildUpdates(reordered, CategoryId);
      match reply
      case Written =>
        categories := Reindexed(reordered, WithOrder());
        outcome := Pass;
      case WriteRejected(reason) =>
        outcome := Fail(UpdateFailed(reason));
        lastError := Some(outcome.error);
    }

    /** `clearCategories`. */
    method ClearCategories()
      modifies this
      ensures categories == [] && lastError == old(lastError)
    {
      categories := [];
    }

    /** `createDefaultCategories`: the five defaults are added one by one
        with orders 0 to 4, each appended once the store gives it an id; a
        rejected add is skipped and the loop goes on, and the call itself
        never fails. */
    method CreateDefaultCategories(addReplies: nat -> AddReply, times: nat -> Instant)
      modifies this
      ensures categories == old(categories) + DefaultsAdded(|Defaults|, addReplies, times)
      ensures lastError == old(lastError)
    {
      var k := 0;
      while k < |Defaults|
        invariant 0 <= k <= |Defaults|
        invariant categories == old(categories) + DefaultsAdded(k, addReplies, times)
        invariant lastError == old(lastError)
      {
        match addReplies(k) {
          case Added(documentId) =>
            categories := categories + [DefaultCategory(k, documentId, times(k))];
          case AddRejected(_) =>
        }
        k := k + 1;
      }
    }
  }

  // ----------------------------------------------------------------- lemmas

  /** Every created default is the default of its position among the
      defaults, with that position as its order, stored under the id the
      store gave it; the orders rise along the list. */
  lemma {:induction false} DefaultsAddedFacts(n: nat, addReplies: nat -> AddReply, times: nat -> Instant)
    requires n <= |Defaults|
    ensures var c := DefaultsAdded(n, addReplies, times);
      && |c| <= n
      && (forall j :: 0 <= j < |c| ==>
            && 0 <= c[j].order < n
            && addReplies(c[j].order).Added?
            && c[j] == DefaultCategory(c[j].order, addReplies(c[j].order).documentId, times(c[j].order)))
      && (forall j, j' :: 0 <= j < j' < |c| ==> c[j].order < c[j'].order)
  {
    if n > 0 {
      DefaultsAddedFacts(n - 1, addReplies, times);
    }
  }

  /** When the store accepts every add, the five defaults are created in
      order: 재료비 🧴, 인건비 👤, 월세 🏠, 관리비 🔧 and 기타 💰, with orders
      0 to 4. */
  lemma DefaultsAllAdded(addReplies: nat -> AddReply, times: nat -> Instant)
    requires forall k :: 0 <= k < |Defaults| ==> addReplies(k).Added?
    ensures var c := DefaultsAdded(|Defaults|, addReplies, times);
      && |c| == 5
      && (forall k :: 0 <= k < 5 ==>
            c[k].order == k && c[k].name == Defaults[k].0 && c[k].icon == Some(Defaults[k].1) && c[k].id.Some?)
      && c[0].name == "재료비" && c[4].name == "기타"
  {
    DefaultsUpTo(|Defaults|, addReplies, times);
  }

  lemma {:induction false} DefaultsUpTo(n: nat, addReplies: nat -> AddReply, times: nat -> Instant)
    requires n <= |Defaults|
    requires forall k :: 0 <= k < n ==> addReplies(k).Added?
    ensures var c := DefaultsAdded(n, addReplies, times);
      |c| == n && forall k :: 0 <= k < n ==> c[k] == DefaultCategory(k, addReplies(k).documentId, times(k))
  {
    if n > 0 {
      DefaultsUpTo(n - 1, addReplies, times);
    }
  }

  /** Adding a category puts it last with the next order; a list already
      in order only grows by it. */
  lemma AddCategoryFacts(categories: seq<ExpenseCategory>, name: string, icon: Option<string>,
                         documentId: string, now: Instant)
    ensures var created := ExpenseCategory(Some(documentId), name, icon, NextOrder(categories, CategoryOrder), now);
      var after := AfterAdd(categories, created);
      && SortedBy(after, CategoryOrder)
      && |after| == |categories| + 1 && after[|categories|] == created
      && multiset(after[..|categories|]) == multiset(categories)
      && (forall i :: 0 <= i < |categories| ==> categories[i].order < created.order)
      && (SortedBy(categories, CategoryOrder) ==> after == categories + [created])
  {
    var created := ExpenseCategory(Some(documentId), name, icon, NextOrder(categories, CategoryOrder), now);
    NextOrderFacts(categories, CategoryOrder);
    AddSortedFacts(categories, created, CategoryOrder);
  }

  /** After a committed reorder the categories are `reordered` with orders
      0, 1, 2, ... and nothing else changed, so the list is in order and the
      next category added gets the number of categories as its order. */
  lemma ReorderFacts(reordered: seq<ExpenseCategory>)
    ensures var after := Reindexed(reordered, WithOrder());
      && |after| == |reordered|
      && (forall i :: 0 <= i < |after| ==> after[i] == reordered[i].(order := i))
      && SortedBy(after, CategoryOrder)
      && NextOrder(after, CategoryOrder) == |reordered|
  {
    ReindexedFacts(reordered, WithOrder(), CategoryOrder);
  }
}
