/** The treatment service (TreatmentService.swift): an in-memory list of the
    user's treatments (name, price, icon, colour) in display order, mirrored
    in the store. */
module TreatmentService {
  import opened Wrappers
  import opened Lists
  import opened Dates
  import opened Models
  import opened Store
  import opened Documents
  import opened Ordering

  function TreatmentId(t: Treatment): Option<string>
  {
    t.id
  }

  function TreatmentOrder(t: Treatment): int
  {
    t.order
  }

  /** A reorder's local stamp: the position becomes the order and the
      treatment is marked as updated at `now`. */
  function WithOrderAt(now: Instant): (Treatment, int) -> Treatment
  {
    (t: Treatment, i: int) => t.(order := i, updatedAt := now)
  }

  /** The list after a successful add: the new treatment appended, then the
      list sorted by order. */
  function AfterAdd(treatments: seq<Treatment>, created: Treatment): seq<Treatment>
  {
    SortBy(treatments + [created], TreatmentOrder)
  }

  class TreatmentService {
    var treatments: seq<Treatment>
    /** The error of the last failed call (`errorMessage`), cleared when a
        call starts. */
    var lastError: Option<Error>

    constructor()
      ensures treatments == [] && lastError == None
    {
      treatments := [];
      lastError := None;
    }

    /** `fetchTreatments`: the query's answer (asked for in order) replaces
        the list; if it fails, the stale list is kept and the error is
        recorded. */
    method FetchTreatments(reply: FetchReply<Treatment>)
      modifies this
      ensures reply.Fetched? ==> treatments == reply.items && lastError == None
      ensures reply.FetchRejected? ==>
        treatments == old(treatments) && lastError == Some(FetchFailed(reply.reason))
    {
      lastError := None;
      match reply
      case Fetched(items) =>
        treatments := items;
      case FetchRejected(reason) =>
        lastError := Some(FetchFailed(reason));
    }

    /** `addTreatment`: the new treatment gets the order after the largest
        and `now` as both timestamps; once the store has given it an id it is
        appended and the list sorted by order. */
    method AddTreatment(name: string, price: int, icon: Option<string>, color: string,
                        reply: AddReply, now: Instant)
      returns (result: Result<string, Error>)
      modifies this
      ensures reply.Added? ==>
        && result == Success(reply.documentId)
        && treatments == AfterAdd(old(treatments),
             Treatment(Some(reply.documentId), name, price, icon, color,
                       NextOrder(old(treatments), TreatmentOrder), now, now))
      ensures reply.AddRejected? ==> result == Failure(AddFailed(reply.reason)) && treatments == old(treatments)
      ensures lastError == if result.Failure? then Some(result.error) else None
    {
      lastError := None;
      var newOrder := NextOrder(treatments, TreatmentOrder);
      match reply
      case Added(documentId) =>
        treatments := AfterAdd(treatments, Treatment(Some(documentId), name, price, icon, color, newOrder, now, now));
        result := Success(documentId);
      case AddRejected(reason) =>
        result := Failure(AddFailed(reason));
        lastError := Some(result.error);
    }

    /** `updateTreatment`: a treatment without an id is refused before
        anything else happens (the recorded error is left as it was);
        otherwise, once the store accepts the new fields, the first treatment
        with the id is replaced by the given one, stamped as updated at
        `now`. */
    method UpdateTreatment(treatment: Treatment, reply: WriteReply, now: Instant) returns (outcome: Outcome<Error>)
      modifies this
      ensures treatment.id.None? ==>
        outcome == Fail(InvalidId) && treatments == old(treatments) && lastError == old(lastError)
      ensures treatment.id.Some? ==>
        match reply
        case Written =>
          && outcome == Pass && lastError == None
          && treatments == ReplaceId(old(treatments), TreatmentId, treatment.id.value, treatment.(updatedAt := now))
        case WriteRejected(reason) =>
          && outcome == Fail(UpdateFailed(reason)) && lastError == Some(outcome.error)
          && treatments == old(treatments)
    {
      if treatment.id.None? {
        return Fail(InvalidId);
      }
      lastError := None;
      match reply
      case Written =>
        treatments := ReplaceId(treatments, TreatmentId, treatment.id.value, treatment.(updatedAt := now));
        outcome := Pass;
      case WriteRejected(reason) =>
        outcome := Fail(UpdateFailed(reason));
        lastError := Some(outcome.error);
    }

    /** `deleteTreatment`: on success every treatment with the id is removed. */
    method DeleteTreatment(id: string, reply: WriteReply) returns (outcome: Outcome<Error>)
      modifies this
      ensures reply.Written? ==> outcome == Pass && treatments == RemoveId(old(treatments), TreatmentId, id)
      ensures reply.WriteRejected? ==>
        outcome == Fail(DeleteFailed(reply.reason)) && treatments == old(treatments)
      ensures lastError == if outcome.Fail? then Some(outcome.error) else None
    {
      lastError := None;
      match reply
      case Written =>
        treatments := RemoveId(treatments, TreatmentId, id);
        outcome := Pass;
      case WriteRejected(reason) =>
        outcome := Fail(DeleteFailed(reason));
        lastError := Some(outcome.error);
    }

    /** `reorderTreatments`: the batch of new orders for the stored
        treatments of `reordered` is sent (`batch`); once the store commits
        it, the list becomes `reordered` numbered by position and stamped as
        updated at `now`. */
    method ReorderTreatments(reordered: seq<Treatment>, reply: WriteReply, now: Instant)
      returns (batch: seq<(string, int)>, outcome: Outcome<Error>)
      modifies this
      ensures batch == OrderUpdates(reordered, TreatmentId)
      ensures reply.Written? ==> outcome == Pass && treatments == Reindexed(reordered, WithOrderAt(now))
      ensures reply.WriteRejected? ==>
        outcome == Fail(UpdateFailed(reply.reason)) && treatments == old(treatments)
      ensures lastError == if outcome.Fail? then Some(outcome.error) else None
    {
      lastError := None;
      batch := BuildUpdates(reordered, TreatmentId);
      match reply
      case Written =>
        treatments := Reindexed(reordered, WithOrderAt(now));
        outcome := Pass;
      case WriteRejected(reason) =>
        outcome := Fail(UpdateFailed(reason));
        lastError := Some(outcome.error);
    }

    /** `clearTreatments`. */
    method ClearTreatments()
      modifies this
      ensures treatments == [] && lastError == old(lastError)
    {
      treatments := [];
    }
  }

  // ----------------------------------------------------------------- lemmas

  /** Adding a treatment puts it last with the next order; a list already
      in order only grows by it. */
  lemma AddTreatmentFacts(treatments: seq<Treatment>, name: string, price: int, icon: Option<string>,
                          color: string, documentId: string, now: Instant)
    ensures var created := Treatment(Some(documentId), name, price, icon, color,
                                     NextOrder(treatments, TreatmentOrder), now, now);
      var after := AfterAdd(treatments, created);
      && SortedBy(after, TreatmentOrder)
      && |after| == |treatments| + 1 && after[|treatments|] == created
      && multiset(after[..|treatments|]) == multiset(treatments)
      && (forall i :: 0 <= i < |treatments| ==> treatments[i].order < created.order)
      && (SortedBy(treatments, TreatmentOrder) ==> after == treatments + [created])
  {
    var created := Treatment(Some(documentId), name, price, icon, color,
                             NextOrder(treatments, TreatmentOrder), now, now);
    NextOrderFacts(treatments, TreatmentOrder);
    AddSortedFacts(treatments, created, TreatmentOrder);
  }

  /** A committed update is what a lookup by the id then finds, when ids are
      unique and the id is cached; the list keeps its length and its ids
      stay unique. */
  lemma UpdateThenGet(treatments: seq<Treatment>, treatment: Treatment, now: Instant)
    requires UniqueIds(treatments, TreatmentId) && treatment.id.Some?
    requires exists k :: 0 <= k < |treatments| && treatments[k].id == treatment.id
    ensures var id := treatment.id.value;
      var after := ReplaceId(treatments, TreatmentId, id, treatment.(updatedAt := now));
      && |after| == |treatments|
      && UniqueIds(after, TreatmentId)
      && FindId(after, TreatmentId, id) == Some(treatment.(updatedAt := now))
  {
    var id := treatment.id.value;
    ReplaceIdFacts(treatments, TreatmentId, id, treatment.(updatedAt := now));
    ReplaceIdKeepsUnique(treatments, TreatmentId, id, treatment.(updatedAt := now));
  }

  /** After a committed reorder the treatments are `reordered` with orders
      0, 1, 2, ..., stamped at `now`, and otherwise unchanged, so the list
      is in order and the next treatment added gets the number of
      treatments as its order. */
  lemma ReorderFacts(reordered: seq<Treatment>, now: Instant)
    ensures var after := Reindexed(reordered, WithOrderAt(now));
      && |after| == |reordered|
      && (forall i :: 0 <= i < |after| ==> after[i] == reordered[i].(order := i, updatedAt := now))
      && SortedBy(after, TreatmentOrder)
      && NextOrder(after, TreatmentOrder) == |reordered|
  {
    ReindexedFacts(reordered, WithOrderAt(now), TreatmentOrder);
  }
}
