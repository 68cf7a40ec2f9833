/** The remote document store, seen from the services as an oracle: each call
    is answered by a reply value that the caller passes in, so every service
    operation can be stated for the case where the store accepts the call and
    for the case where it throws. */
module Store {

  /** The errors a service call can throw: the kinds the gateway raises for
      each store call, and the `invalidId` a service raises itself when asked
      to update an entity that has no document id. */
  datatype Error =
    | AddFailed(message: string)
    | UpdateFailed(message: string)
    | DeleteFailed(message: string)
    | FetchFailed(message: string)
    | InvalidId

  /** The answer to adding a document: the id the store assigned, or a
      rejection (surfaced as `AddFailed`). */
  datatype AddReply = Added(documentId: string) | AddRejected(reason: string)

  /** The answer to an update, a delete or a batch commit. */
  datatype WriteReply = Written | WriteRejected(reason: string)

  /** The answer to a query: the documents it returned, or a rejection
      (surfaced as `FetchFailed`). */
  datatype FetchReply<+T> = Fetched(items: seq<T>) | FetchRejected(reason: string)
}
