/** The use case listing reservations awaiting collection. */
module ListPendingCollectionsApp {
  import opened Outcomes
  import opened DashboardEntities
  import opened UseCaseResults
  import Repo = CosmosReservationQueryRepo

  /** Reports the repository's pending-collection listing, or the message of its failure. */
  function ListPendingCollections(store: Repo.Store, queryNow: Instant, projectNow: Instant)
    : (r: UseCaseResult<seq<ReservationSummary>>)
    ensures WellFormed(r)
    ensures r.success <==> Repo.ListPendingQuery !in store.faults
    ensures r.success ==> r.data == Some(Repo.ListPendingCollections(store, queryNow, projectNow).value)
    ensures r.success ==> forall s :: s in r.data.value ==> s.status == Reserved && s.expiresAt > queryNow
    ensures !r.success ==> r.error == Some(store.faults[Repo.ListPendingQuery])
  {
    Settle(Repo.ListPendingCollections(store, queryNow, projectNow))
  }
}
