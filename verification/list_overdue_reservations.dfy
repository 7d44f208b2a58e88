/** The use case listing overdue loans. */
module ListOverdueReservationsApp {
  import opened Outcomes
  import opened DashboardEntities
  import opened UseCaseResults
  import Repo = CosmosReservationQueryRepo

  /** Reports the repository's overdue listing, or the message of its failure. */
  function ListOverdueReservations(store: Repo.Store, queryNow: Instant, projectNow: Instant)
    : (r: UseCaseResult<seq<ReservationSummary>>)
    ensures WellFormed(r)
    ensures r.success <==> Repo.ListOverdueQuery !in store.faults
    ensures r.success ==> r.data == Some(Repo.ListOverdueReservations(store, queryNow, projectNow).value)
    ensures r.success ==> forall s :: s in r.data.value ==> s.isOverdue
    ensures !r.success ==> r.error == Some(store.faults[Repo.ListOverdueQuery])
  {
    Settle(Repo.ListOverdueReservations(store, queryNow, projectNow))
  }
}
