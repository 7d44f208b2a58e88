/** The use case listing all reservations, optionally filtered. */
module ListAllReservationsApp {
  import opened Outcomes
  import opened DashboardEntities
  import opened Ordering
  import opened UseCaseResults
  import Repo = CosmosReservationQueryRepo

  /**
   * Passes the filters to the repository unchanged and reports its listing, or
   * the message of its failure.
   */
  method ListAllReservations(store: Repo.Store, filters: ReservationFilters, now: Instant)
    returns (r: UseCaseResult<seq<ReservationSummary>>)
    ensures WellFormed(r)
    ensures r.success <==> Repo.ListAllQuery !in store.faults
    ensures !r.success ==> r.error == Some(store.faults[Repo.ListAllQuery])
    ensures r.success ==> SortedBy(ReservedAtDesc, r.data.value)
    ensures r.success ==>
      multiset(r.data.value) == multiset(Repo.Project(Repo.Select(store.docs, Repo.Matching(filters)), now, false))
  {
    var reservations := Repo.ListReservations(store, filters, now);
    r := Settle(reservations);
  }
}
