/** The use case reporting the admin dashboard statistics. */
module GetDashboardStatsApp {
  import opened Outcomes
  import opened DashboardEntities
  import opened UseCaseResults
  import Repo = CosmosReservationQueryRepo

  /**
   * Reports the repository's statistics, or the message of the failure; a failed
   * count never yields partial or zeroed statistics.
   */
  function GetDashboardStats(store: Repo.Store, now: Instant, todayStart: Instant, pendingNow: Instant)
    : (r: UseCaseResult<DashboardStats>)
    ensures WellFormed(r)
    ensures r.success <==> Repo.StatsQueries !! store.faults.Keys
    ensures r.success ==> r.data == Some(Repo.GetDashboardStats(store, now, todayStart, pendingNow).value)
    ensures r.success ==> r.data.value.overdueLoans <= r.data.value.activeLoans
    ensures !r.success ==> r.data == None
    ensures !r.success ==> exists k :: k in Repo.StatsQueries && k in store.faults && r.error == Some(store.faults[k])
  {
    var stats := Repo.GetDashboardStats(store, now, todayStart, pendingNow);
    if stats.Ok? then
      Repo.OverdueWithinActive(store, now, todayStart, pendingNow);
      Settle(stats)
    else
      Settle(stats)
  }
}
