/** The read-model types shared by the query repository and the use cases. */
module DashboardEntities {
  import opened Outcomes

  /** An instant in time; the model compares instants, never their ISO-8601 text. */
  type Instant = int

  /** The reservation lifecycle states, with the string each one is stored as. */
  datatype ReservationStatus = Reserved | Collected | Returned | Cancelled | Expired

  function StatusName(s: ReservationStatus): (name: string)
    ensures |name| > 0
  {
    match s
    case Reserved => "Reserved"
    case Collected => "Collected"
    case Returned => "Returned"
    case Cancelled => "Cancelled"
    case Expired => "Expired"
  }

  /** Distinct statuses are stored as distinct strings, so comparing names compares statuses. */
  lemma StatusNameInjective(a: ReservationStatus, b: ReservationStatus)
    ensures StatusName(a) == StatusName(b) <==> a == b
  {
    if a != b {
      var na, nb := StatusName(a), StatusName(b);
      assert na[0] != nb[0] || na[1] != nb[1] || na[2] != nb[2];
    }
  }

  /** The projection of a stored reservation handed to admin views. */
  datatype ReservationSummary = ReservationSummary(
    id: string,
    userId: string,
    userEmail: string,
    deviceId: string,
    deviceModelId: string,
    status: ReservationStatus,
    reservedAt: Instant,
    expiresAt: Instant,
    collectedAt: Option<Instant>,
    returnDueAt: Option<Instant>,
    returnedAt: Option<Instant>,
    isOverdue: bool)

  /** Optional listing filters; an omitted `filters` argument is `NoFilters`. */
  datatype ReservationFilters = ReservationFilters(
    status: Option<ReservationStatus>,
    userId: Option<string>,
    deviceModelId: Option<string>,
    fromDate: Option<Instant>,
    toDate: Option<Instant>)

  const NoFilters := ReservationFilters(None, None, None, None, None)

  /** Aggregate counts for the admin dashboard. */
  datatype DashboardStats = DashboardStats(
    activeLoans: nat,
    pendingCollection: nat,
    overdueLoans: nat,
    returnedToday: nat,
    reservationsToday: nat,
    calculatedAt: Instant)
}
