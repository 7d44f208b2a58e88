/** The ORDER BY clauses of the listing queries, evaluated in memory over summaries. */
module Ordering {
  import opened Outcomes
  import opened DashboardEntities

  /** The three sort keys the listing queries use. */
  datatype SortKey =
    | ReservedAtDesc   // ORDER BY c.reservedAt DESC
    | ReturnDueAtAsc   // ORDER BY c.returnDueAt ASC
    | ExpiresAtAsc     // ORDER BY c.expiresAt ASC

  /** An absent instant sorts before every present one, as an undefined property does in an ascending ORDER BY. */
  predicate InstantLe(a: Option<Instant>, b: Option<Instant>) {
    match (a, b)
    case (None, _) => true
    case (Some(_), None) => false
    case (Some(x), Some(y)) => x <= y
  }

  /** `a` may be listed before `b` under key `k`. */
  predicate Precedes(k: SortKey, a: ReservationSummary, b: ReservationSummary) {
    match k
    case ReservedAtDesc => a.reservedAt >= b.reservedAt
    case ReturnDueAtAsc => InstantLe(a.returnDueAt, b.returnDueAt)
    case ExpiresAtAsc => a.expiresAt <= b.expiresAt
  }

  lemma PrecedesTotal(k: SortKey, a: ReservationSummary, b: ReservationSummary)
    ensures Precedes(k, a, b) || Precedes(k, b, a)
  {
  }

  lemma PrecedesTransitive(k: SortKey, a: ReservationSummary, b: ReservationSummary, c: ReservationSummary)
    requires Precedes(k, a, b) && Precedes(k, b, c)
    ensures Precedes(k, a, c)
  {
  }

  /** Every earlier element may precede every later one; ties are in no particular order. */
  ghost predicate SortedBy(k: SortKey, s: seq<ReservationSummary>) {
    forall i, j :: 0 <= i < j < |s| ==> Precedes(k, s[i], s[j])
  }

  /** Places `x` into the sorted `s`. */
  function Insert(k: SortKey, x: ReservationSummary, s: seq<ReservationSummary>): (r: seq<ReservationSummary>)
    requires SortedBy(k, s)
    ensures SortedBy(k, r)
    ensures multiset(r) == multiset(s) + multiset{x}
    decreases |s|
  {
    if s == [] then [x]
    else if Precedes(k, x, s[0]) then
      assert SortedBy(k, [x] + s) by {
        forall j | 0 < j < |s| ensures Precedes(k, x, s[j]) {
          PrecedesTransitive(k, x, s[0], s[j]);
        }
      }
      [x] + s
    else
      var t := Insert(k, x, s[1..]);
      assert s == [s[0]] + s[1..];
      assert SortedBy(k, [s[0]] + t) by {
        forall j | 0 <= j < |t| ensures Precedes(k, s[0], t[j]) {
          assert t[j] in multiset(t);
          if t[j] != x {
            assert t[j] in multiset(s[1..]);
            var i :| 0 <= i < |s[1..]| && s[1..][i] == t[j];
            assert s[i + 1] == t[j];
          } else {
            PrecedesTotal(k, x, s[0]);
          }
        }
      }
      [s[0]] + t
  }

  /**
   * The rows of a query in the order its ORDER BY clause asks for: a permutation of
   * `s` sorted by `k`. Which of two tied rows comes first is left unspecified.
   */
  function OrderBy(k: SortKey, s: seq<ReservationSummary>): (r: seq<ReservationSummary>)
    ensures SortedBy(k, r)
    ensures multiset(r) == multiset(s)
  {
    if s == [] then []
    else
      assert s == [s[0]] + s[1..];
      Insert(k, s[0], OrderBy(k, s[1..]))
  }
}
