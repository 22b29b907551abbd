/** The closed set of element statuses and the two list queries the aggregation uses. */
module Statuses {

  datatype Status = Pending | Prepared | Starting | InProgress | Waiting | Complete | Error

  /** Every status in the list is `s`; vacuously true of the empty list. */
  predicate AllHaveStatus(s: Status, xs: seq<Status>) {
    forall i :: 0 <= i < |xs| ==> xs[i] == s
  }

  /** Some status in the list is `s`. */
  predicate AnyHaveStatus(s: Status, xs: seq<Status>) {
    exists i :: 0 <= i < |xs| && xs[i] == s
  }
}
