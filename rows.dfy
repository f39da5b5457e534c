/**
 * Row selection shared by every table: a query's `.first()` and its
 * `order_by(desc(id)).first()`. Rows are kept in id order, so without an
 * ORDER BY the first match is taken as the lowest id.
 */
module Rows {
  import opened Wrappers

  /** The index of the lowest-id row satisfying p. */
  function FirstWhere<T>(rows: seq<T>, p: T -> bool): (r: Option<nat>)
    ensures r.Some? ==> r.value < |rows| && p(rows[r.value]) &&
                        forall i :: 0 <= i < r.value ==> !p(rows[i])
    ensures r.None? ==> forall i :: 0 <= i < |rows| ==> !p(rows[i])
  {
    if rows == [] then None
    else if p(rows[0]) then Some(0)
    else match FirstWhere(rows[1..], p)
      case None => None
      case Some(j) => Some(j + 1)
  }

  /** The index of the highest-id row satisfying p. */
  function LastWhere<T>(rows: seq<T>, p: T -> bool): (r: Option<nat>)
    ensures r.Some? ==> r.value < |rows| && p(rows[r.value]) &&
                        forall i :: r.value < i < |rows| ==> !p(rows[i])
    ensures r.None? ==> forall i :: 0 <= i < |rows| ==> !p(rows[i])
  {
    if rows == [] then None
    else if p(rows[|rows| - 1]) then Some(|rows| - 1)
    else LastWhere(rows[..|rows| - 1], p)
  }
}
