/**
 * The violation table: one row per payment or overstay violation raised
 * for a session. The status and session columns are free strings: the
 * engine writes "OPEN", and the close path writes "CLOSE".
 */
module ViolationModel {
  import opened Wrappers
  import opened Rows
  import opened Enums

  datatype Violation = Violation(
    id: nat,
    name: string,
    status: string,
    description: string,
    taskId: nat,
    violationType: Option<string>,
    amountDue: int,
    spotId: Option<string>,
    plate: Option<string>,
    lotId: Option<int>,
    session: Option<string>,
    sessionId: Option<int>,
    citationInactivationId: Option<string>)

  /** The amount a VARIABLE-priced violation grows by on each further "not paid". */
  const VARIABLE_INCREMENT := 10

  predicate WellNumbered(rows: seq<Violation>)
  {
    forall i :: 0 <= i < |rows| ==> rows[i].id == i + 1
  }


  /** The id of a well-numbered table locates its row. */
  function IndexOfId(rows: seq<Violation>, id: int): (r: Option<nat>)
    ensures r.Some? ==> r.value < |rows| && rows[r.value].id == id
    ensures r.None? ==> forall i :: 0 <= i < |rows| ==> rows[i].id != id
  {
    FirstWhere(rows, (v: Violation) => v.id == id)
  }

  /** In a well-numbered table every row is found by its own id. */
  lemma IndexOfOwnId(rows: seq<Violation>, k: nat)
    requires WellNumbered(rows) && k < |rows|
    ensures IndexOfId(rows, rows[k].id) == Some(k)
  {
  }

  predicate OpenOfSession(v: Violation, sessionId: Option<int>, violationType: string)
  {
    v.sessionId == sessionId && v.violationType == Some(violationType) && v.status == OPEN
  }

  /** get_violation_by_session_id: the OPEN violation of that session and type. */
  function OpenViolationOf(rows: seq<Violation>, sessionId: Option<int>, violationType: string): (r: Option<nat>)
    ensures r.Some? ==> r.value < |rows| && OpenOfSession(rows[r.value], sessionId, violationType)
    ensures r.Some? ==> forall i :: 0 <= i < r.value ==> !OpenOfSession(rows[i], sessionId, violationType)
    ensures r.None? <==> forall i :: 0 <= i < |rows| ==> !OpenOfSession(rows[i], sessionId, violationType)
  {
    FirstWhere(rows, (v: Violation) => OpenOfSession(v, sessionId, violationType))
  }

  /** The rows update_violation's query can match for that feature. */
  predicate IncrementMatch(v: Violation, plate: Option<string>, spotId: Option<string>, featureKey: string)
  {
    v.status == OPEN &&
    ((featureKey == PAYMENT_CHECK_SPOT && v.plate == plate) ||
     (featureKey == PAYMENT_CHECK_LPR && v.spotId == spotId))
  }

  /**
   * update_violation's lookup: for a spot-based payment check it matches the
   * plate, for an LPR-based one the spot, in both cases only OPEN rows and
   * regardless of session; any other feature matches nothing.
   */
  function IncrementTarget(rows: seq<Violation>, plate: Option<string>, spotId: Option<string>, featureKey: string)
    : (r: Option<nat>)
    ensures featureKey != PAYMENT_CHECK_SPOT && featureKey != PAYMENT_CHECK_LPR ==> r.None?
    ensures r.Some? ==> r.value < |rows| && rows[r.value].status == OPEN
    ensures r.Some? && featureKey == PAYMENT_CHECK_SPOT ==> rows[r.value].plate == plate
    ensures r.Some? && featureKey == PAYMENT_CHECK_LPR ==> rows[r.value].spotId == spotId
    ensures r.None? <==> forall i :: 0 <= i < |rows| ==> !IncrementMatch(rows[i], plate, spotId, featureKey)
    ensures r.Some? ==> IncrementMatch(rows[r.value], plate, spotId, featureKey) &&
                        forall i :: 0 <= i < r.value ==> !IncrementMatch(rows[i], plate, spotId, featureKey)
  {
    if featureKey == PAYMENT_CHECK_SPOT then
      FirstWhere(rows, (v: Violation) => v.plate == plate && v.status == OPEN)
    else if featureKey == PAYMENT_CHECK_LPR then
      FirstWhere(rows, (v: Violation) => v.spotId == spotId && v.status == OPEN)
    else None
  }

  /**
   * The table after update_session: the first row of the plate, if any,
   * gets that session value; every other row is unchanged.
   */
  function SessionMarked(rows: seq<Violation>, plate: Option<string>, sessionStatus: string): (r: seq<Violation>)
    ensures |r| == |rows|
    ensures forall i :: 0 <= i < |rows| ==>
              r[i] == rows[i] ||
              (rows[i].plate == plate && r[i] == rows[i].(session := Some(sessionStatus)) &&
               forall j :: 0 <= j < i ==> rows[j].plate != plate)
    ensures forall i :: 0 <= i < |rows| && rows[i].plate == plate ==>
              exists k :: 0 <= k <= i && rows[k].plate == plate && r[k].session == Some(sessionStatus)
  {
    match FirstWhere(rows, (v: Violation) => v.plate == plate)
    case None => rows
    case Some(k) => rows[k := rows[k].(session := Some(sessionStatus))]
  }

  /**
   * The table after update_session_by_spot_id: the first row of that spot
   * and session, if any, gets that session value; every other row is
   * unchanged.
   */
  function SpotSessionMarked(rows: seq<Violation>, spotId: Option<string>, sessionId: Option<int>, sessionStatus: string)
    : (r: seq<Violation>)
    ensures |r| == |rows|
    ensures forall i :: 0 <= i < |rows| ==>
              r[i] == rows[i] ||
              (rows[i].spotId == spotId && rows[i].sessionId == sessionId &&
               r[i] == rows[i].(session := Some(sessionStatus)) &&
               forall j :: 0 <= j < i ==> !(rows[j].spotId == spotId && rows[j].sessionId == sessionId))
    ensures forall i :: 0 <= i < |rows| && rows[i].spotId == spotId && rows[i].sessionId == sessionId ==>
              exists k :: 0 <= k <= i && rows[k].spotId == spotId && rows[k].sessionId == sessionId &&
                          r[k].session == Some(sessionStatus)
  {
    match FirstWhere(rows, (v: Violation) => v.spotId == spotId && v.sessionId == sessionId)
    case None => rows
    case Some(k) => rows[k := rows[k].(session := Some(sessionStatus))]
  }

  /** get_all_violation_associate_with_session: the session's rows without an inactivation id, None when empty. */
  function ActiveOfSession(rows: seq<Violation>, sessionId: Option<int>): (r: seq<Violation>)
    ensures forall v :: v in r <==> v in rows && v.sessionId == sessionId && v.citationInactivationId.None?
  {
    if rows == [] then []
    else (if rows[0].sessionId == sessionId && rows[0].citationInactivationId.None? then [rows[0]] else []) +
         ActiveOfSession(rows[1..], sessionId)
  }

  function AllOfSession(rows: seq<Violation>, sessionId: Option<int>): (r: Option<seq<Violation>>)
    ensures r.None? <==> forall v :: v in rows ==> !(v.sessionId == sessionId && v.citationInactivationId.None?)
    ensures r.Some? ==> r.value != [] && r.value == ActiveOfSession(rows, sessionId)
  {
    var all := ActiveOfSession(rows, sessionId);
    if all == [] then None
    else
      assert all[0] in all;
      Some(all)
  }

  class ViolationTable {
    var rows: seq<Violation>

    ghost predicate Valid()
      reads this
    {
      WellNumbered(rows)
    }

    constructor ()
      ensures rows == [] && Valid()
    {
      rows := [];
    }

    /** create_violation: the row receives the next id. */
    method Create(v: Violation) returns (created: Violation)
      requires Valid()
      modifies this
      ensures Valid()
      ensures created == v.(id := |old(rows)| + 1)
      ensures rows == old(rows) + [created]
    {
      created := v.(id := |rows| + 1);
      rows := rows + [created];
    }

    /** update_violation: +10 on the matched OPEN row; None when nothing matched. */
    method UpdateViolation(plate: Option<string>, spotId: Option<string>, featureKey: string)
      returns (updated: Option<Violation>)
      requires Valid()
      modifies this
      ensures Valid()
      ensures IncrementTarget(old(rows), plate, spotId, featureKey).None? ==> rows == old(rows) && updated.None?
      ensures IncrementTarget(old(rows), plate, spotId, featureKey).Some? ==>
                var k := IncrementTarget(old(rows), plate, spotId, featureKey).value;
                rows == old(rows)[k := old(rows)[k].(amountDue := old(rows)[k].amountDue + VARIABLE_INCREMENT)] &&
                updated == Some(rows[k])
    {
      var target := IncrementTarget(rows, plate, spotId, featureKey);
      if target.None? {
        return None;
      }
      var k := target.value;
      rows := rows[k := rows[k].(amountDue := rows[k].amountDue + VARIABLE_INCREMENT)];
      updated := Some(rows[k]);
    }

    /**
     * The increment update_violation evidently intends: +10 on the row with
     * that id, when it is OPEN; None otherwise.
     */
    method UpdateViolationById(violationId: int) returns (updated: Option<Violation>)
      requires Valid()
      modifies this
      ensures Valid()
      ensures var k := IndexOfId(old(rows), violationId);
              (k.None? || old(rows)[k.value].status != OPEN) ==> rows == old(rows) && updated.None?
      ensures var k := IndexOfId(old(rows), violationId);
              (k.Some? && old(rows)[k.value].status == OPEN) ==>
                rows == old(rows)[k.value := old(rows)[k.value].(amountDue := old(rows)[k.value].amountDue + VARIABLE_INCREMENT)] &&
                updated == Some(rows[k.value])
    {
      var k := IndexOfId(rows, violationId);
      if k.None? || rows[k.value].status != OPEN {
        return None;
      }
      rows := rows[k.value := rows[k.value].(amountDue := rows[k.value].amountDue + VARIABLE_INCREMENT)];
      updated := Some(rows[k.value]);
    }

    /** update_status: only the status of that row changes; a missing id raises. */
    method UpdateStatus(violationId: int, status: string) returns (r: Result<Violation>)
      requires Valid()
      modifies this
      ensures Valid()
      ensures IndexOfId(old(rows), violationId).None? ==> rows == old(rows) && r.Err?
      ensures IndexOfId(old(rows), violationId).Some? ==>
                var k := IndexOfId(old(rows), violationId).value;
                rows == old(rows)[k := old(rows)[k].(status := status)] && r == Ok(rows[k])
    {
      var k := IndexOfId(rows, violationId);
      if k.None? {
        return Err(NO_STATUS);
      }
      rows := rows[k.value := rows[k.value].(status := status)];
      r := Ok(rows[k.value]);
    }

    /** update_session: the session column of the first row with that plate. */
    method UpdateSession(plate: Option<string>, sessionStatus: string) returns (r: Option<Violation>)
      requires Valid()
      modifies this
      ensures Valid()
      ensures FirstWhere(old(rows), (v: Violation) => v.plate == plate).None? ==> rows == old(rows) && r.None?
      ensures FirstWhere(old(rows), (v: Violation) => v.plate == plate).Some? ==>
                var k := FirstWhere(old(rows), (v: Violation) => v.plate == plate).value;
                rows == old(rows)[k := old(rows)[k].(session := Some(sessionStatus))] && r == Some(rows[k])
      ensures rows == SessionMarked(old(rows), plate, sessionStatus)
    {
      var k := FirstWhere(rows, (v: Violation) => v.plate == plate);
      if k.None? {
        return None;
      }
      rows := rows[k.value := rows[k.value].(session := Some(sessionStatus))];
      r := Some(rows[k.value]);
    }

    /** update_session_by_spot_id: the session column of the first row of that spot and session. */
    method UpdateSessionBySpotId(spotId: Option<string>, sessionId: Option<int>, sessionStatus: string)
      returns (r: Option<Violation>)
      requires Valid()
      modifies this
      ensures Valid()
      ensures FirstWhere(old(rows), (v: Violation) => v.spotId == spotId && v.sessionId == sessionId).None? ==>
                rows == old(rows) && r.None?
      ensures FirstWhere(old(rows), (v: Violation) => v.spotId == spotId && v.sessionId == sessionId).Some? ==>
                var k := FirstWhere(old(rows), (v: Violation) => v.spotId == spotId && v.sessionId == sessionId).value;
                rows == old(rows)[k := old(rows)[k].(session := Some(sessionStatus))] && r == Some(rows[k])
      ensures rows == SpotSessionMarked(old(rows), spotId, sessionId, sessionStatus)
    {
      var k := FirstWhere(rows, (v: Violation) => v.spotId == spotId && v.sessionId == sessionId);
      if k.None? {
        return None;
      }
      rows := rows[k.value := rows[k.value].(session := Some(sessionStatus))];
      r := Some(rows[k.value]);
    }
  }
}
