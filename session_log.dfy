/**
 * The session log: the timeline shown for a parking session. Appends are
 * guarded so that a repeated status line, or a second "Not Paid" after the
 * first, does not clutter the timeline.
 */
module SessionLogModel {
  import opened Wrappers
  import opened Text
  import opened Json
  import opened Enums

  datatype LogEntry = LogEntry(
    id: nat,
    sessionId: int,
    actionType: string,
    description: string,
    provider: Option<int>,
    metaInfo: Option<Json>,
    eventAt: Option<int>)

  /** What a caller asks to append; the id is assigned on insert. */
  datatype NewEntry = NewEntry(
    sessionId: int,
    actionType: string,
    description: string,
    provider: Option<int>,
    metaInfo: Option<Json>,
    eventAt: Option<int>)

  function Stored(e: NewEntry, id: nat): LogEntry
  {
    LogEntry(id, e.sessionId, e.actionType, e.description, e.provider, e.metaInfo, e.eventAt)
  }

  predicate WellNumbered(rows: seq<LogEntry>)
  {
    forall i :: 0 <= i < |rows| ==> rows[i].id == i + 1
  }

  /** The latest entry of the session (rows are in creation order). */
  function LastOf(rows: seq<LogEntry>, sessionId: int): (r: Option<nat>)
    ensures r.Some? ==> r.value < |rows| && rows[r.value].sessionId == sessionId &&
                        forall i :: r.value < i < |rows| ==> rows[i].sessionId != sessionId
    ensures r.None? ==> forall i :: 0 <= i < |rows| ==> rows[i].sessionId != sessionId
  {
    if rows == [] then None
    else if rows[|rows| - 1].sessionId == sessionId then Some(|rows| - 1)
    else LastOf(rows[..|rows| - 1], sessionId)
  }

  /** Some entry of the session already carries exactly this action. */
  predicate HasAction(rows: seq<LogEntry>, sessionId: int, actionType: string)
  {
    exists i :: 0 <= i < |rows| && rows[i].sessionId == sessionId && rows[i].actionType == actionType
  }

  /** A latest entry after which a new "Not Paid" is worth recording again. */
  predicate EndsNotPaidRun(actionType: string)
  {
    LOG_PAID <= actionType || actionType == LOG_PAYMENT_ALERT_CLOSED || actionType == LOG_OVERSTAY_ALERT_CLOSED
  }

  /**
   * insert_session_event's guard: `Some(k)` when the insert is suppressed
   * and row k (the session's latest entry) is returned instead, `None` when
   * the entry is appended.
   */
  function Suppressed(rows: seq<LogEntry>, e: NewEntry): (r: Option<nat>)
    ensures r.Some? ==> r == LastOf(rows, e.sessionId)
    ensures r.Some? <==>
              (LastOf(rows, e.sessionId).Some? &&
               SkipsRepeat(e.actionType) && rows[LastOf(rows, e.sessionId).value].actionType == e.actionType) ||
              (e.actionType == LOG_NOT_PAID && HasAction(rows, e.sessionId, LOG_NOT_PAID) &&
               !EndsNotPaidRun(rows[LastOf(rows, e.sessionId).value].actionType))
  {
    var last := LastOf(rows, e.sessionId);
    if last.Some? && SkipsRepeat(e.actionType) && e.actionType == rows[last.value].actionType then last
    else if e.actionType == LOG_NOT_PAID && HasAction(rows, e.sessionId, e.actionType) then
      if EndsNotPaidRun(rows[last.value].actionType) then None else last
    else None
  }

  /** Repeating a skip-set action right after itself appends nothing. */
  lemma RepeatIsSuppressed(rows: seq<LogEntry>, e: NewEntry)
    requires SkipsRepeat(e.actionType)
    ensures Suppressed(rows + [Stored(e, |rows| + 1)], e) == Some(|rows|)
  {
    var rows' := rows + [Stored(e, |rows| + 1)];
    assert LastOf(rows', e.sessionId) == Some(|rows|);
  }

  /** Once a session has a "Not Paid", another one is suppressed until a payment or an alert close. */
  lemma NotPaidAtMostOncePerRun(rows: seq<LogEntry>, e: NewEntry, k: nat)
    requires e.actionType == LOG_NOT_PAID
    requires k < |rows| && rows[k].sessionId == e.sessionId && rows[k].actionType == LOG_NOT_PAID
    requires LastOf(rows, e.sessionId).Some?
    ensures Suppressed(rows, e).None? <==> EndsNotPaidRun(rows[LastOf(rows, e.sessionId).value].actionType)
  {
    assert HasAction(rows, e.sessionId, LOG_NOT_PAID);
    assert !EndsNotPaidRun(LOG_NOT_PAID) by {
      assert LOG_NOT_PAID[0] != LOG_PAID[0];
    }
  }

  /** An action outside the skip set other than "Not Paid" is always appended. */
  lemma OtherActionsAppend(rows: seq<LogEntry>, e: NewEntry)
    requires !SkipsRepeat(e.actionType)
    ensures Suppressed(rows, e).None?
  {
  }

  /** The first "Not Paid" of a session is always recorded. */
  lemma FirstNotPaidAppends(rows: seq<LogEntry>, e: NewEntry)
    requires e.actionType == LOG_NOT_PAID
    requires !HasAction(rows, e.sessionId, LOG_NOT_PAID)
    ensures Suppressed(rows, e).None?
  {
  }

  /** The number of the session's entries whose action matches `ilike '%pattern%'`. */
  function CountLike(rows: seq<LogEntry>, sessionId: int, pattern: string): (n: nat)
    ensures n <= |rows|
  {
    if rows == [] then 0
    else (if rows[0].sessionId == sessionId && ILike(rows[0].actionType, pattern) then 1 else 0) +
         CountLike(rows[1..], sessionId, pattern)
  }

  /** check_if_entry_or_exit_associate_with_session: a positive count. */
  predicate EntryOrExitLogged(rows: seq<LogEntry>, sessionId: int, pattern: string)
  {
    CountLike(rows, sessionId, pattern) > 0
  }

  lemma {:induction false} EntryOrExitLoggedMeans(rows: seq<LogEntry>, sessionId: int, pattern: string)
    ensures EntryOrExitLogged(rows, sessionId, pattern) <==>
              exists i :: 0 <= i < |rows| && rows[i].sessionId == sessionId && ILike(rows[i].actionType, pattern)
  {
    if rows != [] {
      EntryOrExitLoggedMeans(rows[1..], sessionId, pattern);
      if exists i :: 0 <= i < |rows| && rows[i].sessionId == sessionId && ILike(rows[i].actionType, pattern) {
        var i :| 0 <= i < |rows| && rows[i].sessionId == sessionId && ILike(rows[i].actionType, pattern);
        if i > 0 {
          assert rows[1..][i - 1] == rows[i];
        }
      }
      if EntryOrExitLogged(rows, sessionId, pattern) && !(rows[0].sessionId == sessionId && ILike(rows[0].actionType, pattern)) {
        var j :| 0 <= j < |rows[1..]| && rows[1..][j].sessionId == sessionId && ILike(rows[1..][j].actionType, pattern);
        assert rows[j + 1] == rows[1..][j];
      }
    }
  }

  predicate MatchesAny(actionType: string, patterns: seq<string>)
  {
    exists p :: p in patterns && ILike(actionType, p)
  }

  /** check_last_session_by_action_type: the latest entry of the session matching any pattern. */
  function LastMatching(rows: seq<LogEntry>, sessionId: int, patterns: seq<string>): (r: Option<nat>)
    ensures r.Some? ==> r.value < |rows| && rows[r.value].sessionId == sessionId &&
                        MatchesAny(rows[r.value].actionType, patterns)
    ensures r.Some? ==> forall i :: r.value < i < |rows| ==>
                          !(rows[i].sessionId == sessionId && MatchesAny(rows[i].actionType, patterns))
    ensures r.None? ==> forall i :: 0 <= i < |rows| ==>
                          !(rows[i].sessionId == sessionId && MatchesAny(rows[i].actionType, patterns))
  {
    if rows == [] then None
    else if rows[|rows| - 1].sessionId == sessionId && MatchesAny(rows[|rows| - 1].actionType, patterns)
    then Some(|rows| - 1)
    else LastMatching(rows[..|rows| - 1], sessionId, patterns)
  }

  class SessionLogTable {
    var rows: seq<LogEntry>

    ghost predicate Valid()
      reads this
    {
      WellNumbered(rows)
    }

    constructor ()
      ensures rows == [] && Valid()
    {
      rows := [];
    }

    /** insert_session_event: either the latest entry comes back untouched, or exactly one row is appended. */
    method InsertSessionEvent(e: NewEntry) returns (r: LogEntry)
      requires Valid()
      modifies this
      ensures Valid()
      ensures Suppressed(old(rows), e).Some? ==>
                rows == old(rows) && r == rows[Suppressed(old(rows), e).value]
      ensures Suppressed(old(rows), e).None? ==>
                rows == old(rows) + [Stored(e, |old(rows)| + 1)] && r == Stored(e, |old(rows)| + 1)
    {
      var skip := Suppressed(rows, e);
      if skip.Some? {
        r := rows[skip.value];
      } else {
        r := Stored(e, |rows| + 1);
        rows := rows + [r];
      }
    }
  }
}
