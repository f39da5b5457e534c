/**
 * Closing a session's payment or overstay violation once it is resolved:
 * the alert ids of the pending violation task are sent to the alert
 * service, the task's alert is marked CLOSED, a close line is logged per
 * alert, and per alert the session's first OPEN violation of that type is
 * set to CLOSE.
 */
module ViolationClose {
  import opened Wrappers
  import opened Enums
  import opened TaskModel
  import opened ViolationModel
  import opened SessionModel
  import opened SessionLogModel
  import opened SessionUpdates
  import opened EventService

  /** The number of OPEN violations of the session and type. */
  function CountOpen(rows: seq<Violation>, sessionId: Option<int>, violationType: string): (n: nat)
    ensures n <= |rows|
  {
    if rows == [] then 0
    else (if OpenOfSession(rows[0], sessionId, violationType) then 1 else 0) +
         CountOpen(rows[1..], sessionId, violationType)
  }

  lemma {:induction false} CountOpenZero(rows: seq<Violation>, sessionId: Option<int>, violationType: string)
    ensures CountOpen(rows, sessionId, violationType) == 0 <==> OpenViolationOf(rows, sessionId, violationType).None?
  {
    if rows != [] {
      CountOpenZero(rows[1..], sessionId, violationType);
      if OpenViolationOf(rows[1..], sessionId, violationType).Some? {
        var k := OpenViolationOf(rows[1..], sessionId, violationType).value;
        assert rows[k + 1] == rows[1..][k];
      }
      if OpenViolationOf(rows[1..], sessionId, violationType).None? && !OpenOfSession(rows[0], sessionId, violationType) {
        forall i | 0 <= i < |rows|
          ensures !OpenOfSession(rows[i], sessionId, violationType)
        {
          if i > 0 {
            assert rows[i] == rows[1..][i - 1];
          }
        }
      }
    }
  }

  /** Setting an OPEN violation of the session and type to CLOSE removes one from the count. */
  lemma {:induction false} CountOpenClose(rows: seq<Violation>, sessionId: Option<int>, violationType: string, k: nat)
    requires k < |rows| && OpenOfSession(rows[k], sessionId, violationType)
    ensures CountOpen(rows[k := rows[k].(status := "CLOSE")], sessionId, violationType) ==
            CountOpen(rows, sessionId, violationType) - 1
  {
    var closed := rows[k := rows[k].(status := "CLOSE")];
    if k == 0 {
      assert closed[1..] == rows[1..];
    } else {
      assert closed[1..] == rows[1..][k - 1 := rows[k].(status := "CLOSE")];
      CountOpenClose(rows[1..], sessionId, violationType, k - 1);
    }
  }

  /** One iteration of close_violation's loop on the violation table. */
  function CloseFirstOpen(rows: seq<Violation>, sessionId: Option<int>, violationType: string): (r: seq<Violation>)
    ensures |r| == |rows|
  {
    match OpenViolationOf(rows, sessionId, violationType)
    case None => rows
    case Some(k) => rows[k := rows[k].(status := "CLOSE")]
  }

  /** The violation table after n iterations of close_violation's loop. */
  function CloseOpenViolations(rows: seq<Violation>, sessionId: Option<int>, violationType: string, n: nat)
    : (r: seq<Violation>)
    ensures |r| == |rows|
  {
    if n == 0 then rows
    else CloseFirstOpen(CloseOpenViolations(rows, sessionId, violationType, n - 1), sessionId, violationType)
  }

  /**
   * Closing touches only the status, only of OPEN violations of the session
   * and type, and only to set it to CLOSE.
   */
  lemma {:induction false} CloseOpenViolationsShape(rows: seq<Violation>, sessionId: Option<int>, violationType: string,
                                                    n: nat)
    ensures var r := CloseOpenViolations(rows, sessionId, violationType, n);
            forall i :: 0 <= i < |rows| ==>
              r[i] == rows[i].(status := r[i].status) &&
              (!OpenOfSession(rows[i], sessionId, violationType) ==> r[i] == rows[i]) &&
              (r[i] == rows[i] || r[i].status == "CLOSE")
  {
    if n > 0 {
      CloseOpenViolationsShape(rows, sessionId, violationType, n - 1);
    }
  }

  /**
   * Each alert closes one OPEN violation of the session and type, until
   * none is left: n alerts leave max(0, count - n) of them OPEN.
   */
  lemma {:induction false} CloseOpenViolationsCount(rows: seq<Violation>, sessionId: Option<int>, violationType: string,
                                                    n: nat)
    ensures var c := CountOpen(rows, sessionId, violationType);
            CountOpen(CloseOpenViolations(rows, sessionId, violationType, n), sessionId, violationType) ==
              if c >= n then c - n else 0
  {
    if n > 0 {
      CloseOpenViolationsCount(rows, sessionId, violationType, n - 1);
      var before := CloseOpenViolations(rows, sessionId, violationType, n - 1);
      var after := CloseOpenViolations(rows, sessionId, violationType, n);
      assert after == CloseFirstOpen(before, sessionId, violationType);
      CountOpenZero(before, sessionId, violationType);
      var found := OpenViolationOf(before, sessionId, violationType);
      if found.Some? {
        assert after == before[found.value := before[found.value].(status := "CLOSE")];
        CountOpenClose(before, sessionId, violationType, found.value);
      } else {
        assert after == before;
      }
    }
  }

  /** With at least one alert, a session with a single OPEN violation of the type has none left. */
  lemma SingleViolationClosed(rows: seq<Violation>, sessionId: Option<int>, violationType: string, n: nat)
    requires n >= 1 && CountOpen(rows, sessionId, violationType) == 1
    ensures OpenViolationOf(CloseOpenViolations(rows, sessionId, violationType, n), sessionId, violationType).None?
  {
    CloseOpenViolationsCount(rows, sessionId, violationType, n);
    CountOpenZero(CloseOpenViolations(rows, sessionId, violationType, n), sessionId, violationType);
  }

  /** The violation part of one iteration: get_violation_by_session_id, then update_status to CLOSE. */
  method CloseFirstOpenViolation(violations: ViolationTable, sessionId: Option<int>, violationType: string)
    requires violations.Valid()
    modifies violations
    ensures violations.Valid()
    ensures violations.rows == CloseFirstOpen(old(violations.rows), sessionId, violationType)
  {
    var found := OpenViolationOf(violations.rows, sessionId, violationType);
    if found.Some? {
      IndexOfOwnId(violations.rows, found.value);
      var _ := violations.UpdateStatus(violations.rows[found.value].id, "CLOSE");
    }
  }

  /** The log part of one iteration: a close line on the session, when it has one. */
  method LogAlertClosed(sessions: SessionTable, logs: SessionLogTable, sessionId: Option<int>, actionType: string,
                        ghost logs0: seq<LogEntry>, ghost j: nat)
    requires sessions.Valid() && logs.Valid()
    requires actionType == LOG_PAYMENT_ALERT_CLOSED || actionType == LOG_OVERSTAY_ALERT_CLOSED
    requires logs.rows == logs0 + AlertLines(|logs0|, sessionId, Repeat(actionType, j))
    modifies sessions, logs
    ensures sessions.Valid() && logs.Valid()
    ensures sessions.rows == old(sessions.rows)
    ensures logs.rows == logs0 + AlertLines(|logs0|, sessionId, Repeat(actionType, j + 1))
  {
    if sessionId.Some? {
      OtherActionsAppend(logs.rows, NewEntry(sessionId.value, actionType, actionType, None, None, None));
      AlertLinesExtend(|logs0|, sessionId, Repeat(actionType, j), actionType);
      assert Repeat(actionType, j + 1) == Repeat(actionType, j) + [actionType];
    }
    var _ := CreateSessionLogs(sessions, logs, sessionId, actionType, actionType, None, None, None, None, None);
  }

  /** The task, session, log and violation rows after j alerts of the task at index k have been closed. */
  function AfterAlerts(t0: seq<Task>, s0: seq<Session>, logs0: seq<LogEntry>, v0: seq<Violation>,
                       k: nat, sessionId: Option<int>, violationType: string, actionType: string, j: nat)
    : (seq<Task>, seq<Session>, seq<LogEntry>, seq<Violation>)
    requires k < |t0|
  {
    (if j == 0 then t0 else t0[k := t0[k].(alertStatus := Some(CLOSED))],
     s0,
     logs0 + AlertLines(|logs0|, sessionId, Repeat(actionType, j)),
     CloseOpenViolations(v0, sessionId, violationType, j))
  }

  /** One iteration of close_violation's loop: alert status, log line, violation status. */
  method CloseAlertIteration(tasks: TaskTable, sessions: SessionTable, logs: SessionLogTable, violations: ViolationTable,
                             k: nat, sessionId: Option<int>, violationType: string, actionType: string,
                             ghost t0: seq<Task>, ghost s0: seq<Session>, ghost logs0: seq<LogEntry>,
                             ghost v0: seq<Violation>, ghost j: nat)
    requires actionType == LOG_PAYMENT_ALERT_CLOSED || actionType == LOG_OVERSTAY_ALERT_CLOSED
    requires tasks.Valid() && sessions.Valid() && logs.Valid() && violations.Valid() && k < |t0|
    requires (tasks.rows, sessions.rows, logs.rows, violations.rows) ==
             AfterAlerts(t0, s0, logs0, v0, k, sessionId, violationType, actionType, j)
    modifies tasks, sessions, logs, violations
    ensures tasks.Valid() && sessions.Valid() && logs.Valid() && violations.Valid()
    ensures (tasks.rows, sessions.rows, logs.rows, violations.rows) ==
            AfterAlerts(t0, s0, logs0, v0, k, sessionId, violationType, actionType, j + 1)
  {
    ghost var after := AfterAlerts(t0, s0, logs0, v0, k, sessionId, violationType, actionType, j + 1);
    tasks.UpdateAlertStatus(k, Some(CLOSED));
    assert tasks.rows == after.0;
    LogAlertClosed(sessions, logs, sessionId, actionType, logs0, j);
    CloseFirstOpenViolation(violations, sessionId, violationType);
  }

  /**
   * close_violation: for every alert id of the pending violation task at
   * index k, the alert is sent, the task's alert status becomes CLOSED, a
   * close line is logged on the session and the session's first OPEN
   * violation of the type is set to CLOSE.
   */
  method CloseViolation(tasks: TaskTable, sessions: SessionTable, logs: SessionLogTable, violations: ViolationTable,
                        k: nat, t: Task, violationType: string, actionType: string)
    returns (sent: seq<int>)
    requires tasks.Valid() && sessions.Valid() && logs.Valid() && violations.Valid() && k < |tasks.rows|
    requires actionType == LOG_PAYMENT_ALERT_CLOSED || actionType == LOG_OVERSTAY_ALERT_CLOSED
    modifies tasks, sessions, logs, violations
    ensures tasks.Valid() && sessions.Valid() && logs.Valid() && violations.Valid()
    ensures sent == AlertIdsOf(old(tasks.rows)[k])
    ensures sent == [] ==> tasks.rows == old(tasks.rows)
    ensures sent != [] ==> tasks.rows == old(tasks.rows)[k := old(tasks.rows)[k].(alertStatus := Some(CLOSED))]
    ensures sessions.rows == old(sessions.rows)
    ensures logs.rows == old(logs.rows) + AlertLines(|old(logs.rows)|, t.sessionId, Repeat(actionType, |sent|))
    ensures violations.rows == CloseOpenViolations(old(violations.rows), t.sessionId, violationType, |sent|)
  {
    var ids := AlertIdsOf(tasks.rows[k]);
    CloseAlerts(tasks, sessions, logs, violations, k, t.sessionId, violationType, actionType, |ids|);
    sent := ids;
  }

  /** The loop of close_violation over n alert ids. */
  method CloseAlerts(tasks: TaskTable, sessions: SessionTable, logs: SessionLogTable, violations: ViolationTable,
                     k: nat, sessionId: Option<int>, violationType: string, actionType: string, n: nat)
    requires actionType == LOG_PAYMENT_ALERT_CLOSED || actionType == LOG_OVERSTAY_ALERT_CLOSED
    requires tasks.Valid() && sessions.Valid() && logs.Valid() && violations.Valid() && k < |tasks.rows|
    modifies tasks, sessions, logs, violations
    ensures tasks.Valid() && sessions.Valid() && logs.Valid() && violations.Valid()
    ensures (tasks.rows, sessions.rows, logs.rows, violations.rows) ==
            AfterAlerts(old(tasks.rows), old(sessions.rows), old(logs.rows), old(violations.rows), k, sessionId,
                        violationType, actionType, n)
  {
    ghost var t0, s0, logs0, v0 := tasks.rows, sessions.rows, logs.rows, violations.rows;
    assert logs0 + AlertLines(|logs0|, sessionId, Repeat(actionType, 0)) == logs0;
    var j := 0;
    while j < n
      invariant 0 <= j <= n
      invariant tasks.Valid() && sessions.Valid() && logs.Valid() && violations.Valid()
      invariant (tasks.rows, sessions.rows, logs.rows, violations.rows) ==
                AfterAlerts(t0, s0, logs0, v0, k, sessionId, violationType, actionType, j)
    {
      CloseAlertIteration(tasks, sessions, logs, violations, k, sessionId, violationType, actionType,
                          t0, s0, logs0, v0, j);
      j := j + 1;
    }
  }

  /**
   * The task rows after a pending violation task's alerts are closed: the
   * session's first pending task of the type, when it has alert ids, has
   * its alert status set to CLOSED; otherwise nothing changes.
   */
  function PendingAlertClosed(rows: seq<Task>, providerType: int, violationType: string, sessionId: Option<int>)
    : (r: seq<Task>)
    ensures |r| == |rows|
    ensures forall i :: 0 <= i < |rows| ==> r[i] == rows[i].(alertStatus := r[i].alertStatus)
  {
    match PendingViolation(rows, providerType, violationType, sessionId)
    case None => rows
    case Some(k) => if AlertIdsOf(rows[k]) == [] then rows else rows[k := rows[k].(alertStatus := Some(CLOSED))]
  }

  /**
   * close_payment_violation / close_overstay_violation: the session's
   * first pending violation task of the type (alert not CLOSED) has its
   * alerts closed; without such a task, or without alert ids, nothing
   * happens. A missing violation provider type raises.
   */
  method ClosePendingViolation(tasks: TaskTable, sessions: SessionTable, logs: SessionLogTable,
                               violations: ViolationTable, types: seq<ProviderType>, t: Task,
                               violationType: string, actionType: string)
    returns (r: Result<seq<int>>)
    requires tasks.Valid() && sessions.Valid() && logs.Valid() && violations.Valid()
    requires actionType == LOG_PAYMENT_ALERT_CLOSED || actionType == LOG_OVERSTAY_ALERT_CLOSED
    modifies tasks, sessions, logs, violations
    ensures tasks.Valid() && sessions.Valid() && logs.Valid() && violations.Valid()
    ensures sessions.rows == old(sessions.rows)
    ensures ViolationProviderType(types).None? ==>
              r.Err? && tasks.rows == old(tasks.rows) && logs.rows == old(logs.rows) &&
              violations.rows == old(violations.rows)
    ensures ViolationProviderType(types).Some? ==> (
              var pending := PendingViolation(old(tasks.rows), ViolationProviderType(types).value, violationType,
                                              t.sessionId);
              r.Ok? &&
              (pending.None? ==> r.value == [] && tasks.rows == old(tasks.rows) && logs.rows == old(logs.rows) &&
                                 violations.rows == old(violations.rows)) &&
              (pending.Some? ==> (
                 var k := pending.value;
                 r.value == AlertIdsOf(old(tasks.rows)[k]) &&
                 (r.value != [] ==> tasks.rows == old(tasks.rows)[k := old(tasks.rows)[k].(alertStatus := Some(CLOSED))]) &&
                 (r.value == [] ==> tasks.rows == old(tasks.rows)) &&
                 logs.rows == old(logs.rows) + AlertLines(|old(logs.rows)|, t.sessionId, Repeat(actionType, |r.value|)) &&
                 violations.rows == CloseOpenViolations(old(violations.rows), t.sessionId, violationType, |r.value|))))
  {
    var vt := ViolationProviderType(types);
    if vt.None? {
      return Err(NO_ID);
    }
    var pending := PendingViolation(tasks.rows, vt.value, violationType, t.sessionId);
    if pending.None? {
      return Ok([]);
    }
    var sent := CloseViolation(tasks, sessions, logs, violations, pending.value, t, violationType, actionType);
    r := Ok(sent);
  }

  /** close_payment_violation. */
  method ClosePaymentViolation(tasks: TaskTable, sessions: SessionTable, logs: SessionLogTable,
                               violations: ViolationTable, types: seq<ProviderType>, t: Task)
    returns (r: Result<seq<int>>)
    requires tasks.Valid() && sessions.Valid() && logs.Valid() && violations.Valid()
    modifies tasks, sessions, logs, violations
    ensures tasks.Valid() && sessions.Valid() && logs.Valid() && violations.Valid()
    ensures sessions.rows == old(sessions.rows)
    ensures ViolationProviderType(types).None? ==> r.Err? && violations.rows == old(violations.rows)
    ensures ViolationProviderType(types).Some? ==> (
              var pending := PendingViolation(old(tasks.rows), ViolationProviderType(types).value, PAYMENT_VIOLATION,
                                              t.sessionId);
              r.Ok? &&
              (pending.None? ==> r.value == [] && violations.rows == old(violations.rows)) &&
              (pending.Some? ==>
                 r.value == AlertIdsOf(old(tasks.rows)[pending.value]) &&
                 violations.rows == CloseOpenViolations(old(violations.rows), t.sessionId, PAYMENT_VIOLATION,
                                                        |r.value|)))
    ensures ViolationProviderType(types).None? ==> tasks.rows == old(tasks.rows) && logs.rows == old(logs.rows)
    ensures r.Ok? ==> logs.rows == old(logs.rows) + AlertLines(|old(logs.rows)|, t.sessionId,
                                                               Repeat(LOG_PAYMENT_ALERT_CLOSED, |r.value|))
    ensures r.Ok? ==> tasks.rows == PendingAlertClosed(old(tasks.rows), ViolationProviderType(types).value,
                                                       PAYMENT_VIOLATION, t.sessionId)
  {
    r := ClosePendingViolation(tasks, sessions, logs, violations, types, t, PAYMENT_VIOLATION,
                               LOG_PAYMENT_ALERT_CLOSED);
  }

  /** close_overstay_violation; the inactivation task it may also start is not part of this model. */
  method CloseOverstayViolation(tasks: TaskTable, sessions: SessionTable, logs: SessionLogTable,
                                violations: ViolationTable, types: seq<ProviderType>, t: Task)
    returns (r: Result<seq<int>>)
    requires tasks.Valid() && sessions.Valid() && logs.Valid() && violations.Valid()
    modifies tasks, sessions, logs, violations
    ensures tasks.Valid() && sessions.Valid() && logs.Valid() && violations.Valid()
    ensures sessions.rows == old(sessions.rows)
    ensures ViolationProviderType(types).None? ==> r.Err? && violations.rows == old(violations.rows)
    ensures ViolationProviderType(types).Some? ==> (
              var pending := PendingViolation(old(tasks.rows), ViolationProviderType(types).value, OVERSTAY_VIOLATION,
                                              t.sessionId);
              r.Ok? &&
              (pending.None? ==> r.value == [] && violations.rows == old(violations.rows)) &&
              (pending.Some? ==>
                 r.value == AlertIdsOf(old(tasks.rows)[pending.value]) &&
                 violations.rows == CloseOpenViolations(old(violations.rows), t.sessionId, OVERSTAY_VIOLATION,
                                                        |r.value|)))
    ensures ViolationProviderType(types).None? ==> tasks.rows == old(tasks.rows) && logs.rows == old(logs.rows)
    ensures r.Ok? ==> logs.rows == old(logs.rows) + AlertLines(|old(logs.rows)|, t.sessionId,
                                                               Repeat(LOG_OVERSTAY_ALERT_CLOSED, |r.value|))
    ensures r.Ok? ==> tasks.rows == PendingAlertClosed(old(tasks.rows), ViolationProviderType(types).value,
                                                       OVERSTAY_VIOLATION, t.sessionId)
  {
    r := ClosePendingViolation(tasks, sessions, logs, violations, types, t, OVERSTAY_VIOLATION,
                               LOG_OVERSTAY_ALERT_CLOSED);
  }
}
