/**
 * What happens when no payment was found for a task: the payment window
 * decides between a payment violation, a grace ("Non Billable") period and
 * an overstay violation; the violation is raised or grown, the session is
 * updated and logged, and a follow-up check may be scheduled.
 */
module ViolationRule {
  import opened Wrappers
  import opened Enums
  import opened Common
  import opened ParkingWindow
  import opened TaskModel
  import opened ViolationModel
  import opened SessionModel
  import opened SessionLogModel
  import opened SessionUpdates
  import opened PaymentService

  /** The choices manage_free_window_and_not_paid_task makes before it writes anything. */
  datatype Decision = Decision(
    actionType: string,
    violationType: string,
    violationFlag: bool,
    hasNphTask: bool,
    nextAt: int)

  /** A Python string that is neither None nor empty. */
  predicate Truthy(s: Option<string>) { s.Some? && s.value != "" }

  /**
   * The branch on the payment window. Inside a paid window: a payment
   * violation, logged as "Not Paid" unless the window names its own action.
   * Outside it, the first time (no nph task yet): the grace branch, logged as
   * "Non Billable" with the remaining time, and no violation. Outside it
   * again: an overstay violation, checked again at the window's end. Outside
   * a window with no session the attribute access raises; the caller
   * swallows it, so nothing is decided (None).
   */
  function DecideFreeWindow(window: PaymentWindow, session: Option<Session>, remaining: string): (d: Option<Decision>)
    ensures d.None? <==> !window.status && session.None?
    ensures d.Some? && window.status ==>
              d.value.violationType == PAYMENT_VIOLATION && d.value.nextAt == window.nextAt &&
              d.value.actionType == (if Truthy(window.actionType) then window.actionType.value else LOG_NOT_PAID)
    ensures d.Some? && !window.status ==> d.value.violationType == OVERSTAY_VIOLATION
  {
    if window.status then
      var action := if Truthy(window.actionType) then window.actionType.value else LOG_NOT_PAID;
      Some(Decision(action, PAYMENT_VIOLATION, true, false, window.nextAt))
    else if session.None? then None
    else if !session.value.hasNphTask then
      Some(Decision(LOG_NON_BILLABLE + ":" + remaining, OVERSTAY_VIOLATION, false, true, window.nextAt))
    else Some(Decision(LOG_OVERSTAY, OVERSTAY_VIOLATION, true, false, window.endTime))
  }

  /**
   * The grace branch is taken exactly when the window is closed and the
   * session has no nph task yet; it is the only branch without a
   * violation flag, and the only one that writes has_nph_task as true.
   */
  lemma GraceBranch(window: PaymentWindow, session: Session, remaining: string)
    ensures var d := DecideFreeWindow(window, Some(session), remaining).value;
            (d.hasNphTask <==> !window.status && !session.hasNphTask) &&
            d.violationFlag == !d.hasNphTask &&
            (d.hasNphTask ==> d.actionType == LOG_NON_BILLABLE + ":" + remaining && d.nextAt == window.nextAt) &&
            (!window.status && session.hasNphTask ==> d.actionType == LOG_OVERSTAY && d.nextAt == window.endTime)
  {
  }

  /** The attributes the decision writes onto the session. */
  function DecisionAttrs(d: Decision): (r: seq<Attr>)
    ensures forall a :: a in r ==> a.SetWaitingForPayment? || a.SetHasNphTask?
    ensures SetWaitingForPayment(Some(false)) in r && SetHasNphTask(d.hasNphTask) in r
  {
    [SetWaitingForPayment(Some(false)), SetHasNphTask(d.hasNphTask)]
  }

  /** The session stops waiting for payment and records whether the grace period has been granted; nothing else changes. */
  lemma DecisionAttrsEffect(s: Session, d: Decision)
    ensures ApplyAttrs(s, DecisionAttrs(d)) == s.(isWaitingForPayment := Some(false), hasNphTask := d.hasNphTask)
  {
    var attrs := DecisionAttrs(d);
    assert attrs[1..][1..] == [];
  }

  /**
   * Outside the paid window the grace period is granted once: the session
   * written by the grace branch makes the next decision an overstay
   * violation, due at the window's end.
   */
  lemma GraceThenOverstay(window: PaymentWindow, session: Session, remaining: string, remaining': string)
    requires !window.status && !session.hasNphTask
    ensures var first := DecideFreeWindow(window, Some(session), remaining).value;
            var updated := ApplyAttrs(session, DecisionAttrs(first));
            var second := DecideFreeWindow(window, Some(updated), remaining').value;
            !first.violationFlag && second.violationFlag && second.violationType == OVERSTAY_VIOLATION &&
            second.actionType == LOG_OVERSTAY && second.nextAt == window.endTime
  {
    DecisionAttrsEffect(session, DecideFreeWindow(window, Some(session), remaining).value);
  }

  /**
   * Whether a follow-up check is scheduled, and for when. A flagged
   * violation on an always-free LPR lot stops here; a flagged violation
   * with no lot raises on the attribute access and stops too. Otherwise a
   * follow-up needs a session and a lot, a closed window or a retry
   * counter below the lot's limit, and an event other than car.exit.
   */
  function FollowUp(d: Decision, window: PaymentWindow, lot: Option<Lot>, session: Option<Session>, eventType: string)
    : (r: Option<int>)
    ensures r.Some? ==> r.value == d.nextAt
    ensures r.Some? <==>
              !(d.violationFlag && (lot.None? || lot.value.operation == LprBased24HoursFree)) &&
              session.Some? && lot.Some? &&
              (!window.status || session.value.notPaidCounter < lot.value.retryMechanism) &&
              eventType != CAR_EXIT
  {
    if d.violationFlag && (lot.None? || lot.value.operation == LprBased24HoursFree) then None
    else if session.Some? && lot.Some? then
      if (!window.status || session.value.notPaidCounter < lot.value.retryMechanism) && eventType != CAR_EXIT then
        Some(d.nextAt)
      else None
    else None
  }

  /** Inside the paid window the retries stop once the counter reaches the lot's retry limit. */
  lemma RetriesBounded(d: Decision, window: PaymentWindow, lot: Lot, session: Session, eventType: string)
    requires window.status && session.notPaidCounter >= lot.retryMechanism
    ensures FollowUp(d, window, Some(lot), Some(session), eventType).None?
  {
  }

  /** The session table after update_counter(not paid) on an existing session. */
  function CountedSessions(rows: seq<Session>, sessionId: int): (r: seq<Session>)
    requires 1 <= sessionId <= |rows|
    ensures |r| == |rows| && r[sessionId - 1].notPaidCounter == rows[sessionId - 1].notPaidCounter + 1
  {
    rows[sessionId - 1 := rows[sessionId - 1].(notPaidCounter := rows[sessionId - 1].notPaidCounter + 1)]
  }

  /**
   * The update_counter(not paid) that follows build_task_from_event once a
   * follow-up is due. build_task_from_event itself, which replays the
   * session's entry event through execute_event at the follow-up time, is
   * not part of this model.
   */
  method ScheduleFollowUp(sessions: SessionTable, t: Task)
    requires sessions.Valid() && SessionRow(sessions.rows, t.sessionId).Some?
    modifies sessions
    ensures sessions.Valid()
    ensures sessions.rows == CountedSessions(old(sessions.rows), t.sessionId.value)
  {
    var counted := UpdateCounter(sessions, t.sessionId.value, ACTION_NOT_PAID);
    assert sessions.rows == CountedSessions(old(sessions.rows), t.sessionId.value);
  }

  /**
   * manage_free_window_and_not_paid_task. Every exception inside it is
   * swallowed: the writes made before it stay and the rest is skipped.
   * Returns the time of the follow-up check that is scheduled, if any;
   * the follow-up task that build_task_from_event creates at that time is
   * not built here. The session is the task's row of the session table, as
   * get_session_by_id finds it. The lot's violation pricing, the violation
   * amount, the violation task of a FIXED violation and the remaining-time
   * text are parameters.
   */
  method ManageFreeWindowAndNotPaidTask(sessions: SessionTable, logs: SessionLogTable, violations: ViolationTable,
                                        t: Task, lot: Option<Lot>, session: Option<Session>, window: PaymentWindow,
                                        remaining: string, pricing: Option<string>, metaAmount: Option<int>,
                                        violationTask: Option<Task>)
    returns (scheduled: Option<int>)
    requires sessions.Valid() && logs.Valid() && violations.Valid()
    requires session == SessionRow(sessions.rows, t.sessionId)
    modifies sessions, logs, violations
    ensures sessions.Valid() && logs.Valid() && violations.Valid()
    ensures DecideFreeWindow(window, session, remaining).None? ==>
              scheduled.None? && sessions.rows == old(sessions.rows) && logs.rows == old(logs.rows) &&
              violations.rows == old(violations.rows)
    ensures DecideFreeWindow(window, session, remaining).Some? ==> (
              var d := DecideFreeWindow(window, session, remaining).value;
              var raised := NotPaidRows(old(violations.rows), t, pricing, d.violationType, d.violationFlag, metaAmount,
                                        violationTask);
              (raised.Err? ==>
                 scheduled.None? && sessions.rows == old(sessions.rows) && logs.rows == old(logs.rows) &&
                 violations.rows == old(violations.rows)) &&
              (raised.Ok? ==> (
                 var logged := UpdatedSessions(old(sessions.rows), t.sessionId, DecisionAttrs(d));
                 violations.rows == raised.value &&
                 logs.rows == LoggedRows(old(logs.rows), t.sessionId, d.actionType, d.actionType, None) &&
                 scheduled == (if SessionRow(logged, t.sessionId).Some? then FollowUp(d, window, lot, session, t.eventType)
                               else None) &&
                 (scheduled.None? ==> sessions.rows == logged) &&
                 (scheduled.Some? ==> sessions.rows == CountedSessions(logged, t.sessionId.value)))))
  {
    var decision := DecideFreeWindow(window, session, remaining);
    if decision.None? {
      return None;
    }
    var d := decision.value;
    var raised := NotPaid(violations, t, pricing, d.violationType, d.violationFlag, metaAmount, violationTask);
    if raised.Err? {
      return None;
    }
    scheduled := LogAndSchedule(sessions, logs, t, d, lot, session, window);
  }

  /**
   * The end of manage_free_window_and_not_paid_task once the violation is
   * raised: the decision is logged and written on the session, and when a
   * follow-up is due and the session exists, its not-paid counter goes up.
   */
  method LogAndSchedule(sessions: SessionTable, logs: SessionLogTable, t: Task, d: Decision,
                        lot: Option<Lot>, session: Option<Session>, window: PaymentWindow)
    returns (scheduled: Option<int>)
    requires sessions.Valid() && logs.Valid()
    modifies sessions, logs
    ensures sessions.Valid() && logs.Valid()
    ensures logs.rows == LoggedRows(old(logs.rows), t.sessionId, d.actionType, d.actionType, None)
    ensures var logged := UpdatedSessions(old(sessions.rows), t.sessionId, DecisionAttrs(d));
            scheduled == (if SessionRow(logged, t.sessionId).Some? then FollowUp(d, window, lot, session, t.eventType)
                          else None) &&
            (scheduled.None? ==> sessions.rows == logged) &&
            (scheduled.Some? ==> sessions.rows == CountedSessions(logged, t.sessionId.value))
  {
    var _ := CreateSessionLogs(sessions, logs, t.sessionId, d.actionType, d.actionType, None, None,
                               Some(UPDATE_ACTION), Some(DecisionAttrs(d)), None);
    scheduled := FollowUp(d, window, lot, session, t.eventType);
    if scheduled.Some? {
      if SessionRow(sessions.rows, t.sessionId).None? {
        return None;
      }
      ScheduleFollowUp(sessions, t);
    }
  }
}
