/**
 * create_session_audit: every incoming camera or spot-sensor event first
 * opens, closes or re-maps a session, and is then handed to execute_event
 * with the session it belongs to.
 */
module SessionManager {
  import opened Wrappers
  import opened Text
  import opened Enums
  import opened Rows
  import opened Common
  import opened TaskModel
  import opened SubTaskModel
  import opened ViolationModel
  import opened SessionModel
  import opened SessionLogModel
  import opened SessionUpdates
  import opened EventService
  import opened SpotLog
  import opened ParkingWindow

  /** What create_session_audit returns: execute_event's response, a message, or nothing. */
  datatype Outcome =
    | Executed(response: Option<Response>)
    | Reply(message: string)
    | NoReply

  /** The branch an event takes; the LPR-to-spot branches carry the index of the session they map. */
  datatype Branch =
    | CarEntry
    | CarExit
    | SpotOccupied
    | SpotAvailable
    | ParkingViolation
    | LprToSpot(k: nat)
    | LprToSpotFree(k: nat)
    | UnknownEvent
    | InvalidKey

  /**
   * `str(parking_spot_id)`, the text create_session_audit looks a spot up
   * by: the spot id itself, or "None" for an event without a spot, which no
   * session stores.
   */
  function SpotText(spotId: Option<string>): (r: Option<string>)
    ensures spotId.Some? ==> r == spotId
    ensures spotId.None? ==> r == Some("None")
  {
    Some(SpotNameText(spotId))
  }

  /**
   * An LPR-to-spot-free event without a spot finds no session among
   * sessions opened without a spot, so it is answered "Invalid event key".
   */
  lemma SpotlessFreeIsInvalid(e: Event, rows: seq<Session>)
    requires e.eventKey == EVENT_LPR_TO_SPOT_FREE && e.spotId.None? && e.isUnknown != Some(true)
    requires forall i :: 0 <= i < |rows| ==> rows[i].spotId.None?
    ensures BranchOf(e, rows) == InvalidKey
  {
    InvalidKeyMeans(e, rows);
  }

  /**
   * The order of the checks in create_session_audit. An LPR-to-spot event
   * whose session is not found falls through to the later checks.
   */
  function BranchOf(e: Event, rows: seq<Session>): (b: Branch)
    ensures b.LprToSpot? ==> e.eventKey == EVENT_LPR_TO_SPOT && b.k < |rows|
    ensures b.LprToSpotFree? ==> e.eventKey == EVENT_LPR_TO_SPOT_FREE && b.k < |rows|
  {
    if e.eventKey == CAR_ENTRY then CarEntry
    else if e.eventKey == CAR_EXIT then CarExit
    else if e.eventKey == EVENT_PARKING_SPOT_UPDATES && e.isUnknown == Some(false) &&
            e.spotStatus == Some(SPOT_STATUS_UNAVAILABLE) then SpotOccupied
    else if e.eventKey == EVENT_PARKING_SPOT_UPDATES && e.isUnknown == Some(false) &&
            e.spotStatus == Some(SPOT_STATUS_AVAILABLE) then SpotAvailable
    else if e.eventKey == PARKING_VIOLATION then ParkingViolation
    else if e.eventKey == EVENT_LPR_TO_SPOT && SessionByRecord(rows, e.plate, e.lprRecordId).Some? then
      LprToSpot(SessionByRecord(rows, e.plate, e.lprRecordId).value)
    else if e.eventKey == EVENT_LPR_TO_SPOT_FREE && SessionBySpot(rows, SpotText(e.spotId), e.lotId).Some? then
      LprToSpotFree(SessionBySpot(rows, SpotText(e.spotId), e.lotId).value)
    else if e.isUnknown == Some(true) then UnknownEvent
    else InvalidKey
  }

  /** The event keys create_session_audit knows. */
  predicate KnownKey(eventKey: string)
  {
    eventKey in [CAR_ENTRY, CAR_EXIT, EVENT_PARKING_SPOT_UPDATES, PARKING_VIOLATION, EVENT_LPR_TO_SPOT,
                 EVENT_LPR_TO_SPOT_FREE]
  }

  /**
   * An event is answered "Invalid event key" exactly when it is not an
   * unknown-event notice and its key is unknown, or it is a spot update
   * with neither status, or an LPR-to-spot mapping without its session.
   */
  lemma InvalidKeyMeans(e: Event, rows: seq<Session>)
    ensures BranchOf(e, rows) == InvalidKey <==>
              e.isUnknown != Some(true) &&
              (!KnownKey(e.eventKey) ||
               (e.eventKey == EVENT_PARKING_SPOT_UPDATES &&
                !(e.isUnknown == Some(false) && e.spotStatus in [Some(SPOT_STATUS_UNAVAILABLE), Some(SPOT_STATUS_AVAILABLE)])) ||
               (e.eventKey == EVENT_LPR_TO_SPOT && SessionByRecord(rows, e.plate, e.lprRecordId).None?) ||
               (e.eventKey == EVENT_LPR_TO_SPOT_FREE && SessionBySpot(rows, SpotText(e.spotId), e.lotId).None?))
  {
    assert CAR_ENTRY != CAR_EXIT && CAR_ENTRY != EVENT_PARKING_SPOT_UPDATES && CAR_ENTRY != PARKING_VIOLATION;
    assert EVENT_LPR_TO_SPOT != EVENT_LPR_TO_SPOT_FREE && EVENT_LPR_TO_SPOT != PARKING_VIOLATION;
    assert SPOT_STATUS_UNAVAILABLE != SPOT_STATUS_AVAILABLE;
  }

  /**
   * The session record built from an event: the event's plate, spot and
   * lot, started at the event time, active unless stated otherwise; the
   * serialised event is kept as its entry or its exit event.
   */
  function NewSession(e: Event, entryEvent: Option<string>, exitEvent: Option<string>, recordId: Option<int>,
                      waiting: Option<bool>, active: bool): (s: Session)
    ensures s.lprNumber == e.plate && s.spotId == e.spotId && s.lotId == e.lotId && s.isActive == active
    ensures s.entryEvent == entryEvent && s.exitEvent == exitEvent && !s.hasNphTask && s.notPaidCounter == 0
  {
    Session(0, entryEvent, exitEvent, e.plate, e.spotId, e.spotName, active, e.lotId, e.timestamp, waiting, 0,
            recordId, None, false, None)
  }

  /** A session closed by the system is no longer active nor waiting for payment; nothing else changes. */
  lemma SystemClosedSession(s: Session)
    ensures ApplyAttrs(s, CLOSE_SESSION_ATTRS) == s.(isActive := false, isWaitingForPayment := Some(false))
  {
    assert CLOSE_SESSION_ATTRS[1..][1..] == [];
  }

  /** The newly opened session is the one the next lookup by plate (or spot) finds. */
  lemma NewSessionIsNewest(rows: seq<Session>, e: Event, entryEvent: string, recordId: Option<int>, waiting: Option<bool>)
    ensures var added := rows + [NewSession(e, Some(entryEvent), None, recordId, waiting, true).(id := |rows| + 1)];
            SessionByPlate(added, e.plate, e.lotId) == Some(|rows|) &&
            (e.spotId.Some? ==> SessionBySpot(added, SpotText(e.spotId), e.lotId) == Some(|rows|))
  {
  }

  /** A session log line that insert_session_event always appends. */
  method AppendLog(sessions: SessionTable, logs: SessionLogTable, sessionId: int, actionType: string,
                   description: string, eventAt: Option<int>)
    requires sessions.Valid() && logs.Valid()
    requires !SkipsRepeat(actionType)
    modifies sessions, logs
    ensures sessions.Valid() && logs.Valid()
    ensures sessions.rows == old(sessions.rows)
    ensures logs.rows == old(logs.rows) + [Stored(NewEntry(sessionId, actionType, description, None, None, eventAt),
                                                  |old(logs.rows)| + 1)]
  {
    OtherActionsAppend(logs.rows, NewEntry(sessionId, actionType, description, None, None, eventAt));
    var _ := CreateSessionLogs(sessions, logs, Some(sessionId), actionType, description, None, None, None, None, eventAt);
  }

  /**
   * The task rows after a system close of the session succeeds: its open
   * tasks close (car.exit ones back to PENDING); then, when it still has a
   * task, that task goes through close_alert.
   */
  function SystemClosedTasks(rows: seq<Task>, sessionId: int, types: seq<ProviderType>): (r: seq<Task>)
    ensures |r| == |rows|
  {
    var closed := CloseSessionRows(rows, sessionId);
    match TaskOfSession(closed, sessionId)
    case None => closed
    case Some(k) =>
      if ViolationProviderType(types).None? then closed
      else AlertClosedOn(closed, k, ViolationProviderType(types).value)
  }

  /** The task table went from `before` to `after` by a system close of the session stored at row k. */
  predicate SystemClosed(before: seq<Task>, after: seq<Task>, k: nat, types: seq<ProviderType>)
  {
    after == SystemClosedTasks(before, k + 1, types)
  }

  /**
   * The task and violation tables went from `before` to `after` by
   * close_session_tasks_and_alerts on the session stored at row k.
   */
  predicate SessionClosed(tasksBefore: seq<Task>, tasksAfter: seq<Task>, violationsBefore: seq<Violation>,
                          violationsAfter: seq<Violation>, k: nat, types: seq<ProviderType>)
  {
    tasksAfter == SessionTasksClosed(tasksBefore, violationsBefore, k + 1, types) &&
    violationsAfter == SessionViolationsAfter(tasksBefore, violationsBefore, k + 1)
  }

  /**
   * The system close of a superseded session (same plate entering again,
   * same spot occupied again, unknown event): the session stops being
   * active and waiting, its open tasks are closed, the alerts of its
   * violation tasks are closed, and "System Closed" is logged. Returns the
   * ids of the closed tasks; a missing violation provider type raises.
   */
  method SystemClose(tasks: TaskTable, sessions: SessionTable, logs: SessionLogTable, types: seq<ProviderType>,
                     k: nat, description: string)
    returns (r: Result<seq<nat>>)
    requires tasks.Valid() && sessions.Valid() && logs.Valid() && k < |sessions.rows|
    modifies tasks, sessions, logs
    ensures tasks.Valid() && sessions.Valid() && logs.Valid()
    ensures sessions.rows == old(sessions.rows)[k := ApplyAttrs(old(sessions.rows)[k], CLOSE_SESSION_ATTRS)]
    ensures var closed := CloseSessionRows(old(tasks.rows), k + 1);
            (r.Err? <==> TaskOfSession(closed, k + 1).Some? && ViolationProviderType(types).None?) &&
            (r.Ok? ==> r.value == OpenSessionIds(old(tasks.rows), k + 1)) &&
            (r.Ok? && TaskOfSession(closed, k + 1).None? ==> tasks.rows == closed) &&
            (r.Ok? && TaskOfSession(closed, k + 1).Some? ==>
               tasks.rows == AlertClosedOn(closed, TaskOfSession(closed, k + 1).value, ViolationProviderType(types).value))
    ensures r.Ok? ==> SystemClosed(old(tasks.rows), tasks.rows, k, types)
    ensures r.Ok? ==> |logs.rows| > |old(logs.rows)| &&
                      logs.rows[|logs.rows| - 1] ==
                        Stored(NewEntry(k + 1, SYSTEM_CLOSED, description, None, None, None), |logs.rows|)
  {
    var sessionId := k + 1;
    var _ := sessions.UpdateAttributes(sessionId, CLOSE_SESSION_ATTRS);
    var ids := tasks.CloseTaskWithSessionId(sessionId);
    var alerted := CloseSessionAlerts(tasks, sessions, logs, types, sessionId);
    if alerted.Err? {
      return Err(alerted.msg);
    }
    assert SYSTEM_CLOSED[0] == 'S';
    AppendLog(sessions, logs, sessionId, SYSTEM_CLOSED, description, None);
    r := Ok(ids);
  }

  /**
   * get_task_by_session_id followed by close_alert when a task is found:
   * the alerts of the session's violation tasks close and the task takes
   * the session the exit is attributed to (written back by the commit of
   * the next session-log line); a missing violation provider type raises;
   * without a task nothing changes.
   */
  method CloseSessionAlerts(tasks: TaskTable, sessions: SessionTable, logs: SessionLogTable, types: seq<ProviderType>,
                            sessionId: int)
    returns (r: Result<()>)
    requires tasks.Valid() && sessions.Valid() && logs.Valid()
    modifies tasks, sessions, logs
    ensures tasks.Valid() && sessions.Valid() && logs.Valid()
    ensures sessions.rows == old(sessions.rows) && old(logs.rows) <= logs.rows
    ensures r.Err? <==> TaskOfSession(old(tasks.rows), sessionId).Some? && ViolationProviderType(types).None?
    ensures r.Ok? && TaskOfSession(old(tasks.rows), sessionId).None? ==> tasks.rows == old(tasks.rows)
    ensures r.Ok? && TaskOfSession(old(tasks.rows), sessionId).Some? ==>
              tasks.rows == AlertClosedOn(old(tasks.rows), TaskOfSession(old(tasks.rows), sessionId).value,
                                          ViolationProviderType(types).value)
  {
    var found := TaskOfSession(tasks.rows, sessionId);
    if found.Some? {
      var t := tasks.rows[found.value];
      var alerted := CloseAlert(tasks, sessions, logs, types, t.sessionId, t.plate, t.spotId, t.lotId);
      if alerted.Err? {
        return Err(alerted.msg);
      }
      tasks.AssignSession(found.value, alerted.value.1);
    }
    r := Ok(());
  }

  /**
   * The car-entry branch: an active session of the same plate is closed by
   * the system first; then a new session is opened and the event carries
   * its id on to execute_event.
   */
  method HandleCarEntry(tasks: TaskTable, sessions: SessionTable, logs: SessionLogTable, types: seq<ProviderType>,
                        e: Event, eventJson: string)
    returns (r: Result<Event>)
    requires tasks.Valid() && sessions.Valid() && logs.Valid()
    modifies tasks, sessions, logs
    ensures tasks.Valid() && sessions.Valid() && logs.Valid()
    ensures var prior := SessionByPlate(old(sessions.rows), e.plate, e.lotId);
            var n := |old(sessions.rows)|;
            var kept := if prior.None? then old(sessions.rows)
                        else old(sessions.rows)[prior.value := ApplyAttrs(old(sessions.rows)[prior.value], CLOSE_SESSION_ATTRS)];
            (prior.None? ==> r.Ok? && tasks.rows == old(tasks.rows) && logs.rows == old(logs.rows)) &&
            (r.Err? ==> sessions.rows == kept) &&
            (r.Ok? ==> r.value == e.(sessionId := Some(n + 1)) &&
                       sessions.rows == kept + [NewSession(e, Some(eventJson), None, e.lprRecordId, None, true).(id := n + 1)])
    ensures r.Ok? && SessionByPlate(old(sessions.rows), e.plate, e.lotId).Some? ==>
              |logs.rows| > 0 && logs.rows[|logs.rows| - 1].actionType == SYSTEM_CLOSED &&
              SystemClosed(old(tasks.rows), tasks.rows, SessionByPlate(old(sessions.rows), e.plate, e.lotId).value, types)
  {
    var prior := SessionByPlate(sessions.rows, e.plate, e.lotId);
    if prior.Some? {
      var closed := SystemClose(tasks, sessions, logs, types, prior.value, LPR_ENTRY_DESCRIPTION);
      if closed.Err? {
        return Err(closed.msg);
      }
    }
    var created := sessions.Insert(NewSession(e, Some(eventJson), None, e.lprRecordId, None, true));
    r := Ok(e.(sessionId := Some(created.id)));
  }

  /**
   * The car-exit branch: the active session of the plate records the exit
   * and stops waiting for payment; without one, a session record holding
   * only the exit is inserted and the event keeps its session id.
   */
  method HandleCarExit(sessions: SessionTable, e: Event, eventJson: string) returns (r: Event)
    requires sessions.Valid()
    modifies sessions
    ensures sessions.Valid()
    ensures var found := SessionByPlate(old(sessions.rows), e.plate, e.lotId);
            (found.Some? ==>
               r == e.(sessionId := Some(found.value + 1)) &&
               sessions.rows == old(sessions.rows)[found.value := ApplyAttrs(old(sessions.rows)[found.value],
                                                     [SetExitEvent(Some(eventJson)), SetWaitingForPayment(Some(false))])]) &&
            (found.None? ==>
               r == e &&
               sessions.rows == old(sessions.rows) +
                                [NewSession(e, None, Some(eventJson), e.lprRecordId, None, true).(id := |old(sessions.rows)| + 1)])
  {
    var found := SessionByPlate(sessions.rows, e.plate, e.lotId);
    if found.Some? {
      var _ := sessions.UpdateAttributes(found.value + 1, [SetExitEvent(Some(eventJson)), SetWaitingForPayment(Some(false))]);
      return e.(sessionId := Some(found.value + 1));
    }
    var _ := sessions.Insert(NewSession(e, None, Some(eventJson), e.lprRecordId, None, true));
    r := e;
  }

  /** `False if events.disable_spot_payment else None`. */
  function OccupiedWaiting(disableSpotPayment: Option<bool>): (r: Option<bool>)
    ensures r != Some(true)
    ensures r == Some(false) <==> disableSpotPayment == Some(true)
  {
    if disableSpotPayment == Some(true) then Some(false) else None
  }

  /**
   * The spot-occupied branch: as a car entry, keyed by spot. A session
   * opened on a lot that does not charge for the spot is not waiting for
   * payment.
   */
  method HandleSpotOccupied(tasks: TaskTable, sessions: SessionTable, logs: SessionLogTable, types: seq<ProviderType>,
                            e: Event, eventJson: string)
    returns (r: Result<Event>)
    requires tasks.Valid() && sessions.Valid() && logs.Valid()
    modifies tasks, sessions, logs
    ensures tasks.Valid() && sessions.Valid() && logs.Valid()
    ensures var prior := SessionBySpot(old(sessions.rows), SpotText(e.spotId), e.lotId);
            var n := |old(sessions.rows)|;
            var kept := if prior.None? then old(sessions.rows)
                        else old(sessions.rows)[prior.value := ApplyAttrs(old(sessions.rows)[prior.value], CLOSE_SESSION_ATTRS)];
            (prior.None? ==> r.Ok? && tasks.rows == old(tasks.rows) && logs.rows == old(logs.rows)) &&
            (r.Err? ==> sessions.rows == kept) &&
            (r.Ok? ==> r.value == e.(eventKey := SPOT_OCCUPIED, spotId := SpotText(e.spotId), sessionId := Some(n + 1)) &&
                       sessions.rows == kept + [NewSession(e, Some(eventJson), None, None,
                                                           OccupiedWaiting(e.disableSpotPayment), true).(id := n + 1)])
    ensures r.Ok? && SessionBySpot(old(sessions.rows), SpotText(e.spotId), e.lotId).Some? ==>
              SystemClosed(old(tasks.rows), tasks.rows, SessionBySpot(old(sessions.rows), SpotText(e.spotId), e.lotId).value, types)
  {
    var prior := SessionBySpot(sessions.rows, SpotText(e.spotId), e.lotId);
    if prior.Some? {
      var closed := SystemClose(tasks, sessions, logs, types, prior.value, OCCUPIED_DESCRIPTION);
      if closed.Err? {
        return Err(closed.msg);
      }
    }
    var created := sessions.Insert(NewSession(e, Some(eventJson), None, None, OccupiedWaiting(e.disableSpotPayment), true));
    r := Ok(e.(eventKey := SPOT_OCCUPIED, spotId := SpotText(e.spotId), sessionId := Some(created.id)));
  }

  /** The spot-available branch: as a car exit, keyed by spot. */
  method HandleSpotAvailable(sessions: SessionTable, e: Event, eventJson: string) returns (r: Event)
    requires sessions.Valid()
    modifies sessions
    ensures sessions.Valid()
    ensures var found := SessionBySpot(old(sessions.rows), SpotText(e.spotId), e.lotId);
            (found.Some? ==>
               r == e.(eventKey := SPOT_FREE, spotId := SpotText(e.spotId), sessionId := Some(found.value + 1)) &&
               sessions.rows == old(sessions.rows)[found.value := ApplyAttrs(old(sessions.rows)[found.value],
                                                     [SetExitEvent(Some(eventJson)), SetWaitingForPayment(Some(false))])]) &&
            (found.None? ==>
               r == e.(eventKey := SPOT_FREE, spotId := SpotText(e.spotId)) &&
               sessions.rows == old(sessions.rows) +
                                [NewSession(e, None, Some(eventJson), None, None, true).(id := |old(sessions.rows)| + 1)])
  {
    var found := SessionBySpot(sessions.rows, SpotText(e.spotId), e.lotId);
    if found.Some? {
      var _ := sessions.UpdateAttributes(found.value + 1, [SetExitEvent(Some(eventJson)), SetWaitingForPayment(Some(false))]);
      return e.(eventKey := SPOT_FREE, spotId := SpotText(e.spotId), sessionId := Some(found.value + 1));
    }
    var _ := sessions.Insert(NewSession(e, None, Some(eventJson), None, None, true));
    r := e.(eventKey := SPOT_FREE, spotId := SpotText(e.spotId));
  }

  /** fetch_spot_details_by_session_id: the session's first task that has a spot. */
  function SpotTaskOf(rows: seq<Task>, sessionId: int): (r: Option<nat>)
    ensures r.Some? ==> r.value < |rows| && rows[r.value].sessionId == Some(sessionId) && rows[r.value].spotId.Some?
  {
    FirstWhere(rows, (t: Task) => t.sessionId == Some(sessionId) && t.spotId.Some?)
  }

  /**
   * The event the parking-violation branch hands to execute_event: it
   * carries the active session of its plate and LPR record, or the id of the
   * session opened for it, and the spot of that session's tasks when it has
   * none of its own.
   */
  function ViolationEvent(taskRows: seq<Task>, sessionRows: seq<Session>, e: Event): (r: Event)
    ensures r.sessionId.Some? && 1 <= r.sessionId.value <= |sessionRows| + 1
    ensures r.(sessionId := e.sessionId, spotId := e.spotId, spotName := e.spotName) == e
    ensures e.spotId.Some? ==> r.spotId == e.spotId && r.spotName == e.spotName
    ensures SessionForViolation(sessionRows, e.lotId, e.plate, e.lprRecordId).None? <==>
              r.sessionId == Some(|sessionRows| + 1)
  {
    match SessionForViolation(sessionRows, e.lotId, e.plate, e.lprRecordId)
    case None => e.(sessionId := Some(|sessionRows| + 1))
    case Some(j) =>
      var st := SpotTaskOf(taskRows, j + 1);
      (if st.Some? && e.spotId.None? then e.(spotId := taskRows[st.value].spotId, spotName := taskRows[st.value].spotName)
       else e).(sessionId := Some(j + 1))
  }

  /**
   * The parking-violation branch, up to execute_event: the violation joins
   * the active session of its plate and LPR record, taking the spot of the
   * session's tasks when it has none; without such a session an inactive
   * one is opened for it.
   */
  method HandleParkingViolation(tasks: TaskTable, sessions: SessionTable, e: Event) returns (r: Event)
    requires tasks.Valid() && sessions.Valid()
    modifies sessions
    ensures sessions.Valid()
    ensures r.sessionId.Some? && 1 <= r.sessionId.value <= |sessions.rows|
    ensures var s := sessions.rows[r.sessionId.value - 1];
            s.lprNumber == e.plate && s.lotId == e.lotId
    ensures var found := SessionForViolation(old(sessions.rows), e.lotId, e.plate, e.lprRecordId);
            (found.Some? ==> sessions.rows == old(sessions.rows) && r.sessionId == Some(found.value + 1)) &&
            (found.None? ==> sessions.rows == old(sessions.rows) +
                               [NewSession(e, None, None, None, None, false).(id := |old(sessions.rows)| + 1)] &&
                             r == e.(sessionId := Some(|sessions.rows|)))
    ensures var found := SessionForViolation(old(sessions.rows), e.lotId, e.plate, e.lprRecordId);
            found.Some? ==>
              var st := SpotTaskOf(tasks.rows, found.value + 1);
              r == (if st.Some? && e.spotId.None?
                    then e.(spotId := tasks.rows[st.value].spotId, spotName := tasks.rows[st.value].spotName)
                    else e).(sessionId := Some(found.value + 1))
    ensures r == ViolationEvent(tasks.rows, old(sessions.rows), e)
  {
    var found := SessionForViolation(sessions.rows, e.lotId, e.plate, e.lprRecordId);
    if found.Some? {
      var sessionId := found.value + 1;
      var spotTask := SpotTaskOf(tasks.rows, sessionId);
      r := e;
      if spotTask.Some? && e.spotId.None? {
        r := r.(spotId := tasks.rows[spotTask.value].spotId, spotName := tasks.rows[spotTask.value].spotName);
      }
      r := r.(sessionId := Some(sessionId));
      return;
    }
    var created := sessions.Insert(NewSession(e, None, None, None, None, false));
    r := e.(sessionId := Some(created.id));
  }

  /** The violation row create_session_audit records for a parking violation that reached a provider. */
  function ParkingViolationRow(e: Event, taskId: nat, amount: Option<int>, sessionId: int): (v: Violation)
    ensures OpenOfSession(v, Some(sessionId), PARKING_VIOLATION)
    ensures v.taskId == taskId && v.plate == e.plate && v.spotId == e.spotId && v.lotId == Some(e.lotId)
  {
    Violation(0, e.alertTitle.GetOr(""), OPEN, e.details.GetOr(""), taskId, Some(PARKING_VIOLATION), amount.GetOr(0),
              e.spotId, e.plate, Some(e.lotId), Some(OPEN), Some(sessionId), None)
  }


  /** A spot-match action never falls in the set whose repeats the session log suppresses. */
  lemma SpotActionsAppend(spotName: string)
    ensures !SkipsRepeat(FormatSpotName(LOG_LPR_TO_SPOT, spotName))
    ensures !SkipsRepeat(FormatSpotName(LOG_LPR_TO_SPOT_FREE, spotName))
  {
    SpotTemplates(spotName);
    StartsWithS("Spot Matched: " + spotName);
    StartsWithS("Spot Free: " + spotName);
  }

  lemma StartsWithS(action: string)
    requires |action| > 0 && action[0] == 'S'
    ensures !SkipsRepeat(action)
  {
    assert "Not Paid"[0] == 'N' && "Permit Expired"[0] == 'P' && "Valid Permit"[0] == 'V' && "Unreserved"[0] == 'U';
  }

  /** The session a spot is mapped onto takes the event's spot. */
  function MappedSpot(e: Event): (r: seq<Attr>)
    ensures forall a :: a in r ==> a.SetSpotId? || a.SetSpotName?
    ensures SetSpotId(e.spotId) in r && SetSpotName(e.spotName) in r
  {
    [SetSpotId(e.spotId), SetSpotName(e.spotName)]
  }

  /** Mapping writes the spot and its name and nothing else. */
  lemma MappedSpotEffect(s: Session, e: Event)
    ensures ApplyAttrs(s, MappedSpot(e)) == s.(spotId := e.spotId, spotName := e.spotName)
  {
    assert MappedSpot(e)[1..][1..] == [];
  }

  /** A single attribute writes its one column. */
  lemma OneAttrEffect(s: Session, a: Attr)
    ensures ApplyAttrs(s, [a]) == ApplyAttr(s, a)
  {
    assert [a][1..] == [];
  }

  /** The spot-match log line of the session at index k. */
  function SpotMatchedEntry(k: nat, e: Event): (r: NewEntry)
    ensures r.sessionId == k + 1 && r.eventAt == Some(e.timestamp)
    ensures r.actionType == "Spot Matched: " + SpotNameText(e.spotName)
    ensures r.description == LprDescription(LPR_MATCH_HEADING, SpotNameText(e.spotName)) && "LPR" <= r.description
    ensures r.provider.None? && r.metaInfo.None?
  {
    var spotName := SpotNameText(e.spotName);
    SpotTemplates(spotName);
    HeadingsShape();
    NewEntry(k + 1, FormatSpotName(LOG_LPR_TO_SPOT, spotName), LprDescription(LPR_MATCH_HEADING, spotName), None, None,
             Some(e.timestamp))
  }

  /** The session at index k takes the event's spot, and the match is logged. */
  method MatchSpot(sessions: SessionTable, logs: SessionLogTable, e: Event, k: nat)
    requires sessions.Valid() && logs.Valid() && k < |sessions.rows|
    modifies sessions, logs
    ensures sessions.Valid() && logs.Valid()
    ensures sessions.rows == old(sessions.rows)[k := old(sessions.rows)[k].(spotId := e.spotId, spotName := e.spotName)]
    ensures logs.rows == old(logs.rows) + [Stored(SpotMatchedEntry(k, e), |old(logs.rows)| + 1)]
  {
    SetSessionSpot(sessions, e, k);
    LogSpotMatch(sessions, logs, e, k);
  }

  /** Writing a row twice leaves the second value. */
  lemma RowWrittenTwice(rows: seq<Session>, k: nat, first: Session, second: Session)
    requires k < |rows|
    ensures rows[k := first][k := second] == rows[k := second]
  {
  }

  /** The session at index k takes the event's spot and its name. */
  method SetSessionSpot(sessions: SessionTable, e: Event, k: nat)
    requires sessions.Valid() && k < |sessions.rows|
    modifies sessions
    ensures sessions.Valid()
    ensures sessions.rows == old(sessions.rows)[k := old(sessions.rows)[k].(spotId := e.spotId, spotName := e.spotName)]
  {
    MappedSpotEffect(sessions.rows[k], e);
    var _ := sessions.UpdateAttributes(k + 1, MappedSpot(e));
  }

  /** The "Spot Matched" line of the session at index k is appended to the log. */
  method LogSpotMatch(sessions: SessionTable, logs: SessionLogTable, e: Event, k: nat)
    requires sessions.Valid() && logs.Valid()
    modifies sessions, logs
    ensures sessions.Valid() && logs.Valid()
    ensures sessions.rows == old(sessions.rows)
    ensures logs.rows == old(logs.rows) + [Stored(SpotMatchedEntry(k, e), |old(logs.rows)| + 1)]
  {
    var spotName := SpotNameText(e.spotName);
    SpotActionsAppend(spotName);
    AppendLog(sessions, logs, k + 1, FormatSpotName(LOG_LPR_TO_SPOT, spotName), LprDescription(LPR_MATCH_HEADING, spotName),
              Some(e.timestamp));
  }

  /** The session at index k stops waiting for payment. */
  method StopWaiting(sessions: SessionTable, k: nat)
    requires sessions.Valid() && k < |sessions.rows|
    modifies sessions
    ensures sessions.Valid()
    ensures sessions.rows == old(sessions.rows)[k := old(sessions.rows)[k].(isWaitingForPayment := Some(false))]
  {
    OneAttrEffect(sessions.rows[k], SetWaitingForPayment(Some(false)));
    var _ := sessions.UpdateAttributes(k + 1, [SetWaitingForPayment(Some(false))]);
  }

  /** The "Spot Free" line of the session at index k is appended to the log. */
  method LogSpotFree(sessions: SessionTable, logs: SessionLogTable, e: Event, k: nat)
    requires sessions.Valid() && logs.Valid()
    modifies sessions, logs
    ensures sessions.Valid() && logs.Valid()
    ensures sessions.rows == old(sessions.rows)
    ensures var spotName := SpotNameText(e.spotName);
            logs.rows == old(logs.rows) + [Stored(NewEntry(k + 1, FormatSpotName(LOG_LPR_TO_SPOT_FREE, spotName),
                                                           LprDescription(LPR_FREE_HEADING, spotName), None, None,
                                                           Some(e.timestamp)),
                                                  |old(logs.rows)| + 1)]
  {
    var spotName := SpotNameText(e.spotName);
    SpotActionsAppend(spotName);
    AppendLog(sessions, logs, k + 1, FormatSpotName(LOG_LPR_TO_SPOT_FREE, spotName), LprDescription(LPR_FREE_HEADING, spotName),
              Some(e.timestamp));
  }

  /** The first match of a session to a spot: the session is marked as mapped and its open tasks move to the spot. */
  method MapFirstTime(tasks: TaskTable, sessions: SessionTable, e: Event, k: nat)
    requires tasks.Valid() && sessions.Valid() && k < |sessions.rows|
    modifies tasks, sessions
    ensures tasks.Valid() && sessions.Valid()
    ensures sessions.rows == old(sessions.rows)[k := old(sessions.rows)[k].(isLprToSpot := Some(true))]
    ensures tasks.rows == MoveSessionSpot(old(tasks.rows), k + 1, e.spotId, e.spotName)
  {
    OneAttrEffect(sessions.rows[k], SetLprToSpot(Some(true)));
    var _ := sessions.UpdateAttributes(k + 1, [SetLprToSpot(Some(true))]);
    var _ := tasks.UpdateTaskBySessionId(k + 1, e.spotId, e.spotName);
  }

  /**
   * A match of an already-mapped session to another spot: its tasks and
   * alerts are closed and its nph flag is cleared, so that its entry can
   * start again on the new spot.
   */
  method Remap(tasks: TaskTable, violations: ViolationTable, sessions: SessionTable, logs: SessionLogTable,
               types: seq<ProviderType>, k: nat)
    returns (r: Result<()>)
    requires tasks.Valid() && violations.Valid() && sessions.Valid() && logs.Valid() && k < |sessions.rows|
    modifies tasks, violations, sessions, logs
    ensures tasks.Valid() && violations.Valid() && sessions.Valid() && logs.Valid()
    ensures r.Err? ==> sessions.rows == old(sessions.rows)
    ensures r.Ok? ==> sessions.rows == old(sessions.rows)[k := old(sessions.rows)[k].(hasNphTask := false)]
    ensures r.Err? <==> TaskOfSession(old(tasks.rows), k + 1).Some? && ViolationProviderType(types).None?
    ensures r.Ok? ==> SessionClosed(old(tasks.rows), tasks.rows, old(violations.rows), violations.rows, k, types)
  {
    var closed := CloseSessionTasksAndAlerts(tasks, violations, sessions, logs, types, k + 1, REASON_LPR_SPOT_DETECTED);
    if closed.Err? {
      return Err(closed.msg);
    }
    OneAttrEffect(sessions.rows[k], SetHasNphTask(false));
    var _ := sessions.UpdateAttributes(k + 1, [SetHasNphTask(false)]);
    r := Ok(());
  }

  /** What `json.loads(None)` raises: the stored entry event is missing. */
  const NOT_JSON_TEXT := "the JSON object must be str, bytes or bytearray, not NoneType"

  /**
   * The LPR-to-spot branch for a session already mapped to a spot: the
   * session takes the new spot, its stored entry event is read back (a
   * session opened without one raises), the match is logged, its tasks
   * and alerts are closed and its nph flag cleared; the entry event comes
   * back with the session and the new spot, to be executed again.
   */
  method MoveToNewSpot(tasks: TaskTable, violations: ViolationTable, sessions: SessionTable, logs: SessionLogTable,
                       types: seq<ProviderType>, e: Event, k: nat, entryEvent: Event)
    returns (r: Result<Option<Event>>)
    requires tasks.Valid() && violations.Valid() && sessions.Valid() && logs.Valid() && k < |sessions.rows|
    modifies tasks, violations, sessions, logs
    ensures tasks.Valid() && violations.Valid() && sessions.Valid() && logs.Valid()
    ensures var s := old(sessions.rows)[k].(spotId := e.spotId, spotName := e.spotName);
            (old(sessions.rows)[k].entryEvent.None? ==>
               r.Err? && sessions.rows == old(sessions.rows)[k := s] && logs.rows == old(logs.rows)) &&
            (r.Ok? ==>
               r.value == Some(entryEvent.(sessionId := Some(k + 1), spotId := e.spotId, spotName := e.spotName)) &&
               sessions.rows == old(sessions.rows)[k := s.(hasNphTask := false)] &&
               SessionClosed(old(tasks.rows), tasks.rows, old(violations.rows), violations.rows, k, types))
  {
    var stored := sessions.rows[k].entryEvent;
    ghost var moved := sessions.rows[k].(spotId := e.spotId, spotName := e.spotName);
    SetSessionSpot(sessions, e, k);
    if stored.None? {
      return Err(NOT_JSON_TEXT);
    }
    ghost var before := sessions.rows;
    LogSpotMatch(sessions, logs, e, k);
    var closed := Remap(tasks, violations, sessions, logs, types, k);
    if closed.Err? {
      return Err(closed.msg);
    }
    assert before[k] == moved;
    RowWrittenTwice(old(sessions.rows), k, moved, moved.(hasNphTask := false));
    r := Ok(Some(entryEvent.(sessionId := Some(k + 1), spotId := e.spotId, spotName := e.spotName)));
  }

  /**
   * The LPR-to-spot branch for the session at index k (found by plate and
   * LPR record). The session takes the event's spot and the match is
   * logged. The first time, the session is marked as mapped and its open
   * tasks move to the spot. When it was already mapped (the car moved to
   * another spot), its stored entry event is read back (a session opened
   * without one raises), its tasks and alerts are closed, its nph flag is
   * cleared, and the entry event is returned to be executed again with the
   * session and the new spot. The parsed entry event is a parameter.
   */
  method HandleLprToSpot(tasks: TaskTable, violations: ViolationTable, sessions: SessionTable, logs: SessionLogTable,
                         types: seq<ProviderType>, e: Event, k: nat, entryEvent: Event)
    returns (r: Result<Option<Event>>)
    requires tasks.Valid() && violations.Valid() && sessions.Valid() && logs.Valid() && k < |sessions.rows|
    modifies tasks, violations, sessions, logs
    ensures tasks.Valid() && violations.Valid() && sessions.Valid() && logs.Valid()
    ensures var s := old(sessions.rows)[k].(spotId := e.spotId, spotName := e.spotName);
            (old(sessions.rows)[k].isLprToSpot != Some(true) ==>
               r == Ok(None) &&
               sessions.rows == old(sessions.rows)[k := s.(isLprToSpot := Some(true))] &&
               tasks.rows == MoveSessionSpot(old(tasks.rows), k + 1, e.spotId, e.spotName) &&
               violations.rows == old(violations.rows)) &&
            (old(sessions.rows)[k].isLprToSpot == Some(true) && old(sessions.rows)[k].entryEvent.None? ==>
               r.Err? && sessions.rows == old(sessions.rows)[k := s] && logs.rows == old(logs.rows)) &&
            (old(sessions.rows)[k].isLprToSpot == Some(true) && r.Ok? ==>
               r.value == Some(entryEvent.(sessionId := Some(k + 1), spotId := e.spotId, spotName := e.spotName)) &&
               sessions.rows == old(sessions.rows)[k := s.(hasNphTask := false)] &&
               SessionClosed(old(tasks.rows), tasks.rows, old(violations.rows), violations.rows, k, types))
  {
    if sessions.rows[k].isLprToSpot == Some(true) {
      r := MoveToNewSpot(tasks, violations, sessions, logs, types, e, k, entryEvent);
      return;
    }
    ghost var s := sessions.rows[k].(spotId := e.spotId, spotName := e.spotName);
    MatchSpot(sessions, logs, e, k);
    MapFirstTime(tasks, sessions, e, k);
    RowWrittenTwice(old(sessions.rows), k, s, s.(isLprToSpot := Some(true)));
    r := Ok(None);
  }

  /**
   * The LPR-to-spot-free branch for the session at index k (found by
   * spot): the match is logged, the session's tasks and alerts are closed
   * and it stops waiting for payment.
   */
  method HandleLprToSpotFree(tasks: TaskTable, violations: ViolationTable, sessions: SessionTable,
                             logs: SessionLogTable, types: seq<ProviderType>, e: Event, k: nat)
    returns (r: Result<()>)
    requires tasks.Valid() && violations.Valid() && sessions.Valid() && logs.Valid() && k < |sessions.rows|
    modifies tasks, violations, sessions, logs
    ensures tasks.Valid() && violations.Valid() && sessions.Valid() && logs.Valid()
    ensures r.Ok? ==> sessions.rows == old(sessions.rows)[k := old(sessions.rows)[k].(isWaitingForPayment := Some(false))]
    ensures r.Err? ==> sessions.rows == old(sessions.rows)
    ensures r.Ok? && TaskOfSession(old(tasks.rows), k + 1).None? ==>
              tasks.rows == old(tasks.rows) && violations.rows == old(violations.rows)
    ensures r.Ok? ==> SessionClosed(old(tasks.rows), tasks.rows, old(violations.rows), violations.rows, k, types)
  {
    var sessionId := k + 1;
    LogSpotFree(sessions, logs, e, k);
    var closed := CloseSessionTasksAndAlerts(tasks, violations, sessions, logs, types, sessionId, REASON_LPR_TO_SPOT_FREE);
    if closed.Err? {
      return Err(closed.msg);
    }
    StopWaiting(sessions, k);
    r := Ok(());
  }

  /**
   * The unknown-event branch (a camera restart and the like): the active
   * session of the spot is closed by the system together with its tasks;
   * without one there is nothing to close. The closing of the closed
   * tasks' sub-tasks comes after the last commit of the request, and the
   * request's database session is closed without a commit, so it is rolled
   * back: the sub-task table is not touched here.
   */
  method HandleUnknownEvent(tasks: TaskTable, sessions: SessionTable, logs: SessionLogTable,
                            types: seq<ProviderType>, e: Event)
    returns (r: Result<Outcome>)
    requires tasks.Valid() && sessions.Valid() && logs.Valid()
    modifies tasks, sessions, logs
    ensures tasks.Valid() && sessions.Valid() && logs.Valid()
    ensures match SessionBySpot(old(sessions.rows), SpotText(e.spotId), e.lotId)
            case None =>
              r == Ok(Reply("No session found to close")) && sessions.rows == old(sessions.rows) &&
              tasks.rows == old(tasks.rows)
            case Some(j) =>
              sessions.rows == old(sessions.rows)[j := ApplyAttrs(old(sessions.rows)[j], CLOSE_SESSION_ATTRS)] &&
              (r.Ok? ==> r.value == NoReply && SystemClosed(old(tasks.rows), tasks.rows, j, types))
  {
    var found := SessionBySpot(sessions.rows, SpotText(e.spotId), e.lotId);
    if found.None? {
      return Ok(Reply("No session found to close"));
    }
    var closed := SystemClose(tasks, sessions, logs, types, found.value, UNKNOWN_EVENT_DESCRIPTION);
    if closed.Err? {
      return Err(closed.msg);
    }
    r := Ok(NoReply);
  }

  /**
   * The LPR-to-spot branch of create_session_audit, with its exceptions
   * turned into replies: a first mapping only moves the session; a
   * remapping replays the entry event through the normal pipeline.
   */
  method AuditLprToSpot(tasks: TaskTable, subTasks: SubTaskTable, violations: ViolationTable, sessions: SessionTable,
                        logs: SessionLogTable, types: seq<ProviderType>, lot: Lot, groups: seq<FeatureGroup>,
                        e: Event, k: nat, entryEvent: Event, now: int)
    returns (r: Outcome)
    requires tasks.Valid() && subTasks.Valid() && violations.Valid() && sessions.Valid() && logs.Valid()
    requires k < |sessions.rows|
    modifies tasks, subTasks, violations, sessions, logs
    ensures tasks.Valid() && subTasks.Valid() && violations.Valid() && sessions.Valid() && logs.Valid()
    ensures old(sessions.rows)[k].isLprToSpot != Some(true) ==>
              r == Reply("spot mapped to session") &&
              sessions.rows == old(sessions.rows)[k := old(sessions.rows)[k].(spotId := e.spotId, spotName := e.spotName,
                                                                             isLprToSpot := Some(true))] &&
              tasks.rows == MoveSessionSpot(old(tasks.rows), k + 1, e.spotId, e.spotName) &&
              violations.rows == old(violations.rows) && subTasks.rows == old(subTasks.rows)
  {
    var prepared := HandleLprToSpot(tasks, violations, sessions, logs, types, e, k, entryEvent);
    if prepared.Err? {
      return ErrorReply(prepared.msg);
    }
    if prepared.value.None? {
      return Reply("spot mapped to session");
    }
    r := Execute(tasks, subTasks, violations, sessions, logs, types, lot, groups, prepared.value.value, now);
  }

  /** The LPR-to-spot-free branch of create_session_audit, with its exceptions turned into replies. */
  method AuditLprToSpotFree(tasks: TaskTable, violations: ViolationTable, sessions: SessionTable,
                            logs: SessionLogTable, types: seq<ProviderType>, e: Event, k: nat)
    returns (r: Outcome)
    requires tasks.Valid() && violations.Valid() && sessions.Valid() && logs.Valid() && k < |sessions.rows|
    modifies tasks, violations, sessions, logs
    ensures tasks.Valid() && violations.Valid() && sessions.Valid() && logs.Valid()
    ensures r == Reply("spot free mapped to session") ==>
              sessions.rows == old(sessions.rows)[k := old(sessions.rows)[k].(isWaitingForPayment := Some(false))] &&
              SessionClosed(old(tasks.rows), tasks.rows, old(violations.rows), violations.rows, k, types)
    ensures r != Reply("spot free mapped to session") ==> sessions.rows == old(sessions.rows)
  {
    var freed := HandleLprToSpotFree(tasks, violations, sessions, logs, types, e, k);
    if freed.Err? {
      assert ErrorReply(freed.msg).message[0] != "spot free mapped to session"[0];
      return ErrorReply(freed.msg);
    }
    r := Reply("spot free mapped to session");
  }

  /** The unknown-event branch of create_session_audit, with its exceptions turned into replies. */
  method AuditUnknownEvent(tasks: TaskTable, sessions: SessionTable, logs: SessionLogTable,
                           types: seq<ProviderType>, e: Event)
    returns (r: Outcome)
    requires tasks.Valid() && sessions.Valid() && logs.Valid()
    modifies tasks, sessions, logs
    ensures tasks.Valid() && sessions.Valid() && logs.Valid()
    ensures var found := SessionBySpot(old(sessions.rows), SpotText(e.spotId), e.lotId);
            (found.None? ==> r == Reply("No session found to close") && sessions.rows == old(sessions.rows)) &&
            (found.Some? ==>
               sessions.rows == old(sessions.rows)[found.value := ApplyAttrs(old(sessions.rows)[found.value],
                                                                             CLOSE_SESSION_ATTRS)] &&
               (r == NoReply ==> SystemClosed(old(tasks.rows), tasks.rows, found.value, types)))
  {
    var closed := HandleUnknownEvent(tasks, sessions, logs, types, e);
    if closed.Err? {
      return ErrorReply(closed.msg);
    }
    r := closed.value;
  }

  /** The prefix of the reply create_session_audit gives for an exception. */
  const ERROR_PREFIX := "An error occurred: "

  /** The message an exception caught by create_session_audit turns into. */
  function ErrorReply(msg: string): Outcome
  {
    Reply(ERROR_PREFIX + msg)
  }

  /** execute_event on the prepared event, its failure caught by create_session_audit. */
  method Execute(tasks: TaskTable, subTasks: SubTaskTable, violations: ViolationTable, sessions: SessionTable,
                 logs: SessionLogTable, types: seq<ProviderType>, lot: Lot, groups: seq<FeatureGroup>, e: Event, now: int)
    returns (r: Outcome)
    requires tasks.Valid() && subTasks.Valid() && violations.Valid() && sessions.Valid() && logs.Valid()
    modifies tasks, subTasks, violations, sessions, logs
    ensures tasks.Valid() && subTasks.Valid() && violations.Valid() && sessions.Valid() && logs.Valid()
    ensures r.Executed? || (r.Reply? && ERROR_PREFIX <= r.message)
    ensures CheckPaymentWindow(lot, now).Err? ==>
              r == ErrorReply(CheckPaymentWindow(lot, now).msg) && tasks.rows == old(tasks.rows)
    ensures CheckPaymentWindow(lot, now).Ok? && NoProviders(groups) && !IsExitEvent(e.eventKey) ==>
              r == Executed(None) && tasks.rows == old(tasks.rows) && subTasks.rows == old(subTasks.rows) &&
              logs.rows == old(logs.rows) && sessions.rows == old(sessions.rows) &&
              violations.rows == old(violations.rows)
    ensures CheckPaymentWindow(lot, now).Ok? && NoProviders(groups) && IsExitEvent(e.eventKey) ==>
              |tasks.rows| == |old(tasks.rows)| + 1 && tasks.rows[|old(tasks.rows)|].featureKey == "NA" &&
              (r.Executed? ==> r.response == Some(Response(1, 0, None)))
    ensures !NoProviders(groups) && r.Executed? ==> (
              CheckPaymentWindow(lot, now).Ok? &&
              var n := |old(tasks.rows)|;
              r.response == Some(Response(|groups|, 0, Some(n + |groups|))) &&
              |tasks.rows| == n + |groups| &&
              forall k :: 0 <= k < |groups| ==>
                ProviderTypeOf(types, groups[k].featureKey).Some? &&
                SameTask(tasks.rows[n + k],
                         PlannedTask(e, groups[k].featureKey, ProviderTypeOf(types, groups[k].featureKey).value,
                                     NextAtForTask(Timing(e), lot, None, CheckPaymentWindow(lot, now).value.status))))
  {
    var result := ExecuteEvent(tasks, subTasks, violations, sessions, logs, types, Some(lot), groups, e, None, now);
    if result.Err? {
      return ErrorReply(result.msg);
    }
    r := Executed(result.value);
  }

  /** The reply to a parking violation when the lot has no enforcement provider. */
  const NOT_CONNECTED := Reply("not connected with any enforcement provider")

  /**
   * The branches of create_session_audit that prepare an event and run it
   * through the task pipeline, with their exceptions turned into replies.
   */
  method AuditPipeline(tasks: TaskTable, subTasks: SubTaskTable, violations: ViolationTable, sessions: SessionTable,
                       logs: SessionLogTable, types: seq<ProviderType>, lot: Lot, groups: seq<FeatureGroup>,
                       e: Event, eventJson: string, amount: Option<int>, now: int, branch: Branch)
    returns (r: Outcome)
    requires tasks.Valid() && subTasks.Valid() && violations.Valid() && sessions.Valid() && logs.Valid()
    requires branch in {CarEntry, CarExit, SpotOccupied, SpotAvailable, ParkingViolation}
    modifies tasks, subTasks, violations, sessions, logs
    ensures tasks.Valid() && subTasks.Valid() && violations.Valid() && sessions.Valid() && logs.Valid()
    ensures r.Executed? || (r.Reply? && (ERROR_PREFIX <= r.message || (branch == ParkingViolation && r == NOT_CONNECTED)))
    ensures CheckPaymentWindow(lot, now).Err? ==> r.Reply? && ERROR_PREFIX <= r.message
    ensures CheckPaymentWindow(lot, now).Err? && branch in {CarExit, SpotAvailable, ParkingViolation} ==>
              r == ErrorReply(CheckPaymentWindow(lot, now).msg) && tasks.rows == old(tasks.rows)
    ensures branch == ParkingViolation && CheckPaymentWindow(lot, now).Ok? && NoProviders(groups) &&
            !IsExitEvent(e.eventKey) ==>
              r == NOT_CONNECTED && tasks.rows == old(tasks.rows) && violations.rows == old(violations.rows)
    ensures branch == ParkingViolation && r.Executed? ==>
              r.response.Some? && |violations.rows| > 0 &&
              var v := ViolationEvent(old(tasks.rows), old(sessions.rows), e);
              violations.rows[|violations.rows| - 1] ==
                ParkingViolationRow(v, r.response.value.taskId.GetOr(0), amount, v.sessionId.value)
                  .(id := |violations.rows|)
  {
    match branch {
      case CarEntry =>
        var prepared := HandleCarEntry(tasks, sessions, logs, types, e, eventJson);
        if prepared.Err? {
          return ErrorReply(prepared.msg);
        }
        r := Execute(tasks, subTasks, violations, sessions, logs, types, lot, groups, prepared.value, now);
      case CarExit =>
        var prepared := HandleCarExit(sessions, e, eventJson);
        r := Execute(tasks, subTasks, violations, sessions, logs, types, lot, groups, prepared, now);
      case SpotOccupied =>
        var prepared := HandleSpotOccupied(tasks, sessions, logs, types, e, eventJson);
        if prepared.Err? {
          return ErrorReply(prepared.msg);
        }
        r := Execute(tasks, subTasks, violations, sessions, logs, types, lot, groups, prepared.value, now);
      case SpotAvailable =>
        var prepared := HandleSpotAvailable(sessions, e, eventJson);
        r := Execute(tasks, subTasks, violations, sessions, logs, types, lot, groups, prepared, now);
      case ParkingViolation =>
        var prepared := HandleParkingViolation(tasks, sessions, e);
        r := Execute(tasks, subTasks, violations, sessions, logs, types, lot, groups, prepared, now);
        if r.Executed? {
          if r.response.None? {
            return NOT_CONNECTED;
          }
          var taskId := r.response.value.taskId.GetOr(0);
          var _ := violations.Create(ParkingViolationRow(prepared, taskId, amount, prepared.sessionId.value));
        }
    }
  }

  /**
   * create_session_audit. The lot, the provider lookup for the event that
   * is executed, the serialised event, the stored entry event of a session
   * re-mapped to a new spot and the violation amount of a parking
   * violation are parameters.
   */
  method CreateSessionAudit(tasks: TaskTable, subTasks: SubTaskTable, violations: ViolationTable,
                            sessions: SessionTable, logs: SessionLogTable, types: seq<ProviderType>, lot: Option<Lot>,
                            groups: seq<FeatureGroup>, e: Event, eventJson: string, entryEvent: Event,
                            amount: Option<int>, now: int)
    returns (r: Outcome)
    requires tasks.Valid() && subTasks.Valid() && violations.Valid() && sessions.Valid() && logs.Valid()
    modifies tasks, subTasks, violations, sessions, logs
    ensures tasks.Valid() && subTasks.Valid() && violations.Valid() && sessions.Valid() && logs.Valid()
    ensures lot.None? ==>
              r == Reply("No parking lot found with ID " + IntToString(e.lotId)) &&
              tasks.rows == old(tasks.rows) && sessions.rows == old(sessions.rows) && logs.rows == old(logs.rows) &&
              violations.rows == old(violations.rows) && subTasks.rows == old(subTasks.rows)
    ensures lot.Some? ==>
              match BranchOf(e, old(sessions.rows))
              case InvalidKey =>
                r == Reply("Invalid event key") &&
                tasks.rows == old(tasks.rows) && sessions.rows == old(sessions.rows) && logs.rows == old(logs.rows) &&
                violations.rows == old(violations.rows) && subTasks.rows == old(subTasks.rows)
              case UnknownEvent =>
                subTasks.rows == old(subTasks.rows) && violations.rows == old(violations.rows) &&
                (match SessionBySpot(old(sessions.rows), SpotText(e.spotId), e.lotId)
                 case None => r == Reply("No session found to close") && sessions.rows == old(sessions.rows)
                 case Some(j) =>
                   sessions.rows == old(sessions.rows)[j := ApplyAttrs(old(sessions.rows)[j], CLOSE_SESSION_ATTRS)] &&
                   (r == NoReply ==> SystemClosed(old(tasks.rows), tasks.rows, j, types)))
              case LprToSpot(k) =>
                old(sessions.rows)[k].isLprToSpot != Some(true) ==>
                  r == Reply("spot mapped to session") &&
                  sessions.rows == old(sessions.rows)[k := old(sessions.rows)[k].(spotId := e.spotId, spotName := e.spotName,
                                                                                 isLprToSpot := Some(true))] &&
                  tasks.rows == MoveSessionSpot(old(tasks.rows), k + 1, e.spotId, e.spotName) &&
                  violations.rows == old(violations.rows) && subTasks.rows == old(subTasks.rows)
              case LprToSpotFree(k) =>
                subTasks.rows == old(subTasks.rows) &&
                (r == Reply("spot free mapped to session") ==>
                   sessions.rows == old(sessions.rows)[k := old(sessions.rows)[k].(isWaitingForPayment := Some(false))] &&
                   SessionClosed(old(tasks.rows), tasks.rows, old(violations.rows), violations.rows, k, types)) &&
                (r != Reply("spot free mapped to session") ==> sessions.rows == old(sessions.rows))
              case _ => true
  {
    if lot.None? {
      return Reply("No parking lot found with ID " + IntToString(e.lotId));
    }
    var branch := BranchOf(e, sessions.rows);
    match branch {
      case LprToSpot(k) =>
        r := AuditLprToSpot(tasks, subTasks, violations, sessions, logs, types, lot.value, groups, e, k, entryEvent, now);
      case LprToSpotFree(k) =>
        r := AuditLprToSpotFree(tasks, violations, sessions, logs, types, e, k);
      case UnknownEvent =>
        r := AuditUnknownEvent(tasks, sessions, logs, types, e);
      case InvalidKey =>
        r := Reply("Invalid event key");
      case _ =>
        r := AuditPipeline(tasks, subTasks, violations, sessions, logs, types, lot.value, groups, e, eventJson,
                           amount, now, branch);
    }
  }
}
