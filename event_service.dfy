/**
 * The event dispatcher. One incoming event of a connected lot becomes one
 * task per feature key of the lot's provider connections, each with one
 * sub-task per connection and, unless the session already shows it, a
 * session-log line. An exit without providers takes a fallback path that
 * still records the exit, and every exit first closes the open violation
 * alerts of its session.
 *
 * The provider lookup, the provider-type table and the clock are
 * parameters; the alert service is an output (the alert ids it is asked
 * to close, in order).
 */
module EventService {
  import opened Wrappers
  import opened Text
  import opened Enums
  import opened Rows
  import opened Common
  import opened ParkingWindow
  import opened TaskModel
  import opened SubTaskModel
  import opened ViolationModel
  import opened SessionModel
  import opened SessionLogModel
  import opened SessionUpdates

  /** The fields of an incoming event that the engine reads. */
  datatype Event = Event(
    lotId: int,
    eventKey: string,
    timestamp: int,
    plate: Option<string>,
    spotId: Option<string>,
    spotName: Option<string>,
    sessionId: Option<int>,
    alertIds: Option<seq<int>>,
    spotGracePeriod: Option<int>,
    disableSpotPayment: Option<bool>,
    manuallyTriggered: Option<bool>,
    lprRecordId: Option<int>,
    spotStatus: Option<string>,
    isUnknown: Option<bool>,
    alertTitle: Option<string>,
    alertTypeId: Option<int>,
    details: Option<string>)

  /** One provider connection of a feature: where its sub-task calls and with which credentials. */
  datatype Connect = Connect(featureUrlPath: nat, credsId: Option<nat>)

  /** The connections of one feature key, as the provider lookup groups them. */
  datatype FeatureGroup = FeatureGroup(featureKey: string, connects: seq<Connect>)

  datatype ProviderType = ProviderType(id: nat, name: string, textKey: string)

  /** The counts execute_event reports, and the id of the last task it created. */
  datatype Response = Response(success: nat, failure: nat, taskId: Option<nat>)

  /** `x if x else None` on an optional text. */
  function NonEmpty(s: Option<string>): (r: Option<string>)
    ensures r.Some? <==> s.Some? && s.value != ""
    ensures r.Some? ==> r == s
  {
    if s.Some? && s.value != "" then s else None
  }

  function Timing(e: Event): EventTiming
  {
    EventTiming(e.timestamp, e.spotGracePeriod, e.plate)
  }

  // ---------------------------------------------------------------- provider types

  /** The part of a feature key before its first '.'. */
  function FeatureFamily(featureKey: string): string
  {
    Split(featureKey, '.')[0]
  }

  /** `name ilike 'prefix%'`. */
  predicate NameStartsWith(name: string, prefix: string)
  {
    Lower(prefix) <= Lower(name)
  }

  /** The provider type of a feature: the first type whose name starts with the feature's family. */
  function ProviderTypeOf(types: seq<ProviderType>, featureKey: string): (r: Option<nat>)
    ensures r.None? <==> forall k :: 0 <= k < |types| ==> !NameStartsWith(types[k].name, FeatureFamily(featureKey))
    ensures r.Some? ==> exists k :: 0 <= k < |types| && types[k].id == r.value &&
                                    NameStartsWith(types[k].name, FeatureFamily(featureKey))
  {
    match FirstWhere(types, (t: ProviderType) => NameStartsWith(t.name, FeatureFamily(featureKey)))
    case Some(k) => Some(types[k].id)
    case None => None
  }

  /** The id of the violation provider type, whose tasks carry alerts. */
  function ViolationProviderType(types: seq<ProviderType>): (r: Option<nat>)
    ensures r.None? <==> forall k :: 0 <= k < |types| ==> types[k].textKey != PROVIDER_VIOLATION
    ensures r.Some? ==> exists k :: 0 <= k < |types| && types[k].id == r.value && types[k].textKey == PROVIDER_VIOLATION
  {
    match FirstWhere(types, (t: ProviderType) => t.textKey == PROVIDER_VIOLATION)
    case Some(k) => Some(types[k].id)
    case None => None
  }

  // ---------------------------------------------------------------- the session-log line

  /** The member name an event type is logged under: the segment after the first '.', or the whole type. */
  function LogActionKey(eventType: string): (key: string)
    ensures '.' !in eventType ==> key == eventType
  {
    if '.' in eventType then Split(eventType, '.')[1] else eventType
  }

  /** The upper-cased log label of an event type; None where the lookup raises. */
  function LogAction(eventType: string): (r: Option<string>)
    ensures r.None? <==> SessionLogLabel(LogActionKey(eventType)).None?
    ensures r.Some? ==> |r.value| == |SessionLogLabel(LogActionKey(eventType)).value|
    ensures r.Some? ==> IsUpperCase(r.value)
  {
    match SessionLogLabel(LogActionKey(eventType))
    case Some(tag) => Some(Upper(tag))
    case None => None
  }

  /** A `family.member` event type logs under its member name. */
  lemma LogActionKeyOfPair(family: string, member: string)
    requires '.' !in family && '.' !in member
    ensures LogActionKey(family + ['.'] + member) == member
  {
    SplitOneSeparator(family, member, '.');
    assert '.' in family + ['.'] + member by {
      assert (family + ['.'] + member)[|family|] == '.';
    }
  }

  // The upper-cased labels of the four grouped events, one word per lemma.

  lemma UpperEntry()
    ensures Upper("Entry") == "ENTRY"
  {
  }

  lemma UpperExit()
    ensures Upper("Exit") == "EXIT"
  {
  }

  lemma UpperOccupied()
    ensures Upper("occupied") == "OCCUPIED"
  {
  }

  lemma UpperFree()
    ensures Upper("free") == "FREE"
  {
  }

  /** A `family.member` event type logs under the upper-cased label of its member. */
  lemma LogActionOfPair(family: string, member: string, tag: string)
    requires '.' !in family && '.' !in member
    requires SessionLogLabel(member) == Some(tag)
    ensures LogAction(family + ['.'] + member) == Some(Upper(tag))
  {
    LogActionKeyOfPair(family, member);
  }

  lemma EntryLogsEntry()
    ensures LogAction(CAR_ENTRY) == Some("ENTRY")
  {
    assert CAR_ENTRY == "car" + ['.'] + "entry";
    assert SessionLogLabel("entry") == Some("Entry");
    LogActionOfPair("car", "entry", "Entry");
    UpperEntry();
  }

  lemma ExitLogsExit()
    ensures LogAction(CAR_EXIT) == Some("EXIT")
  {
    assert CAR_EXIT == "car" + ['.'] + "exit";
    assert SessionLogLabel("exit") == Some("Exit");
    LogActionOfPair("car", "exit", "Exit");
    UpperExit();
  }

  lemma OccupiedLogsOccupied()
    ensures LogAction(SPOT_OCCUPIED) == Some("OCCUPIED")
  {
    assert SPOT_OCCUPIED == "spot" + ['.'] + "occupied";
    assert SessionLogLabel("occupied") == Some("occupied");
    LogActionOfPair("spot", "occupied", "occupied");
    UpperOccupied();
  }

  lemma FreeLogsFree()
    ensures LogAction(SPOT_FREE) == Some("FREE")
  {
    assert SPOT_FREE == "spot" + ['.'] + "free";
    assert SessionLogLabel("free") == Some("free");
    LogActionOfPair("spot", "free", "free");
    UpperFree();
  }

  /** The four grouped spot/LPR events log under their own names. */
  lemma GroupedEventActions()
    ensures LogAction(CAR_ENTRY) == Some("ENTRY") && LogAction(CAR_EXIT) == Some("EXIT")
    ensures LogAction(SPOT_OCCUPIED) == Some("OCCUPIED") && LogAction(SPOT_FREE) == Some("FREE")
  {
    EntryLogsEntry();
    ExitLogsExit();
    OccupiedLogsOccupied();
    FreeLogsFree();
  }

  /** The event types for which execute_event writes no session-log line. */
  predicate IsViolationEvent(eventType: string)
  {
    eventType == PAYMENT_VIOLATION || eventType == OVERSTAY_VIOLATION ||
    eventType == PARKING_VIOLATION || eventType == VIOLATION_INACTIVE
  }

  /** The attributes written on the session with the line; None where the waiting mapping raises. */
  function WaitingAttrs(eventType: string, action: string, windowOpen: bool, disableSpotPayment: Option<bool>)
    : (r: Option<seq<Attr>>)
    ensures r.Some? ==> |r.value| <= 1 && forall a :: a in r.value ==> a.SetWaitingForPayment?
    ensures eventType !in GROUPED_EVENTS ==> r == Some([])
  {
    if !windowOpen && (eventType == SPOT_OCCUPIED || eventType == CAR_ENTRY) then
      Some([SetWaitingForPayment(Some(false))])
    else if eventType in GROUPED_EVENTS && disableSpotPayment != Some(true) then
      match IsWaitingForPayment(action)
      case Some(w) => Some([SetWaitingForPayment(Some(w))])
      case None => None
    else Some([])
  }

  /**
   * An arrival (entry or occupied) marks its session waiting for payment
   * exactly when the payment window is open; a departure always clears it;
   * a lot with spot payment disabled leaves it alone unless the window is
   * closed on an arrival.
   */
  lemma WaitingFollowsEvent(eventType: string, windowOpen: bool, disableSpotPayment: Option<bool>)
    requires eventType in GROUPED_EVENTS
    ensures LogAction(eventType).Some?
    ensures var attrs := WaitingAttrs(eventType, LogAction(eventType).value, windowOpen, disableSpotPayment);
            var arrival := eventType == SPOT_OCCUPIED || eventType == CAR_ENTRY;
            (disableSpotPayment != Some(true) || (arrival && !windowOpen)) ==>
              attrs == Some([SetWaitingForPayment(Some(arrival && windowOpen))])
    ensures var attrs := WaitingAttrs(eventType, LogAction(eventType).value, windowOpen, disableSpotPayment);
            var arrival := eventType == SPOT_OCCUPIED || eventType == CAR_ENTRY;
            disableSpotPayment == Some(true) && !(arrival && !windowOpen) ==> attrs == Some([])
  {
    if eventType == SPOT_OCCUPIED || eventType == CAR_ENTRY {
      WaitingOnArrival(eventType, windowOpen, disableSpotPayment);
    } else {
      WaitingOnDeparture(eventType, windowOpen, disableSpotPayment);
    }
  }

  lemma WaitingOnArrival(eventType: string, windowOpen: bool, disableSpotPayment: Option<bool>)
    requires eventType == SPOT_OCCUPIED || eventType == CAR_ENTRY
    ensures LogAction(eventType).Some?
    ensures var attrs := WaitingAttrs(eventType, LogAction(eventType).value, windowOpen, disableSpotPayment);
            var arrival := eventType == SPOT_OCCUPIED || eventType == CAR_ENTRY;
            (disableSpotPayment != Some(true) || (arrival && !windowOpen)) ==>
              attrs == Some([SetWaitingForPayment(Some(arrival && windowOpen))])
    ensures var attrs := WaitingAttrs(eventType, LogAction(eventType).value, windowOpen, disableSpotPayment);
            var arrival := eventType == SPOT_OCCUPIED || eventType == CAR_ENTRY;
            disableSpotPayment == Some(true) && !(arrival && !windowOpen) ==> attrs == Some([])
  {
    if eventType == CAR_ENTRY {
      EntryLogsEntry();
      WaitingForAction(eventType, "ENTRY", windowOpen, disableSpotPayment, true);
    } else {
      OccupiedLogsOccupied();
      WaitingForAction(eventType, "OCCUPIED", windowOpen, disableSpotPayment, true);
    }
  }

  lemma WaitingOnDeparture(eventType: string, windowOpen: bool, disableSpotPayment: Option<bool>)
    requires eventType in GROUPED_EVENTS && eventType != SPOT_OCCUPIED && eventType != CAR_ENTRY
    ensures LogAction(eventType).Some?
    ensures var attrs := WaitingAttrs(eventType, LogAction(eventType).value, windowOpen, disableSpotPayment);
            var arrival := eventType == SPOT_OCCUPIED || eventType == CAR_ENTRY;
            (disableSpotPayment != Some(true) || (arrival && !windowOpen)) ==>
              attrs == Some([SetWaitingForPayment(Some(arrival && windowOpen))])
    ensures var attrs := WaitingAttrs(eventType, LogAction(eventType).value, windowOpen, disableSpotPayment);
            var arrival := eventType == SPOT_OCCUPIED || eventType == CAR_ENTRY;
            disableSpotPayment == Some(true) && !(arrival && !windowOpen) ==> attrs == Some([])
  {
    if eventType == CAR_EXIT {
      ExitLogsExit();
      WaitingForAction(eventType, "EXIT", windowOpen, disableSpotPayment, false);
    } else {
      assert eventType == SPOT_FREE;
      FreeLogsFree();
      WaitingForAction(eventType, "FREE", windowOpen, disableSpotPayment, false);
    }
  }

  lemma WaitingForAction(eventType: string, action: string, windowOpen: bool, disableSpotPayment: Option<bool>, arrival: bool)
    requires eventType in GROUPED_EVENTS
    requires arrival == (eventType == SPOT_OCCUPIED || eventType == CAR_ENTRY)
    requires IsWaitingForPayment(action) == Some(arrival)
    ensures (disableSpotPayment != Some(true) || (arrival && !windowOpen)) ==>
              WaitingAttrs(eventType, action, windowOpen, disableSpotPayment) == Some([SetWaitingForPayment(Some(arrival && windowOpen))])
    ensures disableSpotPayment == Some(true) && !(arrival && !windowOpen) ==>
              WaitingAttrs(eventType, action, windowOpen, disableSpotPayment) == Some([])
  {
  }

  // ---------------------------------------------------------------- close_alert

  /** A task close_alert selects: the session's violation-provider task whose alert is not CLOSED. */
  predicate AlertTarget(t: Task, sessionId: Option<int>, violationType: int)
  {
    t.sessionId == sessionId && AlertNotClosed(t) && t.providerType == violationType
  }

  /** The stored alert ids; a NULL list holds none. */
  function AlertIdsOf(t: Task): seq<int>
  {
    if t.alertIds.Some? then t.alertIds.value else []
  }

  /** A target with alert ids gets its alert status CLOSED; every other row is left alone. */
  function AlertClose(t: Task, sessionId: Option<int>, violationType: int): (r: Task)
    ensures r == t.(alertStatus := r.alertStatus)
    ensures AlertTarget(t, sessionId, violationType) && AlertIdsOf(t) != [] ==> r.alertStatus == Some(CLOSED)
    ensures !(AlertTarget(t, sessionId, violationType) && AlertIdsOf(t) != []) ==> r == t
  {
    if AlertTarget(t, sessionId, violationType) && AlertIdsOf(t) != [] then t.(alertStatus := Some(CLOSED)) else t
  }

  function AlertClosedRows(rows: seq<Task>, sessionId: Option<int>, violationType: int): (r: seq<Task>)
    ensures |r| == |rows|
    ensures forall i :: 0 <= i < |rows| ==> r[i] == AlertClose(rows[i], sessionId, violationType)
  {
    seq(|rows|, i requires 0 <= i < |rows| => AlertClose(rows[i], sessionId, violationType))
  }

  /** The label of the line logged for each alert of a task. */
  function CloseLabel(t: Task): string
  {
    if t.eventType == OVERSTAY_VIOLATION then LOG_OVERSTAY_ALERT_CLOSED else LOG_PAYMENT_ALERT_CLOSED
  }

  function Repeat(s: string, n: nat): (r: seq<string>)
    ensures |r| == n && forall j :: 0 <= j < n ==> r[j] == s
  {
    seq(n, _ => s)
  }

  /** The alert ids close_alert sends to the alert service, in task-id order. */
  function AlertsToClose(rows: seq<Task>, sessionId: Option<int>, violationType: int): seq<int>
  {
    if rows == [] then []
    else
      var t := rows[|rows| - 1];
      AlertsToClose(rows[..|rows| - 1], sessionId, violationType) +
      (if AlertTarget(t, sessionId, violationType) then AlertIdsOf(t) else [])
  }

  /** The labels of the lines close_alert logs, one per alert id. */
  function CloseLabels(rows: seq<Task>, sessionId: Option<int>, violationType: int): (r: seq<string>)
    ensures |r| == |AlertsToClose(rows, sessionId, violationType)|
    ensures forall l :: l in r ==> l == LOG_PAYMENT_ALERT_CLOSED || l == LOG_OVERSTAY_ALERT_CLOSED
  {
    if rows == [] then []
    else
      var t := rows[|rows| - 1];
      CloseLabels(rows[..|rows| - 1], sessionId, violationType) +
      (if AlertTarget(t, sessionId, violationType) then Repeat(CloseLabel(t), |AlertIdsOf(t)|) else [])
  }

  /** Rows after close_alert send nothing more: a second close_alert is a no-op on the alert service. */
  lemma {:induction false} CloseAlertIdempotent(rows: seq<Task>, sessionId: Option<int>, violationType: int)
    ensures AlertsToClose(AlertClosedRows(rows, sessionId, violationType), sessionId, violationType) == []
    ensures AlertClosedRows(AlertClosedRows(rows, sessionId, violationType), sessionId, violationType) ==
            AlertClosedRows(rows, sessionId, violationType)
  {
    if rows != [] {
      var n := |rows| - 1;
      var closed := AlertClosedRows(rows, sessionId, violationType);
      assert closed[..n] == AlertClosedRows(rows[..n], sessionId, violationType);
      CloseAlertIdempotent(rows[..n], sessionId, violationType);
    }
  }

  /** An alert is sent to the alert service exactly for the alert ids of the selected tasks. */
  lemma {:induction false} AlertsToCloseMeans(rows: seq<Task>, sessionId: Option<int>, violationType: int, a: int)
    ensures a in AlertsToClose(rows, sessionId, violationType) <==>
              exists i :: 0 <= i < |rows| && AlertTarget(rows[i], sessionId, violationType) && a in AlertIdsOf(rows[i])
  {
    if rows != [] {
      var n := |rows| - 1;
      AlertsToCloseMeans(rows[..n], sessionId, violationType, a);
      assert forall i :: 0 <= i < n ==> rows[..n][i] == rows[i];
    }
  }

  /** One more task of the scan adds its own alerts and labels at the end. */
  lemma CloseScanStep(rows: seq<Task>, i: nat, sessionId: Option<int>, violationType: int)
    requires i < |rows|
    ensures AlertsToClose(rows[..i + 1], sessionId, violationType) ==
            AlertsToClose(rows[..i], sessionId, violationType) +
            (if AlertTarget(rows[i], sessionId, violationType) then AlertIdsOf(rows[i]) else [])
    ensures CloseLabels(rows[..i + 1], sessionId, violationType) ==
            CloseLabels(rows[..i], sessionId, violationType) +
            (if AlertTarget(rows[i], sessionId, violationType)
             then Repeat(CloseLabel(rows[i]), |AlertIdsOf(rows[i])|) else [])
  {
    assert rows[..i + 1][..i] == rows[..i];
  }

  /** The lines close_alert appends, numbered from `start + 1`; none without a session id. */
  function AlertLines(start: nat, sessionId: Option<int>, labels: seq<string>): (r: seq<LogEntry>)
    ensures sessionId.None? ==> r == []
    ensures sessionId.Some? ==> |r| == |labels|
  {
    if sessionId.None? then []
    else seq(|labels|, j requires 0 <= j < |labels| =>
           Stored(NewEntry(sessionId.value, labels[j], labels[j], None, None, None), start + j + 1))
  }

  lemma AlertLinesExtend(start: nat, sessionId: Option<int>, labels: seq<string>, l: string)
    requires sessionId.Some?
    ensures AlertLines(start, sessionId, labels + [l]) ==
            AlertLines(start, sessionId, labels) +
            [Stored(NewEntry(sessionId.value, l, l, None, None, None), start + |labels| + 1)]
  {
  }

  /** An open task of the plate in the lot (get_task_car_exit's filter). */
  predicate OpenOfPlate(t: Task, plate: Option<string>, lotId: int)
  {
    t.plate == plate && t.lotId == lotId && IsOpen(t)
  }

  /** An open task of the spot in the lot (get_task_spot_free's filter). */
  predicate OpenOfSpot(t: Task, spotId: Option<string>, lotId: int)
  {
    t.spotId == spotId && t.lotId == lotId && IsOpen(t)
  }

  /**
   * The session close_alert hands back for an exit: that of the oldest
   * open task of the plate when there is a plate, else that of the oldest
   * open task of the spot; none when no such task exists.
   */
  function ExitTaskSession(rows: seq<Task>, plate: Option<string>, spotId: Option<string>, lotId: int)
    : (r: Option<Option<int>>)
    ensures NonEmpty(plate).None? && NonEmpty(spotId).None? ==> r.None?
  {
    if NonEmpty(plate).Some? then
      match FirstWhere(rows, (t: Task) => OpenOfPlate(t, plate, lotId))
      case Some(k) => Some(rows[k].sessionId)
      case None => None
    else if NonEmpty(spotId).Some? then
      match FirstWhere(rows, (t: Task) => OpenOfSpot(t, spotId, lotId))
      case Some(k) => Some(rows[k].sessionId)
      case None => None
    else None
  }

  /**
   * get_task_car_exit finds the session of the first open task of the
   * plate in the lot, or, without a plate, of the spot; there is none
   * exactly when no such task exists.
   */
  lemma ExitTaskSessionFirst(rows: seq<Task>, plate: Option<string>, spotId: Option<string>, lotId: int)
    ensures var r := ExitTaskSession(rows, plate, spotId, lotId);
            (NonEmpty(plate).Some? ==>
               (r.None? <==> forall i :: 0 <= i < |rows| ==> !OpenOfPlate(rows[i], plate, lotId)) &&
               (r.Some? ==>
                  exists i :: 0 <= i < |rows| && OpenOfPlate(rows[i], plate, lotId) && rows[i].sessionId == r.value &&
                              forall j :: 0 <= j < i ==> !OpenOfPlate(rows[j], plate, lotId))) &&
            (NonEmpty(plate).None? && NonEmpty(spotId).Some? ==>
               (r.None? <==> forall i :: 0 <= i < |rows| ==> !OpenOfSpot(rows[i], spotId, lotId)) &&
               (r.Some? ==>
                  exists i :: 0 <= i < |rows| && OpenOfSpot(rows[i], spotId, lotId) && rows[i].sessionId == r.value &&
                              forall j :: 0 <= j < i ==> !OpenOfSpot(rows[j], spotId, lotId)))
  {
  }

  /** The session close_alert leaves on the task it was given: the one the exit is attributed to, else its own. */
  function AttributedSession(rows: seq<Task>, t: Task): Option<int>
  {
    ExitTaskSession(rows, t.plate, t.spotId, t.lotId).GetOr(t.sessionId)
  }

  /**
   * The task rows after close_alert on the stored task at row k: the
   * alerts of its session's violation tasks close, and the task itself
   * takes the attributed session, which the next commit writes back.
   */
  function AlertClosedOn(rows: seq<Task>, k: nat, violationType: int): (r: seq<Task>)
    requires k < |rows|
    ensures |r| == |rows|
    ensures r[k] == AlertClose(rows[k], rows[k].sessionId, violationType).(sessionId := AttributedSession(rows, rows[k]))
    ensures forall i :: 0 <= i < |rows| && i != k ==> r[i] == AlertClose(rows[i], rows[k].sessionId, violationType)
  {
    var closed := AlertClosedRows(rows, rows[k].sessionId, violationType);
    closed[k := closed[k].(sessionId := AttributedSession(rows, rows[k]))]
  }

  lemma AlertLinesAppend(start: nat, sessionId: Option<int>, a: seq<string>, b: seq<string>)
    ensures AlertLines(start, sessionId, a + b) ==
            AlertLines(start, sessionId, a) + AlertLines(start + |a|, sessionId, b)
  {
  }

  /**
   * The inner loop of close_alert for the task at index i: each of its
   * alert ids is sent, a close line is logged for it and the task's alert
   * status becomes CLOSED.
   */
  method CloseTaskAlerts(tasks: TaskTable, sessions: SessionTable, logs: SessionLogTable, i: nat,
                         sessionId: Option<int>)
    returns (sent: seq<int>)
    requires tasks.Valid() && sessions.Valid() && logs.Valid() && i < |tasks.rows|
    requires AlertIdsOf(tasks.rows[i]) != []
    modifies tasks, sessions, logs
    ensures tasks.Valid() && sessions.Valid() && logs.Valid()
    ensures sessions.rows == old(sessions.rows)
    ensures tasks.rows == old(tasks.rows)[i := old(tasks.rows)[i].(alertStatus := Some(CLOSED))]
    ensures sent == AlertIdsOf(old(tasks.rows)[i])
    ensures logs.rows == old(logs.rows) +
                         AlertLines(|old(logs.rows)|, sessionId, Repeat(CloseLabel(old(tasks.rows)[i]), |sent|))
  {
    var ids := AlertIdsOf(tasks.rows[i]);
    var tag := CloseLabel(tasks.rows[i]);
    ghost var t0, s0, logs0 := tasks.rows, sessions.rows, logs.rows;
    sent := [];
    var j := 0;
    while j < |ids|
      invariant 0 <= j <= |ids| && sent == ids[..j]
      invariant tasks.Valid() && sessions.Valid() && logs.Valid()
      invariant sessions.rows == s0
      invariant tasks.rows == (if j == 0 then t0 else t0[i := t0[i].(alertStatus := Some(CLOSED))])
      invariant logs.rows == logs0 + AlertLines(|logs0|, sessionId, Repeat(tag, j))
    {
      sent := sent + [ids[j]];
      CloseOneAlert(tasks, sessions, logs, i, sessionId, tag, t0, s0, logs0, j);
      assert ids[..j + 1] == ids[..j] + [ids[j]];
      j := j + 1;
    }
    assert ids[..j] == ids;
  }

  /** One pass of close_task_alerts: the close line for the next alert id, and the task's alert status. */
  method CloseOneAlert(tasks: TaskTable, sessions: SessionTable, logs: SessionLogTable, i: nat,
                       sessionId: Option<int>, tag: string, ghost t0: seq<Task>, ghost s0: seq<Session>,
                       ghost logs0: seq<LogEntry>, ghost j: nat)
    requires tasks.Valid() && sessions.Valid() && logs.Valid() && i < |t0| && tag == CloseLabel(t0[i])
    requires sessions.rows == s0
    requires tasks.rows == (if j == 0 then t0 else t0[i := t0[i].(alertStatus := Some(CLOSED))])
    requires logs.rows == logs0 + AlertLines(|logs0|, sessionId, Repeat(tag, j))
    modifies tasks, sessions, logs
    ensures tasks.Valid() && sessions.Valid() && logs.Valid()
    ensures sessions.rows == s0
    ensures tasks.rows == t0[i := t0[i].(alertStatus := Some(CLOSED))]
    ensures logs.rows == logs0 + AlertLines(|logs0|, sessionId, Repeat(tag, j + 1))
  {
    if sessionId.Some? {
      OtherActionsAppend(logs.rows, NewEntry(sessionId.value, tag, tag, None, None, None));
      AlertLinesExtend(|logs0|, sessionId, Repeat(tag, j), tag);
      assert Repeat(tag, j + 1) == Repeat(tag, j) + [tag];
    }
    var _ := CreateSessionLogs(sessions, logs, sessionId, tag, tag, None, None, None, None, None);
    tasks.UpdateAlertStatus(i, Some(CLOSED));
  }

  /** The state of close_alert's scan after the first i tasks of `rows0`. */
  ghost predicate Scanned(rows: seq<Task>, logs: seq<LogEntry>, rows0: seq<Task>, logs0: seq<LogEntry>, i: nat,
                          sessionId: Option<int>, violationType: int)
  {
    i <= |rows0| && |rows| == |rows0| &&
    (forall k :: 0 <= k < i ==> rows[k] == AlertClose(rows0[k], sessionId, violationType)) &&
    (forall k :: i <= k < |rows0| ==> rows[k] == rows0[k]) &&
    logs == logs0 + AlertLines(|logs0|, sessionId, CloseLabels(rows0[..i], sessionId, violationType))
  }

  /** One step of close_alert's scan: the task at index i sends, logs and closes its alerts if selected. */
  method CloseScanTask(tasks: TaskTable, sessions: SessionTable, logs: SessionLogTable, i: nat,
                       sessionId: Option<int>, violationType: int, ghost rows0: seq<Task>, ghost logs0: seq<LogEntry>)
    returns (sent: seq<int>)
    requires tasks.Valid() && sessions.Valid() && logs.Valid()
    requires i < |rows0| && Scanned(tasks.rows, logs.rows, rows0, logs0, i, sessionId, violationType)
    modifies tasks, sessions, logs
    ensures tasks.Valid() && sessions.Valid() && logs.Valid()
    ensures sessions.rows == old(sessions.rows)
    ensures Scanned(tasks.rows, logs.rows, rows0, logs0, i + 1, sessionId, violationType)
    ensures sent == (if AlertTarget(rows0[i], sessionId, violationType) then AlertIdsOf(rows0[i]) else [])
  {
    var t := tasks.rows[i];
    ghost var rows, done := tasks.rows, CloseLabels(rows0[..i], sessionId, violationType);
    assert t == rows0[i];
    CloseScanStep(rows0, i, sessionId, violationType);
    if AlertTarget(t, sessionId, violationType) && AlertIdsOf(t) != [] {
      ghost var mid := logs.rows;
      sent := CloseTaskAlerts(tasks, sessions, logs, i, sessionId);
      ScanLogsNext(mid, logs.rows, logs0, sessionId, done, Repeat(CloseLabel(t), |sent|));
      ScannedNext(rows, tasks.rows, logs.rows, rows0, logs0, i, sessionId, violationType);
    } else {
      sent := [];
      assert CloseLabels(rows0[..i + 1], sessionId, violationType) == done;
      assert rows[i := AlertClose(rows0[i], sessionId, violationType)] == rows;
      ScannedNext(rows, tasks.rows, logs.rows, rows0, logs0, i, sessionId, violationType);
    }
  }

  /** The close lines of one more task follow those of the tasks before it. */
  lemma ScanLogsNext(mid: seq<LogEntry>, logs: seq<LogEntry>, logs0: seq<LogEntry>, sessionId: Option<int>,
                     done: seq<string>, more: seq<string>)
    requires mid == logs0 + AlertLines(|logs0|, sessionId, done)
    requires logs == mid + AlertLines(|mid|, sessionId, more)
    ensures logs == logs0 + AlertLines(|logs0|, sessionId, done + more)
  {
    AlertLinesAppend(|logs0|, sessionId, done, more);
    if sessionId.Some? {
      assert |mid| == |logs0| + |done|;
    }
  }

  /** The task rows of the scan one index further on. */
  lemma ScannedNext(rows: seq<Task>, next: seq<Task>, logs: seq<LogEntry>, rows0: seq<Task>, logs0: seq<LogEntry>,
                    i: nat, sessionId: Option<int>, violationType: int)
    requires i < |rows0| && |rows| == |rows0|
    requires forall k :: 0 <= k < i ==> rows[k] == AlertClose(rows0[k], sessionId, violationType)
    requires forall k :: i <= k < |rows0| ==> rows[k] == rows0[k]
    requires next == rows[i := AlertClose(rows0[i], sessionId, violationType)]
    requires logs == logs0 + AlertLines(|logs0|, sessionId, CloseLabels(rows0[..i + 1], sessionId, violationType))
    ensures Scanned(next, logs, rows0, logs0, i + 1, sessionId, violationType)
  {
  }

  /**
   * close_alert: for every selected task with alert ids, each alert is sent
   * to the alert service, a close line is logged and the task's alert
   * status becomes CLOSED. Returns the alerts sent and the session id the
   * exit is attributed to. A missing violation provider type raises before
   * anything changes.
   */
  method CloseAlert(tasks: TaskTable, sessions: SessionTable, logs: SessionLogTable, types: seq<ProviderType>,
                    sessionId: Option<int>, plate: Option<string>, spotId: Option<string>, lotId: int)
    returns (r: Result<(seq<int>, Option<int>)>)
    requires tasks.Valid() && sessions.Valid() && logs.Valid()
    modifies tasks, sessions, logs
    ensures tasks.Valid() && sessions.Valid() && logs.Valid()
    ensures sessions.rows == old(sessions.rows)
    ensures ViolationProviderType(types).None? ==>
              r.Err? && tasks.rows == old(tasks.rows) && logs.rows == old(logs.rows)
    ensures ViolationProviderType(types).Some? ==> (
              var vt := ViolationProviderType(types).value;
              r.Ok? &&
              tasks.rows == AlertClosedRows(old(tasks.rows), sessionId, vt) &&
              r.value.0 == AlertsToClose(old(tasks.rows), sessionId, vt) &&
              logs.rows == old(logs.rows) +
                           AlertLines(|old(logs.rows)|, sessionId, CloseLabels(old(tasks.rows), sessionId, vt)) &&
              r.value.1 == ExitTaskSession(old(tasks.rows), plate, spotId, lotId).GetOr(sessionId))
  {
    var found := ViolationProviderType(types);
    if found.None? {
      return Err(NO_ID);
    }
    // The lookup reads no alert status, the only column the loop writes.
    var attributed := ExitTaskSession(tasks.rows, plate, spotId, lotId).GetOr(sessionId);
    var alerts := CloseAlertsOfSession(tasks, sessions, logs, sessionId, found.value);
    r := Ok((alerts, attributed));
  }

  /**
   * The loop of close_alert: every violation task of the session with
   * alert ids has each id sent, a close line logged for it and its alert
   * status set to CLOSED; the sent ids are returned in table order.
   */
  method CloseAlertsOfSession(tasks: TaskTable, sessions: SessionTable, logs: SessionLogTable,
                              sessionId: Option<int>, vt: int)
    returns (alerts: seq<int>)
    requires tasks.Valid() && sessions.Valid() && logs.Valid()
    modifies tasks, sessions, logs
    ensures tasks.Valid() && sessions.Valid() && logs.Valid()
    ensures sessions.rows == old(sessions.rows)
    ensures tasks.rows == AlertClosedRows(old(tasks.rows), sessionId, vt)
    ensures alerts == AlertsToClose(old(tasks.rows), sessionId, vt)
    ensures logs.rows == old(logs.rows) + AlertLines(|old(logs.rows)|, sessionId, CloseLabels(old(tasks.rows), sessionId, vt))
  {
    ghost var rows0 := tasks.rows;
    ghost var logs0 := logs.rows;
    assert rows0[..0] == [];
    alerts := [];
    var i := 0;
    while i < |tasks.rows|
      invariant 0 <= i <= |tasks.rows| == |rows0|
      invariant tasks.Valid() && sessions.Valid() && logs.Valid()
      invariant sessions.rows == old(sessions.rows)
      invariant Scanned(tasks.rows, logs.rows, rows0, logs0, i, sessionId, vt)
      invariant alerts == AlertsToClose(rows0[..i], sessionId, vt)
    {
      CloseScanStep(rows0, i, sessionId, vt);
      var sent := CloseScanTask(tasks, sessions, logs, i, sessionId, vt, rows0, logs0);
      alerts := alerts + sent;
      i := i + 1;
    }
    ScannedAll(tasks.rows, logs.rows, rows0, logs0, sessionId, vt);
  }

  /** A scan that has gone through every task leaves the closed rows and all the close lines. */
  lemma ScannedAll(rows: seq<Task>, logs: seq<LogEntry>, rows0: seq<Task>, logs0: seq<LogEntry>,
                   sessionId: Option<int>, violationType: int)
    requires Scanned(rows, logs, rows0, logs0, |rows0|, sessionId, violationType)
    ensures rows0[..|rows0|] == rows0
    ensures rows == AlertClosedRows(rows0, sessionId, violationType)
    ensures logs == logs0 + AlertLines(|logs0|, sessionId, CloseLabels(rows0, sessionId, violationType))
  {
    assert rows0[..|rows0|] == rows0;
  }

  // ---------------------------------------------------------------- creating a task

  /** The attributes an exit writes on its session. */
  const CLOSE_SESSION_ATTRS: seq<Attr> := [SetActive(false), SetWaitingForPayment(Some(false))]

  /** The rows Task.create_task's exit rules leave behind a freshly inserted task. */
  function ExitRuleRows(rows: seq<Task>, created: Task): (r: seq<Task>)
    ensures |r| == |rows|
    ensures forall i :: 0 <= i < |rows| ==> r[i] == rows[i].(status := r[i].status)
    ensures created.eventType != CAR_EXIT && created.eventType != SPOT_FREE ==> r == rows
  {
    if created.eventType == CAR_EXIT then ClosePlateRows(rows, created.lotId, created.plate)
    else if created.eventType == SPOT_FREE then CloseSpotRows(rows, created.lotId, created.spotId, created.sessionId)
    else rows
  }

  /**
   * A new car.exit task stays PENDING while every other open task of that
   * plate in the lot, except violation inactivations and other exits, is
   * CLOSED; likewise for spot.free on the spot's session.
   */
  lemma ExitClosesItsVehicle(rows: seq<Task>, created: Task, i: nat)
    requires created.status == Pending && created.eventType == CAR_EXIT
    requires i < |rows| + 1
    ensures ExitRuleRows(rows + [created], created)[|rows|].status == Pending
    ensures var t := (rows + [created])[i];
            PlateCloseTarget(t, created.lotId, created.plate) && t.eventType != CAR_EXIT ==>
              ExitRuleRows(rows + [created], created)[i].status == Closed
  {
  }

  lemma FreeClosesItsSpot(rows: seq<Task>, created: Task, i: nat)
    requires created.status == Pending && created.eventType == SPOT_FREE
    requires i < |rows| + 1
    ensures ExitRuleRows(rows + [created], created)[|rows|].status == Pending
    ensures var t := (rows + [created])[i];
            SpotCloseTarget(t, created.lotId, created.spotId, created.sessionId) && t.eventType != SPOT_FREE ==>
              ExitRuleRows(rows + [created], created)[i].status == Closed
  {
  }

  /** The sub-tasks created for a task, one PENDING row per connection, numbered from `start + 1`. */
  function SubTasksFor(start: nat, taskId: nat, connects: seq<Connect>): (r: seq<SubTask>)
    ensures |r| == |connects|
    ensures forall k :: 0 <= k < |r| ==> r[k].taskId == taskId && r[k].status == Pending && r[k].id == start + k + 1
  {
    seq(|connects|, k requires 0 <= k < |connects| =>
      SubTask(start + k + 1, Pending, taskId, connects[k].featureUrlPath, connects[k].credsId))
  }

  /** The session writes of an exit: the session named by the task, if it exists, is deactivated. */
  function ExitSessionRows(rows: seq<Session>, t: Task): (r: seq<Session>)
    ensures |r| == |rows|
    ensures t.eventType != CAR_EXIT && t.eventType != SPOT_FREE ==> r == rows
    ensures forall i :: 0 <= i < |rows| && !(t.sessionId == Some(i + 1)) ==> r[i] == rows[i]
    ensures (t.eventType == CAR_EXIT || t.eventType == SPOT_FREE) && t.sessionId.Some? &&
            1 <= t.sessionId.value <= |rows| ==>
              !r[t.sessionId.value - 1].isActive && r[t.sessionId.value - 1].isWaitingForPayment == Some(false)
  {
    if (t.eventType == CAR_EXIT || t.eventType == SPOT_FREE) && t.sessionId.Some? && 1 <= t.sessionId.value <= |rows|
    then
      ApplyAttrsLastWins(rows[t.sessionId.value - 1], CLOSE_SESSION_ATTRS);
      rows[t.sessionId.value - 1 := ApplyAttrs(rows[t.sessionId.value - 1], CLOSE_SESSION_ATTRS)]
    else rows
  }

  /** The ids of the given tasks, in order. */
  function IdsOf(ts: seq<Task>): (r: seq<nat>)
    ensures |r| == |ts| && forall j :: 0 <= j < |ts| ==> r[j] == ts[j].id
  {
    seq(|ts|, j requires 0 <= j < |ts| => ts[j].id)
  }

  /** The sub-task rows after execute_violation_before_exit for the exiting session. */
  function StartedBeforeExit(subRows: seq<SubTask>, rows: seq<Task>, sessionId: Option<int>): (r: seq<SubTask>)
    ensures |r| == |subRows|
  {
    StartEach(subRows, IdsOf(ViolationTasksOfSession(rows, sessionId)))
  }

  /**
   * execute_violation_before_exit for each open notify or citation task of
   * the exiting session: its sub-tasks are taken for processing and become
   * IN_PROGRESS. The feature processors that then run are not modelled.
   */
  method StartViolationsBeforeExit(tasks: TaskTable, subTasks: SubTaskTable, sessionId: Option<int>)
    requires subTasks.Valid()
    modifies subTasks
    ensures subTasks.Valid()
    ensures subTasks.rows == StartedBeforeExit(old(subTasks.rows), tasks.rows, sessionId)
  {
    var pending := ViolationTasksOfSession(tasks.rows, sessionId);
    var ids := IdsOf(pending);
    var j := 0;
    while j < |pending|
      invariant 0 <= j <= |pending|
      invariant subTasks.Valid()
      invariant subTasks.rows == StartEach(old(subTasks.rows), ids[..j])
    {
      assert ids[..j + 1][..j] == ids[..j];
      var _ := subTasks.GetSubTaskToProcess(pending[j].id);
      j := j + 1;
    }
    assert ids[..j] == ids;
  }

  /**
   * Task.create_task's exit rules, applied after the insert of `created`.
   * On car.exit the session's violation tasks are first taken for
   * processing; then the plate's (or the spot's) open tasks close, the
   * violation's session column is set to CLOSE and the session stops
   * being active and waiting for payment.
   */
  method ApplyExitRules(tasks: TaskTable, subTasks: SubTaskTable, violations: ViolationTable, sessions: SessionTable,
                        created: Task)
    requires tasks.Valid() && subTasks.Valid() && violations.Valid() && sessions.Valid()
    modifies tasks, subTasks, violations, sessions
    ensures tasks.Valid() && subTasks.Valid() && violations.Valid() && sessions.Valid()
    ensures tasks.rows == ExitRuleRows(old(tasks.rows), created)
    ensures created.eventType == CAR_EXIT ==>
              subTasks.rows == StartedBeforeExit(old(subTasks.rows), old(tasks.rows), created.sessionId) &&
              violations.rows == SessionMarked(old(violations.rows), created.plate, "CLOSE")
    ensures created.eventType != CAR_EXIT ==> subTasks.rows == old(subTasks.rows)
    ensures created.eventType == SPOT_FREE ==>
              violations.rows == SpotSessionMarked(old(violations.rows), created.spotId, created.sessionId, "CLOSE")
    ensures created.eventType != CAR_EXIT && created.eventType != SPOT_FREE ==> violations.rows == old(violations.rows)
    ensures sessions.rows == ExitSessionRows(old(sessions.rows), created)
  {
    if created.eventType == CAR_EXIT {
      CloseOnCarExit(tasks, subTasks, violations, sessions, created);
    } else if created.eventType == SPOT_FREE {
      CloseOnSpotFree(tasks, violations, sessions, created);
    }
  }

  /** The car.exit branch of the exit rules. */
  method CloseOnCarExit(tasks: TaskTable, subTasks: SubTaskTable, violations: ViolationTable, sessions: SessionTable,
                        created: Task)
    requires tasks.Valid() && subTasks.Valid() && violations.Valid() && sessions.Valid()
    requires created.eventType == CAR_EXIT
    modifies tasks, subTasks, violations, sessions
    ensures tasks.Valid() && subTasks.Valid() && violations.Valid() && sessions.Valid()
    ensures tasks.rows == ExitRuleRows(old(tasks.rows), created)
    ensures subTasks.rows == StartedBeforeExit(old(subTasks.rows), old(tasks.rows), created.sessionId)
    ensures violations.rows == SessionMarked(old(violations.rows), created.plate, "CLOSE")
    ensures sessions.rows == ExitSessionRows(old(sessions.rows), created)
  {
    StartViolationsBeforeExit(tasks, subTasks, created.sessionId);
    tasks.CloseTaskWithPlateNumber(created.lotId, created.plate);
    var _ := violations.UpdateSession(created.plate, "CLOSE");
    if created.sessionId.Some? {
      var _ := sessions.UpdateAttributes(created.sessionId.value, CLOSE_SESSION_ATTRS);
    }
  }

  /** The spot.free branch of the exit rules. */
  method CloseOnSpotFree(tasks: TaskTable, violations: ViolationTable, sessions: SessionTable, created: Task)
    requires tasks.Valid() && violations.Valid() && sessions.Valid()
    requires created.eventType == SPOT_FREE
    modifies tasks, violations, sessions
    ensures tasks.Valid() && violations.Valid() && sessions.Valid()
    ensures tasks.rows == ExitRuleRows(old(tasks.rows), created)
    ensures violations.rows == SpotSessionMarked(old(violations.rows), created.spotId, created.sessionId, "CLOSE")
    ensures sessions.rows == ExitSessionRows(old(sessions.rows), created)
  {
    tasks.CloseTaskWithSpotId(created.lotId, created.spotId, created.sessionId);
    var _ := violations.UpdateSessionBySpotId(created.spotId, created.sessionId, "CLOSE");
    if created.sessionId.Some? {
      var _ := sessions.UpdateAttributes(created.sessionId.value, CLOSE_SESSION_ATTRS);
    }
  }

  /** create_sub_task for each connection, in order. */
  method CreateSubTasks(subTasks: SubTaskTable, taskId: nat, connects: seq<Connect>)
    requires subTasks.Valid()
    modifies subTasks
    ensures subTasks.Valid()
    ensures subTasks.rows == old(subTasks.rows) + SubTasksFor(|old(subTasks.rows)|, taskId, connects)
  {
    var j := 0;
    while j < |connects|
      invariant 0 <= j <= |connects|
      invariant subTasks.Valid()
      invariant subTasks.rows == old(subTasks.rows) + SubTasksFor(|old(subTasks.rows)|, taskId, connects[..j])
    {
      var _ := subTasks.Insert(taskId, connects[j].featureUrlPath, connects[j].credsId);
      assert SubTasksFor(|old(subTasks.rows)|, taskId, connects[..j + 1]) ==
             SubTasksFor(|old(subTasks.rows)|, taskId, connects[..j]) +
             [SubTask(|old(subTasks.rows)| + j + 1, Pending, taskId, connects[j].featureUrlPath, connects[j].credsId)];
      j := j + 1;
    }
    assert connects[..j] == connects;
  }

  /**
   * TaskService.create_task over Task.create_task: insert the task, apply
   * the exit rules (plate or spot tasks, the violation's session column,
   * the session itself), then one sub-task per connection.
   */
  method CreateTask(tasks: TaskTable, subTasks: SubTaskTable, violations: ViolationTable, sessions: SessionTable,
                    t: Task, connects: seq<Connect>)
    returns (created: Task)
    requires tasks.Valid() && subTasks.Valid() && violations.Valid() && sessions.Valid()
    modifies tasks, subTasks, violations, sessions
    ensures tasks.Valid() && subTasks.Valid() && violations.Valid() && sessions.Valid()
    ensures created == t.(id := |old(tasks.rows)| + 1)
    ensures tasks.rows == ExitRuleRows(old(tasks.rows) + [created], created)
    ensures var started := if t.eventType == CAR_EXIT
                           then StartedBeforeExit(old(subTasks.rows), old(tasks.rows) + [created], t.sessionId)
                           else old(subTasks.rows);
            subTasks.rows == started + SubTasksFor(|old(subTasks.rows)|, created.id, connects)
    ensures t.eventType == CAR_EXIT ==> violations.rows == SessionMarked(old(violations.rows), t.plate, "CLOSE")
    ensures t.eventType == SPOT_FREE ==>
              violations.rows == SpotSessionMarked(old(violations.rows), t.spotId, t.sessionId, "CLOSE")
    ensures t.eventType != CAR_EXIT && t.eventType != SPOT_FREE ==> violations.rows == old(violations.rows)
    ensures sessions.rows == ExitSessionRows(old(sessions.rows), t)
  {
    var id := tasks.Insert(t);
    created := t.(id := id);
    ApplyExitRules(tasks, subTasks, violations, sessions, created);
    CreateSubTasks(subTasks, id, connects);
  }

  // ---------------------------------------------------------------- execute_event

  /** The task execute_event builds for one feature key. */
  function PlannedTask(e: Event, featureKey: string, providerType: nat, nextAt: int): Task
  {
    Task(0, Pending, e.eventKey, e.lotId, NonEmpty(e.spotId), NonEmpty(e.spotName), Some(nextAt), NonEmpty(e.plate),
         featureKey, e.alertIds, e.sessionId, providerType, None)
  }

  /**
   * The first loop of execute_event: one task per feature key. Each task's
   * next_at is computed from the previous one, so every task of the event
   * falls due at the same time. An unknown provider type raises.
   */
  method BuildTasks(types: seq<ProviderType>, lot: Lot, windowOpen: bool, e: Event, groups: seq<FeatureGroup>,
                    timestamp: Option<int>)
    returns (r: Result<seq<Task>>)
    ensures r.Err? <==> exists k :: 0 <= k < |groups| && ProviderTypeOf(types, groups[k].featureKey).None?
    ensures r.Ok? ==> (|r.value| == |groups| &&
              forall k :: 0 <= k < |groups| ==>
                ProviderTypeOf(types, groups[k].featureKey).Some? &&
                r.value[k] == PlannedTask(e, groups[k].featureKey, ProviderTypeOf(types, groups[k].featureKey).value,
                                          NextAtForTask(Timing(e), lot, timestamp, windowOpen)))
  {
    ghost var due := NextAtForTask(Timing(e), lot, timestamp, windowOpen);
    var planned: seq<Task> := [];
    var ts := timestamp;
    var k := 0;
    while k < |groups|
      invariant 0 <= k <= |groups|
      invariant k > 0 ==> ts == Some(due)
      invariant k == 0 ==> ts == timestamp
      invariant PlannedUpTo(planned, types, e, groups, due, k)
    {
      var pt := ProviderTypeOf(types, groups[k].featureKey);
      if pt.None? {
        return Err(NO_ID);
      }
      var nextAt := NextAtForTask(Timing(e), lot, ts, windowOpen);
      ts := Some(nextAt);
      PlannedUpToExtend(planned, types, e, groups, due, k, PlannedTask(e, groups[k].featureKey, pt.value, nextAt));
      planned := planned + [PlannedTask(e, groups[k].featureKey, pt.value, nextAt)];
      k := k + 1;
    }
    r := Ok(planned);
  }

  /** The first `k` tasks are planned, one per feature key, all due at `due`. */
  predicate PlannedUpTo(planned: seq<Task>, types: seq<ProviderType>, e: Event, groups: seq<FeatureGroup>, due: int,
                        k: nat)
  {
    |planned| == k <= |groups| &&
    forall m :: 0 <= m < k ==>
      ProviderTypeOf(types, groups[m].featureKey).Some? &&
      planned[m] == PlannedTask(e, groups[m].featureKey, ProviderTypeOf(types, groups[m].featureKey).value, due)
  }

  lemma PlannedUpToExtend(planned: seq<Task>, types: seq<ProviderType>, e: Event, groups: seq<FeatureGroup>,
                          due: int, k: nat, t: Task)
    requires PlannedUpTo(planned, types, e, groups, due, k) && k < |groups|
    requires ProviderTypeOf(types, groups[k].featureKey).Some?
    requires t == PlannedTask(e, groups[k].featureKey, ProviderTypeOf(types, groups[k].featureKey).value, due)
    ensures PlannedUpTo(planned + [t], types, e, groups, due, k + 1)
  {
    forall m | 0 <= m < k + 1
      ensures ProviderTypeOf(types, groups[m].featureKey).Some? &&
              (planned + [t])[m] == PlannedTask(e, groups[m].featureKey, ProviderTypeOf(types, groups[m].featureKey).value, due)
    {
      if m < k {
        assert (planned + [t])[m] == planned[m];
      }
    }
  }

  /** Which task columns stay as built: everything but the id, the status and alert columns and the session. */
  predicate SameTask(a: Task, b: Task)
  {
    a.eventType == b.eventType && a.lotId == b.lotId && a.featureKey == b.featureKey &&
    a.nextAt == b.nextAt && a.plate == b.plate && a.spotId == b.spotId && a.providerType == b.providerType
  }

  /** Between two states of the task table: rows were appended, and old rows changed at most status and alert status. */
  predicate OnlyStatusesChange(before: seq<Task>, after: seq<Task>)
  {
    |before| <= |after| &&
    forall i :: 0 <= i < |before| ==>
      after[i] == before[i].(status := after[i].status, alertStatus := after[i].alertStatus)
  }

  /** The session a planned task is logged and created under: on an exit, the one close_alert attributes it to. */
  function LineSession(rows: seq<Task>, planned: Task): Option<int>
  {
    if IsExitEvent(planned.eventType) then AttributedSession(rows, planned) else planned.sessionId
  }

  /** The log as it stands when a planned task's session line is due: on an exit, close_alert's lines come first. */
  function LogBeforeLine(rows: seq<Task>, logs: seq<LogEntry>, types: seq<ProviderType>, planned: Task)
    : seq<LogEntry>
  {
    if IsExitEvent(planned.eventType)
    then logs + AlertLines(|logs|, planned.sessionId,
                           CloseLabels(rows, planned.sessionId, ViolationProviderType(types).GetOr(0)))
    else logs
  }

  /** The capitalised action of a planned task's session line. */
  function LineAction(planned: Task): string
  {
    Capitalize(LogAction(planned.eventType).GetOr(""))
  }

  /**
   * Whether execute_event writes a planned task's session line: the event
   * is no violation, and the session shows no entry or exit line like the
   * task's action.
   */
  predicate WritesLine(rows: seq<Task>, logs: seq<LogEntry>, types: seq<ProviderType>, planned: Task)
  {
    var sid := LineSession(rows, planned);
    !(sid.Some? && EntryOrExitLogged(LogBeforeLine(rows, logs, types, planned), sid.value,
                                     LogAction(planned.eventType).GetOr(""))) &&
    !IsViolationEvent(planned.eventType)
  }

  /**
   * What a planned task needs to get past its session line: a log label,
   * on an exit a violation provider to close alerts with, and a
   * waiting-for-payment mapping for its action.
   */
  predicate LineReady(types: seq<ProviderType>, planned: Task, windowOpen: bool, disableSpotPayment: Option<bool>)
  {
    LogAction(planned.eventType).Some? &&
    (IsExitEvent(planned.eventType) ==> ViolationProviderType(types).Some?) &&
    WaitingAttrs(planned.eventType, LogAction(planned.eventType).value, windowOpen, disableSpotPayment).Some?
  }

  /** The log after a planned task's session step: close_alert's lines on an exit, then its session line when written. */
  function LineLogs(rows: seq<Task>, logs: seq<LogEntry>, types: seq<ProviderType>, planned: Task,
                    description: Option<string>, eventAt: int): (r: seq<LogEntry>)
    ensures logs <= r
    ensures !IsExitEvent(planned.eventType) && IsViolationEvent(planned.eventType) ==> r == logs
    ensures !IsExitEvent(planned.eventType) && WritesLine(rows, logs, types, planned) &&
            planned.sessionId.Some? && Suppressed(logs, NewEntry(planned.sessionId.value, LineAction(planned),
                                                                 description.GetOr(LineAction(planned)),
                                                                 None, None, Some(eventAt))).None? ==>
              |r| == |logs| + 1 && r[|logs|].sessionId == planned.sessionId.value &&
              r[|logs|].actionType == LineAction(planned) &&
              r[|logs|].description == description.GetOr(LineAction(planned))
  {
    var before := LogBeforeLine(rows, logs, types, planned);
    if WritesLine(rows, logs, types, planned)
    then LoggedRows(before, LineSession(rows, planned), LineAction(planned), description.GetOr(LineAction(planned)),
                    Some(eventAt))
    else before
  }

  /** The description carried on after a planned task: its own line's description once a line is written. */
  function LineCarried(rows: seq<Task>, logs: seq<LogEntry>, types: seq<ProviderType>, planned: Task,
                       description: Option<string>): (r: Option<string>)
    ensures description.Some? ==> r == description
    ensures WritesLine(rows, logs, types, planned) ==> r.Some?
    ensures !WritesLine(rows, logs, types, planned) ==> r == description
  {
    if WritesLine(rows, logs, types, planned) then Some(description.GetOr(LineAction(planned))) else description
  }

  /**
   * The session table after a planned task's session step: when the line
   * is written, the session takes the waiting-for-payment attributes of
   * the task's action.
   */
  function LineSessions(rows: seq<Task>, logs: seq<LogEntry>, sessions: seq<Session>, types: seq<ProviderType>,
                        planned: Task, windowOpen: bool, disableSpotPayment: Option<bool>): (r: seq<Session>)
    ensures |r| == |sessions|
    ensures forall i :: 0 <= i < |sessions| && LineSession(rows, planned) != Some(i + 1) ==> r[i] == sessions[i]
    ensures !WritesLine(rows, logs, types, planned) ==> r == sessions
  {
    if WritesLine(rows, logs, types, planned)
    then UpdatedSessions(sessions, LineSession(rows, planned),
                         WaitingAttrs(planned.eventType, LogAction(planned.eventType).GetOr(""), windowOpen,
                                      disableSpotPayment).GetOr([]))
    else sessions
  }

  /**
   * When a grouped event writes its session line on a lot that takes spot
   * payment, the session is waiting for payment exactly when the event is
   * an arrival inside the payment window.
   */
  lemma LineSetsWaiting(rows: seq<Task>, logs: seq<LogEntry>, sessions: seq<Session>, types: seq<ProviderType>,
                        planned: Task, windowOpen: bool, disableSpotPayment: Option<bool>)
    requires planned.eventType in GROUPED_EVENTS && disableSpotPayment != Some(true)
    requires WritesLine(rows, logs, types, planned)
    requires SessionRow(sessions, LineSession(rows, planned)).Some?
    ensures var after := LineSessions(rows, logs, sessions, types, planned, windowOpen, disableSpotPayment);
            var arrival := planned.eventType == SPOT_OCCUPIED || planned.eventType == CAR_ENTRY;
            after[LineSession(rows, planned).value - 1].isWaitingForPayment == Some(arrival && windowOpen)
  {
    WaitingFollowsEvent(planned.eventType, windowOpen, disableSpotPayment);
    var s := sessions[LineSession(rows, planned).value - 1];
    var arrival := planned.eventType == SPOT_OCCUPIED || planned.eventType == CAR_ENTRY;
    var attrs := [SetWaitingForPayment(Some(arrival && windowOpen))];
    assert attrs[1..] == [];
    assert ApplyAttrs(s, attrs) == ApplyAttr(s, attrs[0]);
  }

  /**
   * The part of execute_event's second loop before the insert: close the
   * alerts on an exit (the task takes the attributed session), then write
   * the session line unless the session already shows the action or the
   * event is a violation. Returns the task to insert and the description
   * carried on to the next task.
   */
  method PrepareTask(tasks: TaskTable, sessions: SessionTable, logs: SessionLogTable, types: seq<ProviderType>,
                     planned: Task, windowOpen: bool, disableSpotPayment: Option<bool>, eventAt: int,
                     description: Option<string>)
    returns (r: Result<(Task, Option<string>)>)
    requires tasks.Valid() && sessions.Valid() && logs.Valid()
    modifies tasks, sessions, logs
    ensures tasks.Valid() && sessions.Valid() && logs.Valid()
    ensures |tasks.rows| == |old(tasks.rows)| && OnlyStatusesChange(old(tasks.rows), tasks.rows)
    ensures r.Ok? ==> r.value.0 == planned.(sessionId := r.value.0.sessionId)
    ensures r.Ok? && !IsExitEvent(planned.eventType) ==> r.value.0 == planned
    ensures !IsExitEvent(planned.eventType) && IsViolationEvent(planned.eventType) ==> logs.rows == old(logs.rows)
    ensures LogAction(planned.eventType).None? ==> r.Err?
    ensures r.Ok? <==> LineReady(types, planned, windowOpen, disableSpotPayment)
    ensures r.Ok? ==>
              r.value.0 == planned.(sessionId := LineSession(old(tasks.rows), planned)) &&
              r.value.1 == LineCarried(old(tasks.rows), old(logs.rows), types, planned, description) &&
              logs.rows == LineLogs(old(tasks.rows), old(logs.rows), types, planned, description, eventAt) &&
              sessions.rows == LineSessions(old(tasks.rows), old(logs.rows), old(sessions.rows), types, planned,
                                            windowOpen, disableSpotPayment) &&
              tasks.rows == if IsExitEvent(planned.eventType)
                            then AlertClosedRows(old(tasks.rows), planned.sessionId, ViolationProviderType(types).value)
                            else old(tasks.rows)
  {
    var task := planned;
    if IsExitEvent(task.eventType) {
      var closed := CloseAlert(tasks, sessions, logs, types, task.sessionId, task.plate, task.spotId, task.lotId);
      if closed.Err? {
        return Err(closed.msg);
      }
      task := task.(sessionId := closed.value.1);
    }
    var action := LogAction(task.eventType);
    if action.None? {
      return Err("KeyError");
    }
    var entryExists := task.sessionId.Some? && EntryOrExitLogged(logs.rows, task.sessionId.value, action.value);
    var attrs := WaitingAttrs(task.eventType, action.value, windowOpen, disableSpotPayment);
    if attrs.None? {
      return Err("KeyError");
    }
    var carried := description;
    if !entryExists && !IsViolationEvent(task.eventType) {
      carried := Some(description.GetOr(Capitalize(action.value)));
      var _ := CreateSessionLogs(sessions, logs, task.sessionId, Capitalize(action.value), carried.value,
                                 None, None, Some(UPDATE_ACTION), attrs, Some(eventAt));
    }
    r := Ok((task, carried));
  }

  /**
   * The second loop of execute_event for one built task: PrepareTask, then
   * create the task and its sub-tasks. Returns the created task and the
   * description carried on to the next task.
   */
  method ProcessTask(tasks: TaskTable, subTasks: SubTaskTable, violations: ViolationTable, sessions: SessionTable,
                     logs: SessionLogTable, types: seq<ProviderType>, planned: Task, connects: seq<Connect>,
                     windowOpen: bool, disableSpotPayment: Option<bool>, eventAt: int, description: Option<string>)
    returns (r: Result<(Task, Option<string>)>)
    requires tasks.Valid() && subTasks.Valid() && violations.Valid() && sessions.Valid() && logs.Valid()
    modifies tasks, subTasks, violations, sessions, logs
    ensures tasks.Valid() && subTasks.Valid() && violations.Valid() && sessions.Valid() && logs.Valid()
    ensures OnlyStatusesChange(old(tasks.rows), tasks.rows)
    ensures r.Ok? ==> |tasks.rows| == |old(tasks.rows)| + 1 &&
                      r.value.0.id == |old(tasks.rows)| + 1 &&
                      SameTask(tasks.rows[|old(tasks.rows)|], planned) &&
                      |subTasks.rows| == |old(subTasks.rows)| + |connects| &&
                      subTasks.rows[|old(subTasks.rows)|..] ==
                        SubTasksFor(|old(subTasks.rows)|, r.value.0.id, connects) &&
                      (r.value.0.eventType != CAR_EXIT ==> subTasks.rows[..|old(subTasks.rows)|] == old(subTasks.rows))
    ensures r.Err? ==> |tasks.rows| == |old(tasks.rows)| && subTasks.rows == old(subTasks.rows)
    ensures !IsExitEvent(planned.eventType) && IsViolationEvent(planned.eventType) ==> logs.rows == old(logs.rows)
    ensures LogAction(planned.eventType).None? ==> r.Err?
    ensures r.Ok? <==> LineReady(types, planned, windowOpen, disableSpotPayment)
    ensures r.Ok? ==>
              var prepared := planned.(sessionId := LineSession(old(tasks.rows), planned));
              r.value.0 == prepared.(id := |old(tasks.rows)| + 1) &&
              r.value.1 == LineCarried(old(tasks.rows), old(logs.rows), types, planned, description) &&
              logs.rows == LineLogs(old(tasks.rows), old(logs.rows), types, planned, description, eventAt) &&
              sessions.rows == ExitSessionRows(LineSessions(old(tasks.rows), old(logs.rows), old(sessions.rows), types,
                                                            planned, windowOpen, disableSpotPayment), prepared)
  {
    var prepared := PrepareTask(tasks, sessions, logs, types, planned, windowOpen, disableSpotPayment, eventAt,
                                description);
    if prepared.Err? {
      return Err(prepared.msg);
    }
    ghost var beforeCreate := tasks.rows;
    var created := CreateTask(tasks, subTasks, violations, sessions, prepared.value.0, connects);
    ExitRulesOnlyChangeStatuses(beforeCreate, created);
    OnlyStatusesChangeTransitive(old(tasks.rows), beforeCreate, tasks.rows);
    r := Ok((created, prepared.value.1));
  }

  /** Inserting a task and applying the exit rules keeps every old row but its status, and keeps the new one. */
  lemma ExitRulesOnlyChangeStatuses(rows: seq<Task>, created: Task)
    ensures OnlyStatusesChange(rows, ExitRuleRows(rows + [created], created))
    ensures SameTask(ExitRuleRows(rows + [created], created)[|rows|], created)
  {
    var after := ExitRuleRows(rows + [created], created);
    assert after[|rows|] == created.(status := after[|rows|].status);
    forall i | 0 <= i < |rows|
      ensures after[i] == rows[i].(status := after[i].status, alertStatus := after[i].alertStatus)
    {
      assert after[i] == (rows + [created])[i].(status := after[i].status);
    }
  }

  /** The fallback exit task: provider type 1, feature "NA", due at the event time, for the event's plate and lot. */
  predicate FallbackExitTask(t: Task, e: Event)
  {
    t.featureKey == "NA" && t.providerType == 1 && t.nextAt == Some(e.timestamp) &&
    t.eventType == e.eventKey && t.plate == e.plate && t.lotId == e.lotId
  }

  /** The task handle_unavailable_provider_exit creates when no provider serves the exit. */
  function FallbackTask(e: Event): (t: Task)
    ensures FallbackExitTask(t, e) && t.sessionId == e.sessionId && t.status == Pending
  {
    Task(0, Pending, e.eventKey, e.lotId, e.spotId, None, Some(e.timestamp), e.plate, "NA", None, e.sessionId, 1, None)
  }

  /**
   * handle_unavailable_provider_exit: a fallback exit task (provider type
   * 1, feature "NA", due at the event time) goes through the exit rules;
   * the session's alerts are closed, the task takes the attributed
   * session, and the exit is logged ("System Closed" for a manual exit).
   */
  method HandleUnavailableProviderExit(tasks: TaskTable, subTasks: SubTaskTable, violations: ViolationTable,
                                       sessions: SessionTable, logs: SessionLogTable, types: seq<ProviderType>,
                                       e: Event, reason: string, description: Option<string>)
    returns (r: Result<Response>)
    requires tasks.Valid() && subTasks.Valid() && violations.Valid() && sessions.Valid() && logs.Valid()
    modifies tasks, subTasks, violations, sessions, logs
    ensures tasks.Valid() && subTasks.Valid() && violations.Valid() && sessions.Valid() && logs.Valid()
    ensures |tasks.rows| == |old(tasks.rows)| + 1
    ensures FallbackExitTask(tasks.rows[|old(tasks.rows)|], e)
    ensures subTasks.rows == if e.eventKey == CAR_EXIT
                             then StartedBeforeExit(old(subTasks.rows),
                                                    old(tasks.rows) + [FallbackTask(e).(id := |old(tasks.rows)| + 1)],
                                                    e.sessionId)
                             else old(subTasks.rows)
    ensures r.Ok? ==> r.value == Response(1, 0, None)
    ensures ViolationProviderType(types).None? ==> r.Err?
    ensures sessions.rows == ExitSessionRows(old(sessions.rows), FallbackTask(e))
    ensures r.Ok? <==> ViolationProviderType(types).Some? && LogAction(e.eventKey).Some?
    ensures r.Ok? ==>
              var created := FallbackTask(e).(id := |old(tasks.rows)| + 1);
              var inserted := ExitRuleRows(old(tasks.rows) + [created], created);
              var vt := ViolationProviderType(types).value;
              tasks.rows == AlertClosedOn(inserted, |old(tasks.rows)|, vt) &&
              logs.rows == ExitLogs(inserted, old(logs.rows), |old(tasks.rows)|, vt, e, description)
  {
    var created := CreateTask(tasks, subTasks, violations, sessions, FallbackTask(e), []);
    var k := created.id - 1;
    assert tasks.rows[k] == created.(status := tasks.rows[k].status);
    r := CloseAndLogExit(tasks, sessions, logs, types, e, k, description);
  }

  /** The action handle_unavailable_provider_exit logs: "System Closed" for a manual exit, otherwise the event's label. */
  function ExitTag(e: Event): string
  {
    if e.manuallyTriggered == Some(true) && IsExitEvent(e.eventKey) then SYSTEM_CLOSED else LogAction(e.eventKey).GetOr("")
  }

  /**
   * The log after handle_unavailable_provider_exit closed the alerts of
   * the session of the task at row k of the given rows: the close lines,
   * then the exit line under the event's session.
   */
  function ExitLogs(rows: seq<Task>, logs: seq<LogEntry>, k: nat, violationType: int, e: Event,
                    description: Option<string>): (r: seq<LogEntry>)
    requires k < |rows|
    ensures logs <= r
    ensures |r| <= |logs| + |AlertsToClose(rows, rows[k].sessionId, violationType)| + 1
  {
    var sid := rows[k].sessionId;
    LoggedRows(logs + AlertLines(|logs|, sid, CloseLabels(rows, sid, violationType)), e.sessionId,
               Capitalize(ExitTag(e)), description.GetOr(Capitalize(ExitTag(e))), Some(e.timestamp))
  }

  /**
   * The rest of handle_unavailable_provider_exit once the fallback task
   * sits at row k: close the session's alerts, give the task the
   * attributed session and log the exit.
   */
  method CloseAndLogExit(tasks: TaskTable, sessions: SessionTable, logs: SessionLogTable, types: seq<ProviderType>,
                         e: Event, k: nat, description: Option<string>)
    returns (r: Result<Response>)
    requires tasks.Valid() && sessions.Valid() && logs.Valid()
    requires k < |tasks.rows| && FallbackExitTask(tasks.rows[k], e)
    modifies tasks, sessions, logs
    ensures tasks.Valid() && sessions.Valid() && logs.Valid()
    ensures |tasks.rows| == |old(tasks.rows)| && FallbackExitTask(tasks.rows[k], e)
    ensures r.Ok? ==> r.value == Response(1, 0, None)
    ensures ViolationProviderType(types).None? ==> r.Err?
    ensures sessions.rows == old(sessions.rows)
    ensures r.Ok? <==> ViolationProviderType(types).Some? && LogAction(e.eventKey).Some?
    ensures r.Ok? ==>
              tasks.rows == AlertClosedOn(old(tasks.rows), k, ViolationProviderType(types).value) &&
              logs.rows == ExitLogs(old(tasks.rows), old(logs.rows), k, ViolationProviderType(types).value, e,
                                    description)
  {
    var t := tasks.rows[k];
    var closed := CloseAlert(tasks, sessions, logs, types, t.sessionId, t.plate, t.spotId, t.lotId);
    if closed.Err? {
      return Err(closed.msg);
    }
    assert tasks.rows[k] == AlertClose(t, t.sessionId, ViolationProviderType(types).value);
    // Assigning the session on the stored task is written back at the next commit.
    tasks.AssignSession(k, closed.value.1);
    var action := LogAction(e.eventKey);
    if action.None? {
      return Err("KeyError");
    }
    var tag := action.value;
    if e.manuallyTriggered == Some(true) && IsExitEvent(e.eventKey) {
      tag := SYSTEM_CLOSED;
    }
    assert tag == ExitTag(e);
    var _ := CreateSessionLogs(sessions, logs, e.sessionId, Capitalize(tag),
                               description.GetOr(Capitalize(tag)), None, None, None, None, Some(e.timestamp));
    r := Ok(Response(1, 0, None));
  }

  /** Rows n .. n+k-1 hold the first k built tasks, numbered in order. */
  predicate HoldsBuilt(rows: seq<Task>, n: nat, built: seq<Task>, k: nat)
  {
    k <= |built| && n + k <= |rows| &&
    forall m :: 0 <= m < k ==> SameTask(rows[n + m], built[m])
  }

  /** Changing only statuses keeps the built tasks where they are. */
  lemma HoldsBuiltKept(before: seq<Task>, after: seq<Task>, n: nat, built: seq<Task>, k: nat)
    requires OnlyStatusesChange(before, after) && HoldsBuilt(before, n, built, k)
    ensures HoldsBuilt(after, n, built, k)
  {
    forall m | 0 <= m < k
      ensures SameTask(after[n + m], built[m])
    {
      assert after[n + m] == before[n + m].(status := after[n + m].status, alertStatus := after[n + m].alertStatus);
    }
  }

  /** One more built task appended at its place extends the range. */
  lemma HoldsBuiltExtend(rows: seq<Task>, n: nat, built: seq<Task>, k: nat)
    requires HoldsBuilt(rows, n, built, k) && k < |built| && n + k < |rows|
    requires SameTask(rows[n + k], built[k])
    ensures HoldsBuilt(rows, n, built, k + 1)
  {
  }

  /**
   * The second loop of execute_event: each built task in turn, the
   * description of the first session line carried on to the next. Returns
   * the id of the last task created.
   */
  method RunTasks(tasks: TaskTable, subTasks: SubTaskTable, violations: ViolationTable, sessions: SessionTable,
                  logs: SessionLogTable, types: seq<ProviderType>, built: seq<Task>, groups: seq<FeatureGroup>,
                  windowOpen: bool, disableSpotPayment: Option<bool>, eventAt: int)
    returns (r: Result<Option<nat>>)
    requires |built| == |groups|
    requires tasks.Valid() && subTasks.Valid() && violations.Valid() && sessions.Valid() && logs.Valid()
    modifies tasks, subTasks, violations, sessions, logs
    ensures tasks.Valid() && subTasks.Valid() && violations.Valid() && sessions.Valid() && logs.Valid()
    ensures OnlyStatusesChange(old(tasks.rows), tasks.rows)
    ensures r.Ok? ==> (
              var n := |old(tasks.rows)|;
              |tasks.rows| == n + |built| &&
              r.value == (if built == [] then None else Some(n + |built|)) &&
              forall k :: 0 <= k < |built| ==> SameTask(tasks.rows[n + k], built[k]))
    ensures |built| == 1 && r.Ok? ==>
              AfterOneTask(old(tasks.rows), old(logs.rows), old(sessions.rows), types, built[0], windowOpen,
                           disableSpotPayment, eventAt, logs.rows, sessions.rows)
  {
    ghost var n := |tasks.rows|;
    ghost var rows0 := tasks.rows;
    ghost var logs0 := logs.rows;
    ghost var sessions0 := sessions.rows;
    var description: Option<string> := None;
    var taskId: Option<nat> := None;
    var k := 0;
    while k < |built|
      invariant 0 <= k <= |built|
      invariant tasks.Valid() && subTasks.Valid() && violations.Valid() && sessions.Valid() && logs.Valid()
      invariant |tasks.rows| == n + k && OnlyStatusesChange(rows0, tasks.rows)
      invariant taskId == (if k == 0 then None else Some(n + k))
      invariant HoldsBuilt(tasks.rows, n, built, k)
      invariant k == 0 ==> description.None? && tasks.rows == rows0 && logs.rows == logs0 && sessions.rows == sessions0
      invariant k == 1 ==> AfterOneTask(rows0, logs0, sessions0, types, built[0], windowOpen, disableSpotPayment,
                                        eventAt, logs.rows, sessions.rows)
    {
      var done := RunOne(tasks, subTasks, violations, sessions, logs, types, built[k], groups[k].connects,
                         windowOpen, disableSpotPayment, eventAt, description, rows0, logs0, sessions0,
                         n, built, k);
      if done.Err? {
        return Err(done.msg);
      }
      description := done.value.1;
      taskId := Some(done.value.0.id);
      k := k + 1;
    }
    r := Ok(taskId);
  }

  /**
   * The log and session tables after a single planned task went through
   * execute_event's second loop from the given tables, with no description
   * carried in.
   */
  predicate AfterOneTask(rows: seq<Task>, logs: seq<LogEntry>, sessions: seq<Session>, types: seq<ProviderType>,
                         planned: Task, windowOpen: bool, disableSpotPayment: Option<bool>, eventAt: int,
                         logsAfter: seq<LogEntry>, sessionsAfter: seq<Session>)
  {
    logsAfter == LineLogs(rows, logs, types, planned, None, eventAt) &&
    sessionsAfter == ExitSessionRows(LineSessions(rows, logs, sessions, types, planned, windowOpen, disableSpotPayment),
                                     planned.(sessionId := LineSession(rows, planned)))
  }

  /** One iteration of RunTasks: built task k is processed and lands at row n + k. */
  method RunOne(tasks: TaskTable, subTasks: SubTaskTable, violations: ViolationTable, sessions: SessionTable,
                logs: SessionLogTable, types: seq<ProviderType>, planned: Task, connects: seq<Connect>,
                windowOpen: bool, disableSpotPayment: Option<bool>, eventAt: int, description: Option<string>,
                ghost rows0: seq<Task>, ghost logs0: seq<LogEntry>, ghost sessions0: seq<Session>, ghost n: nat,
                ghost built: seq<Task>, ghost k: nat)
    returns (r: Result<(Task, Option<string>)>)
    requires k < |built| && planned == built[k]
    requires k == 0 ==> description.None? && tasks.rows == rows0 && logs.rows == logs0 && sessions.rows == sessions0
    requires tasks.Valid() && subTasks.Valid() && violations.Valid() && sessions.Valid() && logs.Valid()
    requires |tasks.rows| == n + k && OnlyStatusesChange(rows0, tasks.rows) && HoldsBuilt(tasks.rows, n, built, k)
    modifies tasks, subTasks, violations, sessions, logs
    ensures tasks.Valid() && subTasks.Valid() && violations.Valid() && sessions.Valid() && logs.Valid()
    ensures OnlyStatusesChange(rows0, tasks.rows)
    ensures r.Ok? ==> |tasks.rows| == n + k + 1 && r.value.0.id == n + k + 1 && HoldsBuilt(tasks.rows, n, built, k + 1)
    ensures k == 0 && r.Ok? ==>
              AfterOneTask(rows0, logs0, sessions0, types, planned, windowOpen,
                           disableSpotPayment, eventAt, logs.rows, sessions.rows)
  {
    ghost var before := tasks.rows;
    r := ProcessTask(tasks, subTasks, violations, sessions, logs, types, planned, connects,
                     windowOpen, disableSpotPayment, eventAt, description);
    RunOneRows(rows0, before, tasks.rows, n, built, k, r.Ok?);
  }

  /** The task table after one iteration: still only statuses changed, and one more built task in place. */
  lemma RunOneRows(rows0: seq<Task>, before: seq<Task>, after: seq<Task>, n: nat, built: seq<Task>, k: nat,
                   appended: bool)
    requires k < |built| && |before| == n + k
    requires OnlyStatusesChange(rows0, before) && HoldsBuilt(before, n, built, k)
    requires OnlyStatusesChange(before, after)
    requires appended ==> |after| == |before| + 1 && SameTask(after[|before|], built[k])
    ensures OnlyStatusesChange(rows0, after)
    ensures appended ==> HoldsBuilt(after, n, built, k + 1)
  {
    OnlyStatusesChangeTransitive(rows0, before, after);
    if appended {
      HoldsBuiltKept(before, after, n, built, k);
      HoldsBuiltExtend(after, n, built, k);
    }
  }

  lemma OnlyStatusesChangeTransitive(a: seq<Task>, b: seq<Task>, c: seq<Task>)
    requires OnlyStatusesChange(a, b) && OnlyStatusesChange(b, c)
    ensures OnlyStatusesChange(a, c)
  {
    forall i | 0 <= i < |a|
      ensures c[i] == a[i].(status := c[i].status, alertStatus := c[i].alertStatus)
    {
      assert b[i] == a[i].(status := b[i].status, alertStatus := b[i].alertStatus);
    }
  }

  /** What execute_event raises for a lot that is not connected: the task it reports on was never bound. */
  const UNBOUND_TASK := "cannot access local variable 'task' where it is not associated with a value"

  /** Whether the lookup found no provider connection for the event. */
  predicate NoProviders(groups: seq<FeatureGroup>) { groups == [] }

  /**
   * execute_event for one event. A lot that is not connected raises (the
   * response is built from a task that was never bound); without providers
   * a non-exit returns None and an exit takes the fallback path; otherwise
   * one task per feature key, in the order of the lookup.
   */
  method ExecuteEvent(tasks: TaskTable, subTasks: SubTaskTable, violations: ViolationTable, sessions: SessionTable,
                      logs: SessionLogTable, types: seq<ProviderType>, lot: Option<Lot>, groups: seq<FeatureGroup>,
                      e: Event, timestamp: Option<int>, now: int)
    returns (r: Result<Option<Response>>)
    requires tasks.Valid() && subTasks.Valid() && violations.Valid() && sessions.Valid() && logs.Valid()
    modifies tasks, subTasks, violations, sessions, logs
    ensures tasks.Valid() && subTasks.Valid() && violations.Valid() && sessions.Valid() && logs.Valid()
    ensures lot.None? ==> r == Err(UNBOUND_TASK) && tasks.rows == old(tasks.rows) && logs.rows == old(logs.rows) &&
                          sessions.rows == old(sessions.rows)
    ensures lot.Some? && CheckPaymentWindow(lot.value, now).Err? ==>
              r == Err(CheckPaymentWindow(lot.value, now).msg) && tasks.rows == old(tasks.rows)
    ensures lot.Some? && CheckPaymentWindow(lot.value, now).Ok? && NoProviders(groups) && !IsExitEvent(e.eventKey) ==>
              r == Ok(None) && tasks.rows == old(tasks.rows) && subTasks.rows == old(subTasks.rows) &&
              logs.rows == old(logs.rows) && sessions.rows == old(sessions.rows) &&
              violations.rows == old(violations.rows)
    ensures lot.Some? && CheckPaymentWindow(lot.value, now).Ok? && NoProviders(groups) && IsExitEvent(e.eventKey) ==>
              |tasks.rows| == |old(tasks.rows)| + 1 && tasks.rows[|old(tasks.rows)|].featureKey == "NA" &&
              (r.Ok? ==> r.value == Some(Response(1, 0, None)))
    ensures !NoProviders(groups) && r.Ok? ==> (
              lot.Some? && CheckPaymentWindow(lot.value, now).Ok? &&
              var n := |old(tasks.rows)|;
              r.value == Some(Response(|groups|, 0, Some(n + |groups|))) &&
              |tasks.rows| == n + |groups| &&
              forall k :: 0 <= k < |groups| ==>
                ProviderTypeOf(types, groups[k].featureKey).Some? &&
                SameTask(tasks.rows[n + k],
                         PlannedTask(e, groups[k].featureKey, ProviderTypeOf(types, groups[k].featureKey).value,
                                     NextAtForTask(Timing(e), lot.value, timestamp,
                                                   CheckPaymentWindow(lot.value, now).value.status))))
    ensures |groups| == 1 && r.Ok? ==> (
              lot.Some? && CheckPaymentWindow(lot.value, now).Ok? &&
              ProviderTypeOf(types, groups[0].featureKey).Some? &&
              var status := CheckPaymentWindow(lot.value, now).value.status;
              AfterOneTask(old(tasks.rows), old(logs.rows), old(sessions.rows), types,
                           PlannedTask(e, groups[0].featureKey, ProviderTypeOf(types, groups[0].featureKey).value,
                                       NextAtForTask(Timing(e), lot.value, timestamp, status)),
                           status, e.disableSpotPayment, e.timestamp, logs.rows, sessions.rows))
  {
    if lot.None? {
      return Err(UNBOUND_TASK);
    }
    var window := CheckPaymentWindow(lot.value, now);
    if window.Err? {
      return Err(window.msg);
    }
    if NoProviders(groups) {
      if !IsExitEvent(e.eventKey) {
        return Ok(None);
      }
      var reason := if e.manuallyTriggered == Some(true) then REASON_FORCED_EXIT else REASON_EXIT_DETECT;
      var description := if e.manuallyTriggered == Some(true) then Some(FORCED_EXIT_DESCRIPTION) else None;
      var handled := HandleUnavailableProviderExit(tasks, subTasks, violations, sessions, logs, types, e, reason,
                                                   description);
      if handled.Err? {
        return Err(handled.msg);
      }
      return Ok(Some(handled.value));
    }
    var built := BuildTasks(types, lot.value, window.value.status, e, groups, timestamp);
    if built.Err? {
      return Err(built.msg);
    }
    var taskId := RunTasks(tasks, subTasks, violations, sessions, logs, types, built.value, groups,
                           window.value.status, e.disableSpotPayment, e.timestamp);
    if taskId.Err? {
      return Err(taskId.msg);
    }
    r := Ok(Some(Response(|groups|, 0, taskId.value)));
  }

  /** A violation get_all_violation_associate_with_session returns: of the session, not inactivated. */
  predicate ClosesWithSession(v: Violation, sessionId: Option<int>)
  {
    v.sessionId == sessionId && v.citationInactivationId.None?
  }

  /** The violation table after every violation of the session not yet inactivated is set to CLOSE. */
  function SessionViolationsClosed(rows: seq<Violation>, sessionId: Option<int>): (r: seq<Violation>)
    ensures |r| == |rows|
    ensures forall i :: 0 <= i < |rows| ==> (ClosesWithSession(rows[i], sessionId) ==> r[i] == rows[i].(status := "CLOSE"))
    ensures forall i :: 0 <= i < |rows| ==> (!ClosesWithSession(rows[i], sessionId) ==> r[i] == rows[i])
  {
    seq(|rows|, i requires 0 <= i < |rows| =>
      if ClosesWithSession(rows[i], sessionId) then rows[i].(status := "CLOSE") else rows[i])
  }

  /** The loop of close_session_tasks_and_alerts over the session's violations. */
  method CloseSessionViolations(violations: ViolationTable, sessionId: Option<int>)
    requires violations.Valid()
    modifies violations
    ensures violations.Valid()
    ensures violations.rows == SessionViolationsClosed(old(violations.rows), sessionId)
  {
    ghost var v0 := violations.rows;
    var i := 0;
    while i < |violations.rows|
      invariant 0 <= i <= |violations.rows| == |v0|
      invariant violations.Valid()
      invariant violations.rows[..i] == SessionViolationsClosed(v0, sessionId)[..i]
      invariant violations.rows[i..] == v0[i..]
    {
      var v := violations.rows[i];
      assert v == v0[i] by {
        assert violations.rows[i..][0] == v0[i..][0];
      }
      ghost var before := violations.rows;
      if ClosesWithSession(v, sessionId) {
        IndexOfOwnId(violations.rows, i);
        var _ := violations.UpdateStatus(v.id, "CLOSE");
      }
      ClosedThrough(before, violations.rows, v0, i, sessionId);
      i := i + 1;
    }
    assert violations.rows == violations.rows[..i];
  }

  /** One more row of the loop above: row i now holds its closed value, the rest is untouched. */
  lemma ClosedThrough(rows: seq<Violation>, next: seq<Violation>, v0: seq<Violation>, i: nat, sessionId: Option<int>)
    requires i < |rows| == |v0|
    requires rows[..i] == SessionViolationsClosed(v0, sessionId)[..i] && rows[i..] == v0[i..]
    requires next == rows[i := SessionViolationsClosed(v0, sessionId)[i]]
    ensures next[..i + 1] == SessionViolationsClosed(v0, sessionId)[..i + 1]
    ensures next[i + 1..] == v0[i + 1..]
  {
    assert rows[i] == rows[i..][0];
    assert next[i + 1..] == rows[i + 1..] == rows[i..][1..];
  }

  /**
   * The task rows after close_session_tasks_and_alerts succeeds: without a
   * task of the session nothing changes; otherwise its first task goes
   * through close_alert and the plate's open tasks of the attributed
   * session close.
   */
  function SessionTasksClosed(rows: seq<Task>, violations: seq<Violation>, sessionId: int, types: seq<ProviderType>)
    : (r: seq<Task>)
    ensures |r| == |rows|
    ensures TaskOfSession(rows, sessionId).None? ==> r == rows
  {
    match TaskOfSession(rows, sessionId)
    case None => rows
    case Some(k) =>
      if ViolationProviderType(types).None? then rows
      else AttributedClose(rows, k, ViolationProviderType(types).value,
                           ClosesAnyViolation(violations, AttributedSession(rows, rows[k])))
  }

  /** Some violation of the session is closed by the loop of close_session_tasks_and_alerts. */
  predicate ClosesAnyViolation(rows: seq<Violation>, sessionId: Option<int>)
  {
    exists i :: 0 <= i < |rows| && ClosesWithSession(rows[i], sessionId)
  }

  /**
   * The task rows once close_alert has run on the task at row k and the
   * plate's open tasks of the attributed session are closed. The task's
   * new session reaches the table at the next commit: before the task
   * close when a violation's status update commits (`early`), after it
   * otherwise.
   */
  function AttributedClose(rows: seq<Task>, k: nat, violationType: int, early: bool): (r: seq<Task>)
    requires k < |rows|
    ensures |r| == |rows|
    ensures r[k].sessionId == AttributedSession(rows, rows[k])
  {
    var t := rows[k];
    var attributed := AttributedSession(rows, t);
    if early then ClosePlateSessionRows(AlertClosedOn(rows, k, violationType), t.lotId, t.plate, attributed)
    else
      var closed := ClosePlateSessionRows(AlertClosedRows(rows, t.sessionId, violationType), t.lotId, t.plate, attributed);
      closed[k := closed[k].(sessionId := attributed)]
  }

  /** The violation rows after close_session_tasks_and_alerts succeeds. */
  function SessionViolationsAfter(tasks: seq<Task>, violations: seq<Violation>, sessionId: int): (r: seq<Violation>)
    ensures TaskOfSession(tasks, sessionId).None? ==> r == violations
  {
    match TaskOfSession(tasks, sessionId)
    case None => violations
    case Some(k) => SessionViolationsClosed(violations, AttributedSession(tasks, tasks[k]))
  }

  /**
   * close_session_tasks_and_alerts: when the session has a task, the
   * alerts of its violation tasks are closed and the task takes the
   * session close_alert attributes the exit to; every violation of that
   * session not yet inactivated is set to CLOSE, and the plate's open
   * tasks of that session are closed (car.exit tasks back to PENDING).
   */
  method CloseSessionTasksAndAlerts(tasks: TaskTable, violations: ViolationTable, sessions: SessionTable,
                                    logs: SessionLogTable, types: seq<ProviderType>, sessionId: int, reason: string)
    returns (r: Result<()>)
    requires tasks.Valid() && violations.Valid() && sessions.Valid() && logs.Valid()
    modifies tasks, violations, sessions, logs
    ensures tasks.Valid() && violations.Valid() && sessions.Valid() && logs.Valid()
    ensures sessions.rows == old(sessions.rows)
    ensures TaskOfSession(old(tasks.rows), sessionId).None? ==>
              r.Ok? && tasks.rows == old(tasks.rows) && violations.rows == old(violations.rows) &&
              logs.rows == old(logs.rows)
    ensures TaskOfSession(old(tasks.rows), sessionId).Some? && ViolationProviderType(types).None? ==>
              r.Err? && tasks.rows == old(tasks.rows) && violations.rows == old(violations.rows)
    ensures TaskOfSession(old(tasks.rows), sessionId).Some? && ViolationProviderType(types).Some? ==> (
              var k := TaskOfSession(old(tasks.rows), sessionId).value;
              var t := old(tasks.rows)[k];
              var attributed := AttributedSession(old(tasks.rows), t);
              r.Ok? &&
              violations.rows == SessionViolationsClosed(old(violations.rows), attributed) &&
              |tasks.rows| == |old(tasks.rows)| && tasks.rows[k].sessionId == attributed &&
              (ClosesAnyViolation(old(violations.rows), attributed) ==>
                 tasks.rows == ClosePlateSessionRows(AlertClosedOn(old(tasks.rows), k, ViolationProviderType(types).value),
                                                     t.lotId, t.plate, attributed)) &&
              (!ClosesAnyViolation(old(violations.rows), attributed) ==>
                 var closed := ClosePlateSessionRows(AlertClosedRows(old(tasks.rows), t.sessionId,
                                                                     ViolationProviderType(types).value),
                                                     t.lotId, t.plate, attributed);
                 tasks.rows == closed[k := closed[k].(sessionId := attributed)]))
    ensures r.Ok? ==> tasks.rows == SessionTasksClosed(old(tasks.rows), old(violations.rows), sessionId, types) &&
                      violations.rows == SessionViolationsAfter(old(tasks.rows), old(violations.rows), sessionId)
  {
    var found := TaskOfSession(tasks.rows, sessionId);
    if found.None? {
      return Ok(());
    }
    var task := tasks.rows[found.value];
    var closed := CloseAlert(tasks, sessions, logs, types, task.sessionId, task.plate, task.spotId, task.lotId);
    if closed.Err? {
      return Err(closed.msg);
    }
    // The stored task's new session is written back by the first commit
    // that follows: that of a violation's status update if there is one,
    // else the final one, after the task close.
    var attributed := closed.value.1;
    var early := ClosesAnyViolation(violations.rows, attributed);
    if early {
      tasks.AssignSession(found.value, attributed);
    }
    CloseSessionViolations(violations, attributed);
    tasks.CloseTaskWithPlateNumberAndSessionId(task.lotId, task.plate, attributed);
    if !early {
      tasks.AssignSession(found.value, attributed);
    }
    r := Ok(());
  }
}
