/**
 * The two session writes every service goes through: appending a log line
 * (optionally updating the session first) and the not-paid retry counter.
 */
module SessionUpdates {
  import opened Wrappers
  import opened Json
  import opened Enums
  import opened SessionModel
  import opened SessionLogModel

  /** The action that makes create_session_logs update the session before logging. */
  const UPDATE_ACTION := "UPDATE"

  /**
   * create_session_logs. Any exception inside it is swallowed and the call
   * returns None: a missing attribute dictionary on an existing session, or a
   * missing session id (the log schema requires one).
   */
  method CreateSessionLogs(sessions: SessionTable, logs: SessionLogTable, sessionId: Option<int>,
                           actionType: string, description: string, metaInfo: Option<Json>,
                           provider: Option<int>, action: Option<string>, attrs: Option<seq<Attr>>,
                           eventAt: Option<int>)
    returns (r: Option<LogEntry>)
    requires sessions.Valid() && logs.Valid()
    modifies sessions, logs
    ensures sessions.Valid() && logs.Valid()
    ensures action != Some(UPDATE_ACTION) ==> sessions.rows == old(sessions.rows)
    ensures action == Some(UPDATE_ACTION) && sessionId.Some? && 1 <= sessionId.value <= |old(sessions.rows)| ==>
              (attrs.None? ==> sessions.rows == old(sessions.rows) && logs.rows == old(logs.rows) && r.None?) &&
              (attrs.Some? ==> sessions.rows == old(sessions.rows)[sessionId.value - 1 :=
                                 ApplyAttrs(old(sessions.rows)[sessionId.value - 1], attrs.value)])
    ensures !(action == Some(UPDATE_ACTION) && sessionId.Some? && 1 <= sessionId.value <= |old(sessions.rows)|) ==>
              sessions.rows == old(sessions.rows)
    ensures sessionId.None? ==> logs.rows == old(logs.rows) && r.None?
    ensures r.Some? ==> (
              sessionId.Some? &&
              var e := NewEntry(sessionId.value, actionType, description, provider, metaInfo, eventAt);
              (Suppressed(old(logs.rows), e).Some? ==> logs.rows == old(logs.rows)) &&
              (Suppressed(old(logs.rows), e).None? ==> logs.rows == old(logs.rows) + [Stored(e, |old(logs.rows)| + 1)]))
    ensures (sessionId.Some? &&
             !(action == Some(UPDATE_ACTION) && attrs.None? && 1 <= sessionId.value <= |old(sessions.rows)|)) ==> r.Some?
    ensures !(action == Some(UPDATE_ACTION) && attrs.None?) && provider.None? && metaInfo.None? ==>
              logs.rows == LoggedRows(old(logs.rows), sessionId, actionType, description, eventAt)
    ensures action == Some(UPDATE_ACTION) && attrs.Some? ==>
              sessions.rows == UpdatedSessions(old(sessions.rows), sessionId, attrs.value)
  {
    if action == Some(UPDATE_ACTION) && sessionId.Some? && 1 <= sessionId.value <= |sessions.rows| {
      if attrs.None? {
        return None;
      }
      var _ := sessions.UpdateAttributes(sessionId.value, attrs.value);
    }
    if sessionId.None? {
      return None;
    }
    var entry := logs.InsertSessionEvent(NewEntry(sessionId.value, actionType, description, provider, metaInfo, eventAt));
    r := Some(entry);
  }

  /**
   * The log after create_session_logs writes a line without provider or
   * meta data: nothing without a session id, otherwise the line is
   * appended unless insert_session_event suppresses it.
   */
  function LoggedRows(rows: seq<LogEntry>, sessionId: Option<int>, actionType: string, description: string,
                      eventAt: Option<int>): (r: seq<LogEntry>)
    ensures rows <= r && |r| <= |rows| + 1
    ensures sessionId.None? ==> r == rows
    ensures |r| == |rows| + 1 <==>
              sessionId.Some? && Suppressed(rows, NewEntry(sessionId.value, actionType, description, None, None, eventAt)).None?
    ensures |r| == |rows| + 1 ==>
              r[|rows|] == Stored(NewEntry(sessionId.value, actionType, description, None, None, eventAt), |rows| + 1)
  {
    if sessionId.None? then rows
    else
      var e := NewEntry(sessionId.value, actionType, description, None, None, eventAt);
      if Suppressed(rows, e).Some? then rows else rows + [Stored(e, |rows| + 1)]
  }

  /** The session get_session_by_id finds for the task, in a well-numbered table. */
  function SessionRow(rows: seq<Session>, sessionId: Option<int>): Option<Session>
  {
    if sessionId.Some? && 1 <= sessionId.value <= |rows| then Some(rows[sessionId.value - 1]) else None
  }

  /** The session table after create_session_logs with action UPDATE and these attributes. */
  function UpdatedSessions(rows: seq<Session>, sessionId: Option<int>, attrs: seq<Attr>): (r: seq<Session>)
    ensures |r| == |rows|
    ensures SessionRow(rows, sessionId).None? ==> r == rows
    ensures forall i :: 0 <= i < |rows| && sessionId != Some(i + 1) ==> r[i] == rows[i]
  {
    match SessionRow(rows, sessionId)
    case None => rows
    case Some(s) => rows[sessionId.value - 1 := ApplyAttrs(s, attrs)]
  }

  /** The counter update_counter writes, or None when it writes nothing. */
  function NewCounter(current: int, actionOn: string): (r: Option<int>)
    ensures actionOn == ACTION_PAID ==> r == Some(0)
    ensures actionOn == ACTION_NOT_PAID ==> r == Some(current + 1)
    ensures actionOn != ACTION_PAID && actionOn != ACTION_NOT_PAID ==> r.None?
  {
    if actionOn == ACTION_PAID then Some(0)
    else if actionOn == ACTION_NOT_PAID then Some(current + 1)
    else None
  }

  /** update_counter: an unknown session raises. */
  method UpdateCounter(sessions: SessionTable, sessionId: int, actionOn: string) returns (r: Result<()>)
    requires sessions.Valid()
    modifies sessions
    ensures sessions.Valid()
    ensures !(1 <= sessionId <= |old(sessions.rows)|) ==> r.Err? && sessions.rows == old(sessions.rows)
    ensures 1 <= sessionId <= |old(sessions.rows)| ==> (
              r.Ok? &&
              |sessions.rows| == |old(sessions.rows)| &&
              (forall i :: 0 <= i < |sessions.rows| && i != sessionId - 1 ==> sessions.rows[i] == old(sessions.rows)[i]) &&
              var s := old(sessions.rows)[sessionId - 1];
              sessions.rows[sessionId - 1] ==
                s.(notPaidCounter := NewCounter(s.notPaidCounter, actionOn).GetOr(s.notPaidCounter)))
  {
    if !(1 <= sessionId <= |sessions.rows|) {
      return Err(NO_ID);
    }
    var s := sessions.rows[sessionId - 1];
    var attrs := match NewCounter(s.notPaidCounter, actionOn)
      case Some(c) => [SetNotPaidCounter(c)]
      case None => [];
    var _ := sessions.UpdateAttributes(sessionId, attrs);
    r := Ok(());
  }
}
