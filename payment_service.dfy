/**
 * The payment outcome of a check: "not paid" raises or grows a violation
 * according to the lot's violation pricing, "paid" clears the waiting flag,
 * adds the price to the session total and closes the payment violation.
 */
module PaymentService {
  import opened Wrappers
  import opened Json
  import opened Text
  import opened Enums
  import opened TaskModel
  import opened ViolationModel
  import opened SessionModel
  import opened SessionLogModel
  import opened SessionUpdates
  import opened EventService
  import opened ViolationClose

  /** The pricing types of a lot's violation configuration. */
  const VARIABLE_PRICING := "VARIABLE"
  const FIXED_PRICING := "FIXED"

  /**
   * violation_schema_mapping: a new OPEN violation for the task's session;
   * an unknown violation type is named as a payment violation. The id is
   * given when the row is stored.
   */
  function ViolationSchemaMapping(t: Task, violationType: string, metaAmount: Option<int>): (v: Violation)
    ensures violationType == OVERSTAY_VIOLATION ==> v.name == "Overstay Violation" && v.description == "Vehicle overstayed"
    ensures violationType != OVERSTAY_VIOLATION ==> v.name == "Payment Violation" && v.description == "Payment not found"
    ensures v.taskId == t.id && v.plate == t.plate && v.spotId == t.spotId && v.lotId == Some(t.lotId)
    ensures v.amountDue == (if metaAmount.Some? then metaAmount.value else 0)
    ensures v.session == Some(OPEN) && v.citationInactivationId.None?
  {
    var name := if violationType == OVERSTAY_VIOLATION then "Overstay Violation" else "Payment Violation";
    var description := if violationType == OVERSTAY_VIOLATION then "Vehicle overstayed" else "Payment not found";
    Violation(0, name, OPEN, description, t.id, Some(violationType), metaAmount.GetOr(0), t.spotId, t.plate,
              Some(t.lotId), Some(OPEN), t.sessionId, None)
  }

  /** The mapped violation is exactly what get_violation_by_session_id looks for afterwards. */
  lemma MappedViolationIsOpen(t: Task, violationType: string, metaAmount: Option<int>, id: nat)
    ensures OpenOfSession(ViolationSchemaMapping(t, violationType, metaAmount).(id := id), t.sessionId, violationType)
  {
  }

  /** A stored violation row: the mapping with the next id of the table. */
  function WithCreated(rows: seq<Violation>, v: Violation): seq<Violation>
  {
    rows + [v.(id := |rows| + 1)]
  }

  /** The row at k with its amount due grown by the VARIABLE increment. */
  function Accrued(rows: seq<Violation>, k: nat): seq<Violation>
    requires k < |rows|
  {
    rows[k := rows[k].(amountDue := rows[k].amountDue + VARIABLE_INCREMENT)]
  }

  /**
   * not_paid on the violation table. Without a configuration nothing
   * changes. VARIABLE pricing grows the session's OPEN violation of the
   * type by 10, or creates it. FIXED pricing creates it only when none is
   * OPEN and the violation flag is set; the violation task created for it
   * is a parameter, and a missing one raises.
   */
  function NotPaidRows(rows: seq<Violation>, t: Task, pricing: Option<string>, violationType: string,
                       violationFlag: bool, metaAmount: Option<int>, violationTask: Option<Task>)
    : (r: Result<seq<Violation>>)
    ensures r.Err? <==> (pricing == Some(FIXED_PRICING) && violationFlag &&
                         OpenViolationOf(rows, t.sessionId, violationType).None? && violationTask.None?)
    ensures pricing.None? ==> r == Ok(rows)
    ensures r.Ok? ==> |rows| <= |r.value| <= |rows| + 1
  {
    var open := OpenViolationOf(rows, t.sessionId, violationType);
    if pricing == Some(VARIABLE_PRICING) then
      if open.Some? then Ok(Accrued(rows, open.value))
      else Ok(WithCreated(rows, ViolationSchemaMapping(t, violationType, metaAmount)))
    else if pricing == Some(FIXED_PRICING) && open.None? && violationFlag then
      match violationTask
      case None => Err(NO_ID)
      case Some(nt) => Ok(WithCreated(rows, ViolationSchemaMapping(nt, violationType, metaAmount)))
    else Ok(rows)
  }

  /**
   * not_paid as written: the VARIABLE increment goes through update_violation,
   * which matches the first OPEN row by plate (spot-based check) or by spot
   * (LPR-based check), whatever its session and type.
   */
  function NotPaidRowsAsWritten(rows: seq<Violation>, t: Task, pricing: Option<string>, violationType: string,
                                violationFlag: bool, metaAmount: Option<int>, violationTask: Option<Task>)
    : (r: Result<seq<Violation>>)
    ensures pricing != Some(VARIABLE_PRICING) ==>
              r == NotPaidRows(rows, t, pricing, violationType, violationFlag, metaAmount, violationTask)
  {
    if pricing == Some(VARIABLE_PRICING) && OpenViolationOf(rows, t.sessionId, violationType).Some? then
      match IncrementTarget(rows, t.plate, t.spotId, t.featureKey)
      case None => Ok(rows)
      case Some(k) => Ok(Accrued(rows, k))
    else NotPaidRows(rows, t, pricing, violationType, violationFlag, metaAmount, violationTask)
  }

  /**
   * A car that comes back while the violation of its earlier visit is still
   * OPEN: the second session's "not paid" grows the earlier session's
   * violation and leaves its own unchanged.
   */
  lemma VariableAccrualMissesSession()
    ensures var old1 := Violation(1, "Payment Violation", OPEN, "Payment not found", 1, Some(PAYMENT_VIOLATION), 50,
                                  Some("A1"), Some("ABC123"), Some(7), Some(OPEN), Some(1), None);
            var new2 := Violation(2, "Payment Violation", OPEN, "Payment not found", 2, Some(PAYMENT_VIOLATION), 50,
                                  Some("B4"), Some("ABC123"), Some(7), Some(OPEN), Some(2), None);
            var t := Task(3, InProgress, "lpr.entry", 7, Some("B4"), None, Some(0), Some("ABC123"), PAYMENT_CHECK_SPOT,
                          None, Some(2), 2, None);
            var asWritten := NotPaidRowsAsWritten([old1, new2], t, Some(VARIABLE_PRICING), PAYMENT_VIOLATION, true,
                                                  None, None);
            var intended := NotPaidRows([old1, new2], t, Some(VARIABLE_PRICING), PAYMENT_VIOLATION, true, None, None);
            asWritten.Ok? && asWritten.value[0].amountDue == 60 && asWritten.value[1].amountDue == 50 &&
            intended.Ok? && intended.value[0].amountDue == 50 && intended.value[1].amountDue == 60
  {
    var old1 := Violation(1, "Payment Violation", OPEN, "Payment not found", 1, Some(PAYMENT_VIOLATION), 50,
                          Some("A1"), Some("ABC123"), Some(7), Some(OPEN), Some(1), None);
    var new2 := Violation(2, "Payment Violation", OPEN, "Payment not found", 2, Some(PAYMENT_VIOLATION), 50,
                          Some("B4"), Some("ABC123"), Some(7), Some(OPEN), Some(2), None);
    var rows := [old1, new2];
    assert !OpenOfSession(rows[0], Some(2), PAYMENT_VIOLATION);
    assert OpenOfSession(rows[1], Some(2), PAYMENT_VIOLATION);
    assert OpenViolationOf(rows, Some(2), PAYMENT_VIOLATION) == Some(1);
    assert IncrementTarget(rows, Some("ABC123"), Some("B4"), PAYMENT_CHECK_SPOT) == Some(0);
  }

  lemma {:induction false} CountOpenAppend(rows: seq<Violation>, v: Violation, sessionId: Option<int>,
                                           violationType: string)
    ensures CountOpen(rows + [v], sessionId, violationType) ==
            CountOpen(rows, sessionId, violationType) + (if OpenOfSession(v, sessionId, violationType) then 1 else 0)
  {
    if rows != [] {
      assert (rows + [v])[1..] == rows[1..] + [v];
      CountOpenAppend(rows[1..], v, sessionId, violationType);
    } else {
      assert ([] + [v])[1..] == [];
    }
  }

  lemma {:induction false} CountOpenAccrued(rows: seq<Violation>, k: nat, sessionId: Option<int>, violationType: string)
    requires k < |rows|
    ensures CountOpen(Accrued(rows, k), sessionId, violationType) == CountOpen(rows, sessionId, violationType)
  {
    var grown := Accrued(rows, k);
    if k == 0 {
      assert grown[1..] == rows[1..];
    } else {
      assert grown[1..] == Accrued(rows[1..], k - 1);
      CountOpenAccrued(rows[1..], k - 1, sessionId, violationType);
    }
  }

  /** VARIABLE pricing with an OPEN violation: +10 on that row, nothing else changes, no row is added. */
  lemma VariableAccrues(rows: seq<Violation>, t: Task, violationType: string, violationFlag: bool,
                        metaAmount: Option<int>, violationTask: Option<Task>)
    requires OpenViolationOf(rows, t.sessionId, violationType).Some?
    ensures var k := OpenViolationOf(rows, t.sessionId, violationType).value;
            var r := NotPaidRows(rows, t, Some(VARIABLE_PRICING), violationType, violationFlag, metaAmount, violationTask);
            r.Ok? && |r.value| == |rows| &&
            r.value[k].amountDue == rows[k].amountDue + VARIABLE_INCREMENT &&
            r.value[k] == rows[k].(amountDue := r.value[k].amountDue) &&
            (forall i :: 0 <= i < |rows| && i != k ==> r.value[i] == rows[i]) &&
            CountOpen(r.value, t.sessionId, violationType) == CountOpen(rows, t.sessionId, violationType)
  {
    CountOpenAccrued(rows, OpenViolationOf(rows, t.sessionId, violationType).value, t.sessionId, violationType);
  }

  /** VARIABLE pricing without an OPEN violation creates exactly one, which is then the session's OPEN one. */
  lemma VariableCreatesOne(rows: seq<Violation>, t: Task, violationType: string, violationFlag: bool,
                           metaAmount: Option<int>, violationTask: Option<Task>)
    requires OpenViolationOf(rows, t.sessionId, violationType).None?
    ensures var r := NotPaidRows(rows, t, Some(VARIABLE_PRICING), violationType, violationFlag, metaAmount, violationTask);
            r.Ok? && |r.value| == |rows| + 1 && r.value[..|rows|] == rows &&
            OpenViolationOf(r.value, t.sessionId, violationType) == Some(|rows|) &&
            CountOpen(r.value, t.sessionId, violationType) == 1
  {
    var v := ViolationSchemaMapping(t, violationType, metaAmount);
    var r := WithCreated(rows, v);
    MappedViolationIsOpen(t, violationType, metaAmount, |rows| + 1);
    assert r[..|rows|] == rows;
    assert OpenOfSession(r[|rows|], t.sessionId, violationType);
    assert forall i :: 0 <= i < |rows| ==> r[i] == rows[i];
    var found := OpenViolationOf(r, t.sessionId, violationType);
    assert found.Some?;
    assert found.value == |rows|;
    CountOpenZero(rows, t.sessionId, violationType);
    CountOpenAppend(rows, v.(id := |rows| + 1), t.sessionId, violationType);
  }

  /** FIXED pricing adds a row exactly when none is OPEN, the flag is set and the violation task exists. */
  lemma FixedCreatesOnlyWhenFlagged(rows: seq<Violation>, t: Task, violationType: string, violationFlag: bool,
                                    metaAmount: Option<int>, violationTask: Option<Task>)
    ensures var r := NotPaidRows(rows, t, Some(FIXED_PRICING), violationType, violationFlag, metaAmount, violationTask);
            (r.Ok? && |r.value| == |rows| + 1) <==>
            (OpenViolationOf(rows, t.sessionId, violationType).None? && violationFlag && violationTask.Some?)
  {
    assert FIXED_PRICING != VARIABLE_PRICING;
  }

  /**
   * A session never gets a second OPEN violation of a type from not_paid,
   * as long as the FIXED violation task belongs to the same session.
   */
  lemma NotPaidKeepsOneOpen(rows: seq<Violation>, t: Task, pricing: Option<string>, violationType: string,
                            violationFlag: bool, metaAmount: Option<int>, violationTask: Option<Task>)
    requires CountOpen(rows, t.sessionId, violationType) <= 1
    requires violationTask.Some? ==> violationTask.value.sessionId == t.sessionId
    ensures var r := NotPaidRows(rows, t, pricing, violationType, violationFlag, metaAmount, violationTask);
            r.Ok? ==> CountOpen(r.value, t.sessionId, violationType) <= 1
  {
    var open := OpenViolationOf(rows, t.sessionId, violationType);
    CountOpenZero(rows, t.sessionId, violationType);
    if pricing == Some(VARIABLE_PRICING) {
      if open.Some? {
        VariableAccrues(rows, t, violationType, violationFlag, metaAmount, violationTask);
      } else {
        VariableCreatesOne(rows, t, violationType, violationFlag, metaAmount, violationTask);
      }
    } else if pricing == Some(FIXED_PRICING) && open.None? && violationFlag && violationTask.Some? {
      var v := ViolationSchemaMapping(violationTask.value, violationType, metaAmount);
      MappedViolationIsOpen(violationTask.value, violationType, metaAmount, |rows| + 1);
      CountOpenAppend(rows, v.(id := |rows| + 1), t.sessionId, violationType);
    }
  }

  /** Under FIXED pricing a repeated "not paid" of the same session adds nothing more. */
  lemma FixedIdempotent(rows: seq<Violation>, t: Task, violationType: string, violationFlag: bool,
                        metaAmount: Option<int>, violationTask: Option<Task>)
    requires violationTask.Some? ==> violationTask.value.sessionId == t.sessionId
    requires NotPaidRows(rows, t, Some(FIXED_PRICING), violationType, violationFlag, metaAmount, violationTask).Ok?
    ensures var once := NotPaidRows(rows, t, Some(FIXED_PRICING), violationType, violationFlag, metaAmount,
                                    violationTask).value;
            NotPaidRows(once, t, Some(FIXED_PRICING), violationType, violationFlag, metaAmount, violationTask) == Ok(once)
  {
    assert FIXED_PRICING != VARIABLE_PRICING;
    var once := NotPaidRows(rows, t, Some(FIXED_PRICING), violationType, violationFlag, metaAmount, violationTask).value;
    if once != rows {
      var v := ViolationSchemaMapping(violationTask.value, violationType, metaAmount);
      MappedViolationIsOpen(violationTask.value, violationType, metaAmount, |rows| + 1);
      assert OpenOfSession(once[|rows|], t.sessionId, violationType);
    }
  }

  /**
   * not_paid on the table, with the VARIABLE increment applied to the
   * session's own OPEN violation (see NotPaidRowsAsWritten for the code as
   * written). The lot's configuration and the violation amount fetched
   * from the admin service are parameters.
   */
  method NotPaid(violations: ViolationTable, t: Task, pricing: Option<string>, violationType: string,
                 violationFlag: bool, metaAmount: Option<int>, violationTask: Option<Task>)
    returns (r: Result<()>)
    requires violations.Valid()
    modifies violations
    ensures violations.Valid()
    ensures var expected := NotPaidRows(old(violations.rows), t, pricing, violationType, violationFlag, metaAmount,
                                        violationTask);
            (r.Ok? <==> expected.Ok?) &&
            (expected.Ok? ==> violations.rows == expected.value) &&
            (expected.Err? ==> violations.rows == old(violations.rows))
  {
    if pricing == Some(VARIABLE_PRICING) {
      var details := ViolationSchemaMapping(t, violationType, metaAmount);
      var open := OpenViolationOf(violations.rows, t.sessionId, violationType);
      if open.Some? {
        IndexOfOwnId(violations.rows, open.value);
        var _ := violations.UpdateViolationById(violations.rows[open.value].id);
      } else {
        var _ := violations.Create(details);
      }
    }
    if pricing == Some(FIXED_PRICING) {
      if OpenViolationOf(violations.rows, t.sessionId, violationType).None? && violationFlag {
        if violationTask.None? {
          return Err(NO_ID);
        }
        var details := ViolationSchemaMapping(violationTask.value, violationType, metaAmount);
        var _ := violations.Create(details);
      }
    }
    r := Ok(());
  }

  /** The session total after a payment: a missing total counts as 0. */
  function PaidTotal(current: Option<real>, pricePaid: real): (total: real)
    ensures current.None? ==> total == pricePaid
  {
    (if current.Some? then current.value else 0.0) + pricePaid
  }

  /** paid's attribute dictionary: the total is added only for an existing session and a known price. */
  function PaidAttrs(session: Option<Session>, pricePaid: Option<real>): (attrs: seq<Attr>)
    ensures |attrs| >= 1 && attrs[0] == SetWaitingForPayment(Some(false))
  {
    if session.Some? && pricePaid.Some? then
      [SetWaitingForPayment(Some(false)), SetTotalPaidAmount(Some(PaidTotal(session.value.totalPaidAmount, pricePaid.value)))]
    else [SetWaitingForPayment(Some(false))]
  }

  /** A payment with a price adds it to the session total; without one the total stays. */
  lemma PaidAccumulates(s: Session, pricePaid: Option<real>)
    ensures var after := ApplyAttrs(s, PaidAttrs(Some(s), pricePaid));
            after.isWaitingForPayment == Some(false) &&
            (pricePaid.Some? ==> after.totalPaidAmount == Some(s.totalPaidAmount.GetOr(0.0) + pricePaid.value)) &&
            (pricePaid.None? ==> after.totalPaidAmount == s.totalPaidAmount)
  {
    var attrs := PaidAttrs(Some(s), pricePaid);
    if pricePaid.Some? {
      assert attrs[1..][1..] == [];
    } else {
      assert attrs[1..] == [];
    }
  }

  /** Two payments on one session add up. */
  lemma PaidTwiceSums(s: Session, p1: real, p2: real)
    ensures var once := ApplyAttrs(s, PaidAttrs(Some(s), Some(p1)));
            var twice := ApplyAttrs(once, PaidAttrs(Some(once), Some(p2)));
            twice.totalPaidAmount == Some(s.totalPaidAmount.GetOr(0.0) + p1 + p2)
  {
    PaidAccumulates(s, Some(p1));
    PaidAccumulates(ApplyAttrs(s, PaidAttrs(Some(s), Some(p1))), Some(p2));
  }

  /** The session log label of a payment: the duration is appended for paid, reservation and monthly-pass actions. */
  function TimePaidFor(actionType: string, durationText: string): (logged: string)
    ensures actionType !in DURATION_ON_LOG ==> logged == actionType
    ensures actionType in DURATION_ON_LOG ==> |logged| > |actionType|
  {
    if actionType in DURATION_ON_LOG then actionType + ":" + durationText else actionType
  }

  /** The action type can be read back from the label, as the part before ':'. */
  lemma TimePaidForSplits(actionType: string, durationText: string)
    requires ':' !in actionType && ':' !in durationText
    ensures Split(TimePaidFor(actionType, durationText), ':')[0] == actionType
    ensures actionType in DURATION_ON_LOG ==> Split(TimePaidFor(actionType, durationText), ':') == [actionType, durationText]
  {
    if actionType in DURATION_ON_LOG {
      assert actionType + ":" + durationText == actionType + [':'] + durationText;
      SplitOneSeparator(actionType, durationText, ':');
    } else {
      SplitNoSeparator(actionType, ':');
    }
  }

  /** new_task_schema: the follow-up task paid hands back, due at the given time. */
  function NextTaskSchema(t: Task, timestamp: int): (r: Task)
    ensures r == t.(id := 0, status := Pending, spotName := None, nextAt := Some(timestamp), alertStatus := None)
    ensures forall now :: Claimable(r, now) <==> timestamp < now
  {
    Task(0, Pending, t.eventType, t.lotId, t.spotId, None, Some(timestamp), t.plate, t.featureKey, t.alertIds,
         t.sessionId, t.providerType, None)
  }

  /**
   * The log after paid's own line: the line is appended unless it repeats
   * the last one; without a session nothing is logged.
   */
  function PaidLog(logs: seq<LogEntry>, sessionId: Option<int>, line: string, provider: Option<int>, meta: Option<Json>)
    : (r: seq<LogEntry>)
    ensures logs <= r && |r| <= |logs| + 1
  {
    if sessionId.None? then logs
    else
      var e := NewEntry(sessionId.value, line, line, provider, meta, None);
      if Suppressed(logs, e).Some? then logs else logs + [Stored(e, |logs| + 1)]
  }

  /**
   * paid: the session stops waiting for payment and its total grows by the
   * price paid; a log line records the payment; the payment violation is
   * closed. The duration text, the provider and the payment response are
   * parameters.
   */
  method Paid(tasks: TaskTable, sessions: SessionTable, logs: SessionLogTable, violations: ViolationTable,
              types: seq<ProviderType>, t: Task, actionType: string, durationText: string, pricePaid: Option<real>,
              provider: Option<int>, meta: Option<Json>, timestamp: int)
    returns (r: Result<Task>)
    requires tasks.Valid() && sessions.Valid() && logs.Valid() && violations.Valid()
    modifies tasks, sessions, logs, violations
    ensures tasks.Valid() && sessions.Valid() && logs.Valid() && violations.Valid()
    ensures sessions.rows == UpdatedSessions(old(sessions.rows), t.sessionId,
                                             PaidAttrs(SessionRow(old(sessions.rows), t.sessionId), pricePaid))
    ensures ViolationProviderType(types).None? ==> r.Err? && violations.rows == old(violations.rows)
    ensures ViolationProviderType(types).Some? ==> (
              r == Ok(NextTaskSchema(t, timestamp)) &&
              var pending := PendingViolation(old(tasks.rows), ViolationProviderType(types).value, PAYMENT_VIOLATION,
                                              t.sessionId);
              (pending.None? ==> violations.rows == old(violations.rows)) &&
              (pending.Some? ==>
                 violations.rows == CloseOpenViolations(old(violations.rows), t.sessionId, PAYMENT_VIOLATION,
                                                        |AlertIdsOf(old(tasks.rows)[pending.value])|)))
    ensures var paidLog := PaidLog(old(logs.rows), t.sessionId, TimePaidFor(actionType, durationText), provider, meta);
            (ViolationProviderType(types).None? ==> logs.rows == paidLog && tasks.rows == old(tasks.rows)) &&
            (ViolationProviderType(types).Some? ==> (
               var pending := PendingViolation(old(tasks.rows), ViolationProviderType(types).value, PAYMENT_VIOLATION,
                                               t.sessionId);
               var sent := if pending.None? then [] else AlertIdsOf(old(tasks.rows)[pending.value]);
               logs.rows == paidLog + AlertLines(|paidLog|, t.sessionId, Repeat(LOG_PAYMENT_ALERT_CLOSED, |sent|)) &&
               tasks.rows == PendingAlertClosed(old(tasks.rows), ViolationProviderType(types).value, PAYMENT_VIOLATION,
                                                t.sessionId)))
  {
    var session := SessionRow(sessions.rows, t.sessionId);
    var attrs := PaidAttrs(session, pricePaid);
    var logged := TimePaidFor(actionType, durationText);
    var _ := CreateSessionLogs(sessions, logs, t.sessionId, logged, logged, meta, provider, Some(UPDATE_ACTION),
                               Some(attrs), None);
    var closed := ClosePaymentViolation(tasks, sessions, logs, violations, types, t);
    if closed.Err? {
      return Err(closed.msg);
    }
    r := Ok(NextTaskSchema(t, timestamp));
  }
}
