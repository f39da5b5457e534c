/**
 * The engine's lookup tables: row statuses, event keys, feature keys and
 * the session-log vocabulary, with the small mappings defined over them.
 */
module Enums {
  import opened Wrappers
  import opened Text

  /** The life cycle shared by tasks and sub-tasks. */
  datatype Status = Pending | InProgress | Completed | Deleted | Closed

  /** The stored spelling of a task status; a deleted task is stored as "DELETE". */
  function TaskStatusValue(s: Status): (v: string)
    ensures s == Deleted <==> v == "DELETE"
  {
    match s
    case Pending => "PENDING"
    case InProgress => "IN_PROGRESS"
    case Completed => "COMPLETED"
    case Deleted => "DELETE"
    case Closed => "CLOSED"
  }

  /** The stored spelling of a sub-task status; a deleted sub-task is stored as "DELETED". */
  function SubTaskStatusValue(s: Status): (v: string)
    ensures s == Deleted <==> v == "DELETED"
    ensures s != Deleted ==> v == TaskStatusValue(s)
  {
    match s
    case Pending => "PENDING"
    case InProgress => "IN_PROGRESS"
    case Completed => "COMPLETED"
    case Deleted => "DELETED"
    case Closed => "CLOSED"
  }

  // ---- event keys ----
  const SPOT_OCCUPIED := "spot.occupied"
  const SPOT_FREE := "spot.free"
  const CAR_EXIT := "car.exit"
  const CAR_ENTRY := "car.entry"
  const PAYMENT_VIOLATION := "payment.violation"
  const OVERSTAY_VIOLATION := "overstay.violation"
  const PARKING_VIOLATION := "parking.violation"
  const VIOLATION_INACTIVE := "violation.inactivation"
  const GROUPED_EVENTS: seq<string> := [SPOT_OCCUPIED, SPOT_FREE, CAR_EXIT, CAR_ENTRY]

  // ---- incoming event keys seen by the session manager ----
  const EVENT_PARKING_SPOT_UPDATES := "parking_spot_updates"
  const EVENT_LPR_TO_SPOT := "lpr.spot"
  const EVENT_LPR_TO_SPOT_FREE := "lpr.spot.free"

  // ---- feature keys ----
  const PAYMENT_CHECK_LPR := "payment.check.lpr"
  const PAYMENT_CHECK_SPOT := "payment.check.spot"
  const RESERVATION_CHECK_LPR := "reservation.check.lpr"
  const NOTIFY_SG_ADMIN := "notify.sg.admin"
  const ENFORCEMENT_INACTIVATE := "enforcement.inactivate"
  const ENFORCEMENT_CITATION := "enforcement.citation"

  const PROVIDER_RESERVATION_TIBA := "provider.reservation.tiba"

  // ---- violation rows ----
  const OPEN := "OPEN"
  const CLOSED := "CLOSED"

  // ---- action types ----
  const ACTION_PAID := "paid"
  const ACTION_NOT_PAID := "not paid"
  const SYSTEM_CLOSED := "System Closed"

  // ---- session-log labels ----
  const LOG_ENTRY := "Entry"
  const LOG_EXIT := "Exit"
  const LOG_NOT_PAID := "Not Paid"
  const LOG_PAID := "Paid"
  const LOG_NON_BILLABLE := "Non Billable"
  const LOG_OVERSTAY := "Overstay"
  const LOG_UNRESERVED := "Unreserved"
  const LOG_RESERVATION_REMAINING := "Reservation Remaining"
  const LOG_MONTHLY_PASS := "Monthly Pass"
  const LOG_OVERSTAY_ALERT_CLOSED := "Overstay Alert Closed"
  const LOG_PAYMENT_ALERT_CLOSED := "Payment Alert Closed"
  const LOG_VALID_PERMIT := "Valid Permit"
  const LOG_PERMIT_EXPIRED := "Permit Expired"
  const LOG_LPR_TO_SPOT := "Spot Matched: {spot_name}"
  const LOG_LPR_TO_SPOT_FREE := "Spot Free: {spot_name}"
  const LPR_ENTRY_DESCRIPTION := "This session was automatically closed after another session was detected for the same vehicle."
  const OCCUPIED_DESCRIPTION := "This session was automatically closed after a new vehicle session was detected for the same spot."
  const FORCED_EXIT_DESCRIPTION := "This session was automatically closed for exceeding the maximum session duration configured for this parking lot."
  const UNKNOWN_EVENT_DESCRIPTION := "This session was automatically closed due to an unexpected system event, such as a camera restart."

  /** Log labels after which a repeat of the same label is not logged again. */
  const SKIP_INSERT_IF_LAST_LOG_MATCHES: seq<string> := [LOG_NOT_PAID, LOG_PERMIT_EXPIRED, LOG_VALID_PERMIT, LOG_UNRESERVED]
  /** Log labels that carry a duration suffix. */
  const DURATION_ON_LOG: seq<string> := [LOG_PAID, LOG_RESERVATION_REMAINING, LOG_MONTHLY_PASS]

  // ---- alert inactivation reasons ----
  const REASON_PAYMENT_FOUND := "System marked as inactive as Payment was made."
  const REASON_EXIT_DETECT := "System marked as inactive as Vehicle has exited the parking lot."
  const REASON_FORCED_EXIT := "System marked as inactive as this session was automatically closed for exceeding the maximum session duration configured for this parking lot."
  const REASON_SAME_LPR_ENTRY := "System marked as inactive as this session was automatically closed after another session was detected for the same vehicle."
  const REASON_UNKNOWN_EVENT := "System marked as inactive as this session was automatically closed due to an unexpected system event, such as a camera restart."
  const REASON_SAME_OCCUPIED_EVENT := "System marked as inactive as this session was automatically closed after a new vehicle session was detected for the same spot."
  const REASON_LPR_TO_SPOT_FREE := "System marked as inactive as Vehicle has exited from the spot."
  const REASON_LPR_SPOT_DETECTED := "System marked as inactive as the vehicle occupied a different spot"
  const REASON_LPR_EXIT := "LPR exit is detected for the car"

  // ---- provider types and spot statuses ----
  const PROVIDER_VIOLATION := "provider.violation"
  /** `Event.unavailable.name` and `Event.available.name`, the spot_status values. */
  const SPOT_STATUS_UNAVAILABLE := "unavailable"
  const SPOT_STATUS_AVAILABLE := "available"

  /** Whether a repeated `action` is suppressed by the session log. */
  predicate SkipsRepeat(action: string)
    ensures SkipsRepeat(action) <==>
      action == "Not Paid" || action == "Permit Expired" || action == "Valid Permit" || action == "Unreserved"
  {
    action in SKIP_INSERT_IF_LAST_LOG_MATCHES
  }

  /** Membership in the EXIT pair of the spot/LPR event mapping. */
  predicate IsExitEvent(eventKey: string)
    ensures IsExitEvent(eventKey) <==> eventKey == "spot.free" || eventKey == "car.exit"
  {
    eventKey in [SPOT_FREE, CAR_EXIT]
  }

  /** Membership in the ENTRY pair of the spot/LPR event mapping. */
  predicate IsEntryEvent(eventKey: string)
    ensures IsEntryEvent(eventKey) <==> eventKey == "spot.occupied" || eventKey == "car.entry"
  {
    eventKey in [SPOT_OCCUPIED, CAR_ENTRY]
  }

  /** Waiting-for-payment mapping, looked up by member name; a missing name raises. */
  function IsWaitingForPayment(name: string): (r: Option<bool>)
    ensures r == Some(true) <==> name == "ENTRY" || name == "OCCUPIED"
    ensures r == Some(false) <==> name == "EXIT" || name == "FREE"
  {
    if name == "ENTRY" || name == "OCCUPIED" then Some(true)
    else if name == "EXIT" || name == "FREE" then Some(false)
    else None
  }

  /** Lookup of the session-log vocabulary by member name; a missing name raises. */
  function SessionLogLabel(name: string): Option<string>
  {
    match name
    case "entry" => Some(LOG_ENTRY)
    case "exit" => Some(LOG_EXIT)
    case "occupied" => Some("occupied")
    case "free" => Some("free")
    case "violation" => Some("violation")
    case "reservation_expired" => Some("Reservation Expired")
    case "unreserved" => Some(LOG_UNRESERVED)
    case "reservation_remaining" => Some(LOG_RESERVATION_REMAINING)
    case "monthly_pass" => Some(LOG_MONTHLY_PASS)
    case "not_paid" => Some(LOG_NOT_PAID)
    case "paid" => Some(LOG_PAID)
    case "non_payment_time" => Some(LOG_NON_BILLABLE)
    case "overstay" => Some(LOG_OVERSTAY)
    case "alert_closed" => Some("Alert Closed")
    case "Overstay_alert" => Some("Overstay Alert sent")
    case "Payment_alert" => Some("Payment Alert sent")
    case "OVERSTAY_ALERT_CLOSED" => Some(LOG_OVERSTAY_ALERT_CLOSED)
    case "PAYMENT_ALERT_CLOSED" => Some(LOG_PAYMENT_ALERT_CLOSED)
    case "PRIVILEGE_PERMIT" => Some("Privilege Permit")
    case "VIOLATION_SENT" => Some("Violation Sent")
    case "LPR_TO_SPOT" => Some(LOG_LPR_TO_SPOT)
    case "LPR_TO_SPOT_FREE" => Some(LOG_LPR_TO_SPOT_FREE)
    case "inactivation" => Some("Violation inactivated")
    case "Valid_PERMIT" => Some(LOG_VALID_PERMIT)
    case "PERMIT_EXPIRED" => Some(LOG_PERMIT_EXPIRED)
    case _ => None
  }

  /**
   * `EventsForSessionLog.format(spot_name=...)`: the enum's own `format`
   * method formats the member's value, so this is `str.format` of the
   * template text.
   */
  function FormatSpotName(template: string, spotName: string): string
  {
    ReplaceAll(template, "{spot_name}", spotName)
  }

  lemma TemplateWithPrefix(prefix: string, spotName: string)
    requires '{' !in prefix
    ensures FormatSpotName(prefix + "{spot_name}", spotName) == prefix + spotName
  {
    ReplaceWhole("{spot_name}", spotName);
    ReplaceSkipsPrefix(prefix, "{spot_name}", "{spot_name}", spotName);
  }

  /** The spot templates put the spot name after their fixed prefix. */
  lemma SpotTemplates(spotName: string)
    ensures FormatSpotName(LOG_LPR_TO_SPOT, spotName) == "Spot Matched: " + spotName
    ensures FormatSpotName(LOG_LPR_TO_SPOT_FREE, spotName) == "Spot Free: " + spotName
  {
    var matched, free := "Spot Matched: ", "Spot Free: ";
    assert '{' !in matched;
    assert '{' !in free;
    assert LOG_LPR_TO_SPOT == matched + "{spot_name}";
    assert LOG_LPR_TO_SPOT_FREE == free + "{spot_name}";
    TemplateWithPrefix(matched, spotName);
    TemplateWithPrefix(free, spotName);
  }

  /** `EventsForSessionLog.LPR_TO_SPOT.format(spot_name="A7")` is "Spot Matched: A7". */
  lemma SpotMatchedA7()
    ensures FormatSpotName(LOG_LPR_TO_SPOT, "A7") == "Spot Matched: A7"
  {
    SpotTemplates("A7");
  }
}
