/**
 * Payment-window arithmetic: which daily window the current time falls
 * in, when the next one starts, and the status / wake-up / end time the
 * scheduler uses for each operating mode of a lot.
 */
module ParkingWindow {
  import opened Wrappers
  import opened Common

  /** Minutes of grace given inside a paid window (the configured default). */
  const VIOLATION_GRACE_PERIOD := 20

  function TimeOfDayOf(now: int): TimeOfDay { now % DAY }

  /** `datetime.combine(now.date(), t)`. */
  function TodayAt(now: int, t: TimeOfDay): int { now - now % DAY + t }

  predicate InSlot(w: Slot, tod: TimeOfDay) { w.start <= tod <= w.end }

  /** Lexicographic order on (start, end) pairs, as Python compares tuples. */
  predicate LexLe(a: (int, int), b: (int, int))
  {
    a.0 < b.0 || (a.0 == b.0 && a.1 <= b.1)
  }

  datatype WindowCheck = WindowCheck(isPaid: bool, nextStart: Option<int>, currentEnd: Option<int>)

  /** Index of the first window containing `tod`. */
  function FirstContaining(windows: seq<Slot>, tod: TimeOfDay): (r: Option<nat>)
    ensures r.None? ==> forall i :: 0 <= i < |windows| ==> !InSlot(windows[i], tod)
    ensures r.Some? ==> (r.value < |windows| && InSlot(windows[r.value], tod)
                         && forall j :: 0 <= j < r.value ==> !InSlot(windows[j], tod))
  {
    if windows == [] then None
    else if InSlot(windows[0], tod) then Some(0)
    else match FirstContaining(windows[1..], tod)
      case None => None
      case Some(i) => Some(i + 1)
  }

  /** The smallest (start, end) of today's windows that start after `now`'s time of day. */
  function EarliestAfter(windows: seq<Slot>, now: int): (r: Option<(int, int)>)
    ensures r.None? <==> forall i :: 0 <= i < |windows| ==> windows[i].start <= TimeOfDayOf(now)
    ensures r.Some? ==> exists i :: (0 <= i < |windows| && windows[i].start > TimeOfDayOf(now)
                                     && r.value == (TodayAt(now, windows[i].start), TodayAt(now, windows[i].end)))
    ensures r.Some? ==> forall i :: 0 <= i < |windows| && windows[i].start > TimeOfDayOf(now) ==>
      LexLe(r.value, (TodayAt(now, windows[i].start), TodayAt(now, windows[i].end)))
  {
    if windows == [] then None
    else
      var rest := EarliestAfter(windows[1..], now);
      var w := windows[0];
      var here := (TodayAt(now, w.start), TodayAt(now, w.end));
      var r := if w.start <= TimeOfDayOf(now) then rest
        else if rest.None? || LexLe(here, rest.value) then Some(here)
        else rest;
      assert r.Some? ==> exists i :: (0 <= i < |windows| && windows[i].start > TimeOfDayOf(now)
                                       && r.value == (TodayAt(now, windows[i].start), TodayAt(now, windows[i].end))) by {
        if r.Some? && r != Some(here) {
          var i :| 0 <= i < |windows[1..]| && windows[1..][i].start > TimeOfDayOf(now)
            && rest.value == (TodayAt(now, windows[1..][i].start), TodayAt(now, windows[1..][i].end));
          assert windows[i + 1] == windows[1..][i];
        }
      }
      assert forall i :: 1 <= i < |windows| ==> windows[i] == windows[1..][i - 1];
      r
  }

  /** Is `now` inside a payment window; if not, when does the next one start and end. */
  function IsInPaymentWindow(now: int, windows: seq<Slot>): (r: WindowCheck)
    ensures r.isPaid <==> exists i :: 0 <= i < |windows| && InSlot(windows[i], TimeOfDayOf(now))
    ensures r.isPaid ==> r.nextStart.None? && r.currentEnd.Some? && windows != []
    ensures r.isPaid ==> exists i :: (0 <= i < |windows|
                                      && InSlot(windows[i], TimeOfDayOf(now)) && (forall j :: 0 <= j < i ==> !InSlot(windows[j], TimeOfDayOf(now)))
                                      && r.currentEnd == Some(TodayAt(now, windows[i].end)))
    ensures windows == [] ==> r == WindowCheck(false, None, None)
    ensures !r.isPaid && windows != [] ==> r.nextStart.Some? && r.currentEnd.Some?
  {
    var tod := TimeOfDayOf(now);
    match FirstContaining(windows, tod)
    case Some(i) => WindowCheck(true, None, Some(TodayAt(now, windows[i].end)))
    case None =>
      if windows == [] then WindowCheck(false, None, None)
      else
        var next := match EarliestAfter(windows, now)
          case Some(p) => p
          case None => (TodayAt(now, windows[0].start) + DAY, TodayAt(now, windows[0].end) + DAY);
        WindowCheck(false, Some(next.0), Some(next.1))
  }

  /** Outside every window, the next start is the earliest later start today, else tomorrow's first window. */
  lemma NextWindowStart(now: int, windows: seq<Slot>)
    requires windows != []
    requires !IsInPaymentWindow(now, windows).isPaid
    ensures var s := IsInPaymentWindow(now, windows).nextStart.value;
      (exists i :: 0 <= i < |windows| && windows[i].start > TimeOfDayOf(now)) ==>
        (exists i :: 0 <= i < |windows| && windows[i].start > TimeOfDayOf(now) && s == TodayAt(now, windows[i].start))
        && (forall i :: 0 <= i < |windows| && windows[i].start > TimeOfDayOf(now) ==> s <= TodayAt(now, windows[i].start))
    ensures (forall i :: 0 <= i < |windows| ==> windows[i].start <= TimeOfDayOf(now)) ==>
      IsInPaymentWindow(now, windows).nextStart == Some(TodayAt(now, windows[0].start) + DAY)
    ensures now < IsInPaymentWindow(now, windows).nextStart.value
  {
  }

  /** The earliest end of today's windows still running after `now`, else tomorrow's first window end. */
  function NextFreeWindowStart(now: int, windows: seq<Slot>): (r: int)
    requires windows != []
    ensures now < r
    ensures forall i :: 0 <= i < |windows| && windows[i].end > TimeOfDayOf(now) ==> r <= TodayAt(now, windows[i].end)
    ensures (exists i :: 0 <= i < |windows| && windows[i].end > TimeOfDayOf(now) && r == TodayAt(now, windows[i].end))
      || r == TodayAt(now, windows[0].end) + DAY
  {
    match EarliestEndAfter(windows, now)
    case Some(e) => e
    case None => TodayAt(now, windows[0].end) + DAY
  }

  function EarliestEndAfter(windows: seq<Slot>, now: int): (r: Option<int>)
    ensures r.None? <==> forall i :: 0 <= i < |windows| ==> windows[i].end <= TimeOfDayOf(now)
    ensures r.Some? ==> exists i :: 0 <= i < |windows| && windows[i].end > TimeOfDayOf(now) && r.value == TodayAt(now, windows[i].end)
    ensures r.Some? ==> forall i :: 0 <= i < |windows| && windows[i].end > TimeOfDayOf(now) ==> r.value <= TodayAt(now, windows[i].end)
  {
    if windows == [] then None
    else
      var rest := EarliestEndAfter(windows[1..], now);
      var here := TodayAt(now, windows[0].end);
      var r := if windows[0].end <= TimeOfDayOf(now) then rest
        else if rest.None? || here <= rest.value then Some(here)
        else rest;
      assert forall i :: 1 <= i < |windows| ==> windows[i] == windows[1..][i - 1];
      assert r.Some? && r != Some(here) ==> exists i :: 0 <= i < |windows| && windows[i].end > TimeOfDayOf(now) && r.value == TodayAt(now, windows[i].end) by {
        if r.Some? && r != Some(here) {
          var i :| 0 <= i < |windows[1..]| && windows[1..][i].end > TimeOfDayOf(now) && rest.value == TodayAt(now, windows[1..][i].end);
          assert windows[i + 1] == windows[1..][i];
        }
      }
      r
  }

  /** What the scheduler needs to know about the lot's payment situation right now. */
  datatype PaymentWindow = PaymentWindow(
    status: bool,
    nextAt: int,
    endTime: int,
    nextFreeWindowStart: Option<int>,
    actionType: Option<string>)

  function Min(a: int, b: int): int { if a <= b then a else b }

  /** The error an unknown operation type raises. */
  const OPERATION_NOT_MATCHED := "Payment window operation type not matched."
  /** What adding a missing overstay limit to a time raises. */
  const NONE_OPERAND := "unsupported operand type(s) for +: 'datetime.datetime' and 'NoneType'"
  /** What comparing a time with a missing next window start raises. */
  const NONE_COMPARISON := "'<=' not supported between instances of 'datetime.datetime' and 'NoneType'"

  /** Status, wake-up time and end time of the lot's payment window at `now`. */
  function CheckPaymentWindow(lot: Lot, now: int): (r: Result<PaymentWindow>)
    ensures lot.operation.OtherOperation? ==> r == Err(OPERATION_NOT_MATCHED)
    ensures lot.operation == Paid24Hours || lot.operation == SpotBased24HoursFree ==>
      r.Ok? && r.value.status && r.value.nextAt == now + 60 * VIOLATION_GRACE_PERIOD
      && r.value.endTime == r.value.nextAt + DAY
    ensures lot.operation == LprBased24HoursFree ==>
      (r.Ok? <==> ParkinglotOverstayLimit(lot).Some?)
      && (r.Ok? ==> !r.value.status && r.value.nextAt == now + 60 * ParkinglotOverstayLimit(lot).value
                    && r.value.endTime == r.value.nextAt + DAY)
    ensures lot.operation == SpecifyLprBasedPaidTime && !IsInPaymentWindow(now, lot.slots).isPaid ==>
      (r.Ok? <==> ParkinglotOverstayLimit(lot).Some? && lot.slots != [])
      && (r.Ok? ==> (!r.value.status
                     && r.value.endTime == IsInPaymentWindow(now, lot.slots).nextStart.value
                     && r.value.nextAt == Min(now + 60 * ParkinglotOverstayLimit(lot).value, r.value.endTime)))
    ensures lot.operation == SpecifyLprBasedPaidTime && IsInPaymentWindow(now, lot.slots).isPaid ==>
      r.Ok? && r.value.status
      && r.value.endTime == IsInPaymentWindow(now, lot.slots).currentEnd.value
      && r.value.nextFreeWindowStart == Some(NextFreeWindowStart(now, lot.slots))
      && r.value.nextAt == Min(now + 60 * VIOLATION_GRACE_PERIOD, r.value.nextFreeWindowStart.value)
    ensures r.Ok? ==> r.value.actionType.None?
  {
    var overstay := ParkinglotOverstayLimit(lot);
    var configured := 60 * VIOLATION_GRACE_PERIOD;
    match lot.operation
    case Paid24Hours =>
      Ok(PaymentWindow(true, now + configured, now + configured + DAY, None, None))
    case SpotBased24HoursFree =>
      Ok(PaymentWindow(true, now + configured, now + configured + DAY, None, None))
    case LprBased24HoursFree =>
      if overstay.None? then Err(NONE_OPERAND)
      else Ok(PaymentWindow(false, now + 60 * overstay.value, now + 60 * overstay.value + DAY, None, None))
    case SpecifyLprBasedPaidTime =>
      var check := IsInPaymentWindow(now, lot.slots);
      if !check.isPaid then
        if overstay.None? then Err(NONE_OPERAND)
        else if check.nextStart.None? then Err(NONE_COMPARISON)
        else
          var nextStart := check.nextStart.value;
          var nextAt := if now + 60 * overstay.value <= nextStart then now + 60 * overstay.value else nextStart;
          Ok(PaymentWindow(false, nextAt, nextStart, None, None))
      else
        var freeStart := NextFreeWindowStart(now, lot.slots);
        var nextAt := if now + configured <= freeStart then now + configured else freeStart;
        Ok(PaymentWindow(true, nextAt, check.currentEnd.value, Some(freeStart), None))
    case OtherOperation(_) => Err(OPERATION_NOT_MATCHED)
  }

  /** A lot is never scheduled to wake up in the past, nor after the end of a non-paid stretch. */
  lemma WakeUpBounds(lot: Lot, now: int)
    requires CheckPaymentWindow(lot, now).Ok?
    ensures var w := CheckPaymentWindow(lot, now).value;
      now <= w.nextAt
      && (!w.status || lot.operation != SpecifyLprBasedPaidTime ==> w.nextAt <= w.endTime)
      && (w.nextFreeWindowStart.Some? ==> w.nextAt <= w.nextFreeWindowStart.value)
  {
    if lot.operation == SpecifyLprBasedPaidTime && !IsInPaymentWindow(now, lot.slots).isPaid {
      NextWindowStart(now, lot.slots);
    }
  }

  /** Inside a paid window whose end is still ahead, the wake-up comes no later than that end. */
  lemma PaidWakeUpBeforeWindowEnd(lot: Lot, now: int)
    requires lot.operation == SpecifyLprBasedPaidTime
    requires IsInPaymentWindow(now, lot.slots).isPaid
    requires forall i :: 0 <= i < |lot.slots| && InSlot(lot.slots[i], TimeOfDayOf(now)) ==> lot.slots[i].end > TimeOfDayOf(now)
    ensures CheckPaymentWindow(lot, now).value.nextAt <= CheckPaymentWindow(lot, now).value.endTime
  {
  }
}
