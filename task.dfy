/**
 * The task table. A poll claims the due PENDING tasks in id order and hands
 * the executor the running tasks grouped by session and feature priority;
 * the close rules move whole groups of rows to a new status at once.
 *
 * A bulk SQL update is modelled as a function from the old rows to the new
 * rows; the table class reassigns its `rows` field to that function's value.
 */
module TaskModel {
  import opened Wrappers
  import opened Rows
  import opened Enums

  /** How many tasks one poll claims, and how many running tasks it hands out. */
  const TASK_PICKING_LIMIT := 10

  datatype Task = Task(
    id: nat,
    status: Status,
    eventType: string,
    lotId: int,
    spotId: Option<string>,
    spotName: Option<string>,
    nextAt: Option<int>,
    plate: Option<string>,
    featureKey: string,
    alertIds: Option<seq<int>>,
    sessionId: Option<int>,
    providerType: int,
    alertStatus: Option<string>)

  predicate IsOpen(t: Task) { t.status == Pending || t.status == InProgress }

  /** `next_at < now`; a task without a next_at never compares (SQL NULL). */
  predicate IsDue(t: Task, now: int) { t.nextAt.Some? && t.nextAt.value < now }

  predicate Claimable(t: Task, now: int) { t.status == Pending && IsDue(t, now) }

  predicate Running(t: Task, now: int) { t.status == InProgress && IsDue(t, now) }

  /** Auto-increment ids without deletions: the row at index i has id i + 1. */
  predicate WellNumbered(rows: seq<Task>)
  {
    forall i :: 0 <= i < |rows| ==> rows[i].id == i + 1
  }

  function Min(a: int, b: int): int { if a <= b then a else b }

  // ---------------------------------------------------------------- claiming

  /** The number of claimable rows in `rows`. */
  function CountClaimable(rows: seq<Task>, now: int): (n: nat)
    ensures n <= |rows|
  {
    if rows == [] then 0
    else CountClaimable(rows[..|rows| - 1], now) + (if Claimable(rows[|rows| - 1], now) then 1 else 0)
  }

  /** The count is zero exactly when no row is claimable. */
  lemma {:induction false} NoneClaimable(rows: seq<Task>, now: int)
    ensures CountClaimable(rows, now) == 0 <==> forall i :: 0 <= i < |rows| ==> !Claimable(rows[i], now)
    decreases |rows|
  {
    if rows != [] {
      var init := rows[..|rows| - 1];
      NoneClaimable(init, now);
      assert forall i :: 0 <= i < |init| ==> init[i] == rows[i];
    }
  }

  /** Counting one row further adds that row. */
  lemma CountStep(rows: seq<Task>, now: int, j: nat)
    requires j < |rows|
    ensures CountClaimable(rows[..j + 1], now) == CountClaimable(rows[..j], now) + (if Claimable(rows[j], now) then 1 else 0)
  {
    assert rows[..j + 1][..j] == rows[..j];
    assert rows[..j + 1][j] == rows[j];
  }

  /** Row i is one of the first TASK_PICKING_LIMIT claimable rows in id order. */
  predicate Claimed(rows: seq<Task>, now: int, i: int)
  {
    0 <= i < |rows| && Claimable(rows[i], now) && CountClaimable(rows[..i], now) < TASK_PICKING_LIMIT
  }

  /** The table after a poll: the claimed rows are IN_PROGRESS, nothing else changes. */
  function Claim(rows: seq<Task>, now: int): (r: seq<Task>)
    ensures |r| == |rows|
    ensures forall i :: 0 <= i < |rows| && Claimed(rows, now, i) ==> r[i] == rows[i].(status := InProgress)
    ensures forall i :: 0 <= i < |rows| && !Claimed(rows, now, i) ==> r[i] == rows[i]
  {
    seq(|rows|, i requires 0 <= i < |rows| =>
      if Claimed(rows, now, i) then rows[i].(status := InProgress) else rows[i])
  }

  lemma {:induction false} CountPrefixMonotone(rows: seq<Task>, now: int, i: nat, j: nat)
    requires i <= j <= |rows|
    ensures CountClaimable(rows[..i], now) <= CountClaimable(rows[..j], now)
    ensures i < j && Claimable(rows[i], now) ==>
              CountClaimable(rows[..i], now) < CountClaimable(rows[..j], now)
    decreases j - i
  {
    if i < j {
      CountPrefixMonotone(rows, now, i, j - 1);
      CountStep(rows, now, j - 1);
    }
  }

  /** A claimable row that was passed over has a larger id than every claimed row. */
  lemma ClaimedBeforeSkipped(rows: seq<Task>, now: int, i: nat, j: nat)
    requires WellNumbered(rows)
    requires Claimed(rows, now, i)
    requires j < |rows| && Claimable(rows[j], now) && !Claimed(rows, now, j)
    ensures rows[i].id < rows[j].id
  {
    if j <= i {
      CountPrefixMonotone(rows, now, j, i);
    }
  }

  /** The number of claimed rows among the first k. */
  function NumClaimed(rows: seq<Task>, now: int, k: nat): nat
    requires k <= |rows|
  {
    if k == 0 then 0
    else NumClaimed(rows, now, k - 1) + (if Claimed(rows, now, k - 1) then 1 else 0)
  }

  /** A poll claims exactly min(TASK_PICKING_LIMIT, number of claimable rows). */
  lemma {:induction false} ClaimCount(rows: seq<Task>, now: int, k: nat)
    requires k <= |rows|
    ensures NumClaimed(rows, now, k) == Min(CountClaimable(rows[..k], now), TASK_PICKING_LIMIT)
  {
    if k > 0 {
      ClaimCount(rows, now, k - 1);
      CountStep(rows, now, k - 1);
    }
  }

  // ---------------------------------------------------------------- hand-out order

  /** ORDER BY session_id: ascending, a NULL session sorts after every number. */
  predicate SessionBefore(a: Option<int>, b: Option<int>)
  {
    (a.Some? && b.None?) || (a.Some? && b.Some? && a.value < b.value)
  }

  /** notify.sg.admin first, then reservation.check.lpr, then payment.check.lpr, then the rest. */
  function Priority(featureKey: string): (p: int)
    ensures 1 <= p <= 4
    ensures p == 1 <==> featureKey == NOTIFY_SG_ADMIN
    ensures p == 2 <==> featureKey == RESERVATION_CHECK_LPR
    ensures p == 3 <==> featureKey == PAYMENT_CHECK_LPR
  {
    if featureKey == NOTIFY_SG_ADMIN then 1
    else if featureKey == RESERVATION_CHECK_LPR then 2
    else if featureKey == PAYMENT_CHECK_LPR then 3
    else 4
  }

  /** The hand-out order: session id, then priority, then id. */
  predicate KeyLe(a: Task, b: Task)
  {
    SessionBefore(a.sessionId, b.sessionId) ||
    (a.sessionId == b.sessionId &&
      (Priority(a.featureKey) < Priority(b.featureKey) ||
        (Priority(a.featureKey) == Priority(b.featureKey) && a.id <= b.id)))
  }

  lemma KeyLeTotal(a: Task, b: Task)
    ensures KeyLe(a, b) || KeyLe(b, a)
  {
  }

  lemma KeyLeTransitive(a: Task, b: Task, c: Task)
    requires KeyLe(a, b) && KeyLe(b, c)
    ensures KeyLe(a, c)
  {
  }

  predicate Sorted(s: seq<Task>)
  {
    forall i, j :: 0 <= i < j < |s| ==> KeyLe(s[i], s[j])
  }

  /** The running rows, in id order. */
  function RunningRows(rows: seq<Task>, now: int): (r: seq<Task>)
    ensures forall t :: t in r <==> t in rows && Running(t, now)
    ensures |r| <= |rows|
  {
    if rows == [] then []
    else (if Running(rows[0], now) then [rows[0]] else []) + RunningRows(rows[1..], now)
  }

  /** One task inserted before the first task it does not follow. */
  function Insert(x: Task, s: seq<Task>): (r: seq<Task>)
    ensures |r| == |s| + 1
  {
    if s == [] then [x]
    else if KeyLe(x, s[0]) then [x] + s
    else [s[0]] + Insert(x, s[1..])
  }

  /** A task that precedes every task of a sorted sequence can go in front of it. */
  lemma SortedCons(h: Task, t: seq<Task>)
    requires Sorted(t) && forall y :: y in t ==> KeyLe(h, y)
    ensures Sorted([h] + t)
  {
    var s := [h] + t;
    forall i, j | 0 <= i < j < |s| ensures KeyLe(s[i], s[j]) {
      assert s[j] == t[j - 1];
      if i > 0 {
        assert s[i] == t[i - 1];
      }
    }
  }

  /** Inserting keeps every task and, into a sorted sequence, keeps it sorted. */
  lemma {:induction false} InsertProps(x: Task, s: seq<Task>)
    ensures multiset(Insert(x, s)) == multiset(s) + multiset{x}
    ensures Sorted(s) ==> Sorted(Insert(x, s))
    decreases |s|
  {
    if s == [] {
    } else if KeyLe(x, s[0]) {
      if Sorted(s) {
        forall y | y in s ensures KeyLe(x, y) {
          var k :| 0 <= k < |s| && s[k] == y;
          if k > 0 { KeyLeTransitive(x, s[0], s[k]); }
        }
        SortedCons(x, s);
      }
    } else {
      var rest := Insert(x, s[1..]);
      InsertProps(x, s[1..]);
      assert s == [s[0]] + s[1..];
      KeyLeTotal(x, s[0]);
      if Sorted(s) {
        assert Sorted(s[1..]) by {
          forall i, j | 0 <= i < j < |s[1..]| ensures KeyLe(s[1..][i], s[1..][j]) {
            assert s[1..][i] == s[i + 1] && s[1..][j] == s[j + 1];
          }
        }
        forall y | y in rest ensures KeyLe(s[0], y) {
          assert y in multiset(rest);
          if y != x {
            assert y in multiset(s[1..]);
            var k :| 0 <= k < |s[1..]| && s[1..][k] == y;
            assert s[k + 1] == y;
          }
        }
        SortedCons(s[0], rest);
      }
    }
  }

  /** Insertion sort by the hand-out order. */
  function Sort(s: seq<Task>): (r: seq<Task>)
    ensures multiset(r) == multiset(s)
    ensures Sorted(r)
  {
    if s == [] then []
    else
      assert s == [s[0]] + s[1..];
      InsertProps(s[0], Sort(s[1..]));
      Insert(s[0], Sort(s[1..]))
  }

  /** get_in_progress_task: at most TASK_PICKING_LIMIT running rows, first in the hand-out order. */
  function Backlog(rows: seq<Task>, now: int): (r: seq<Task>)
    ensures |r| <= TASK_PICKING_LIMIT
    ensures Sorted(r)
    ensures forall t :: t in r ==> t in rows && Running(t, now)
  {
    var s := Sort(RunningRows(rows, now));
    assert forall t :: t in s ==> t in RunningRows(rows, now) by {
      forall t | t in s ensures t in RunningRows(rows, now) {
        assert t in multiset(s);
      }
    }
    if |s| <= TASK_PICKING_LIMIT then s
    else
      assert forall t :: t in s[..TASK_PICKING_LIMIT] ==> t in s;
      s[..TASK_PICKING_LIMIT]
  }

  /** A running row left out of the backlog comes after every row in it, and the backlog is full. */
  lemma BacklogIsFirst(rows: seq<Task>, now: int, t: Task)
    requires t in rows && Running(t, now) && t !in Backlog(rows, now)
    ensures |Backlog(rows, now)| == TASK_PICKING_LIMIT
    ensures forall b :: b in Backlog(rows, now) ==> KeyLe(b, t)
  {
    var s := Sort(RunningRows(rows, now));
    assert t in multiset(RunningRows(rows, now));
    assert t in s by { assert t in multiset(s); }
    var j :| 0 <= j < |s| && s[j] == t;
    assert |s| > TASK_PICKING_LIMIT;
    assert j >= TASK_PICKING_LIMIT;
    forall b | b in Backlog(rows, now) ensures KeyLe(b, t) {
      var i :| 0 <= i < TASK_PICKING_LIMIT && s[i] == b;
    }
  }

  /** When at most TASK_PICKING_LIMIT rows are running, the backlog holds all of them. */
  lemma BacklogComplete(rows: seq<Task>, now: int)
    requires |RunningRows(rows, now)| <= TASK_PICKING_LIMIT
    ensures multiset(Backlog(rows, now)) == multiset(RunningRows(rows, now))
  {
  }

  // ---------------------------------------------------------------- close rules

  /** close_task compares the event type with these two spellings. */
  predicate IsCloseTaskExit(eventType: string)
  {
    eventType == "lpr_exit" || eventType == CAR_EXIT
  }

  /** close_task: an exit closes the session's tasks except enforcement.inactivate; the task itself is always closed. */
  function CloseTaskRows(rows: seq<Task>, k: nat): (r: seq<Task>)
    requires k < |rows|
    ensures |r| == |rows|
    ensures r[k] == rows[k].(status := Closed)
    ensures forall i :: 0 <= i < |rows| ==> r[i] == rows[i].(status := r[i].status)
    ensures forall i :: 0 <= i < |rows| && i != k ==>
              (r[i].status == Closed <==>
                rows[i].status == Closed ||
                (IsCloseTaskExit(rows[k].eventType) && rows[i].sessionId == rows[k].sessionId &&
                 rows[i].featureKey != ENFORCEMENT_INACTIVATE))
    ensures !IsCloseTaskExit(rows[k].eventType) ==> forall i :: 0 <= i < |rows| && i != k ==> r[i] == rows[i]
  {
    var task := rows[k];
    seq(|rows|, i requires 0 <= i < |rows| =>
      if i == k then rows[i].(status := Closed)
      else if IsCloseTaskExit(task.eventType) && rows[i].sessionId == task.sessionId &&
              rows[i].featureKey != ENFORCEMENT_INACTIVATE
      then rows[i].(status := Closed)
      else rows[i])
  }

  predicate OpenInSession(t: Task, sessionId: int)
  {
    t.sessionId == Some(sessionId) && IsOpen(t)
  }

  /** close_task_with_session_id: the session's PENDING/IN_PROGRESS rows become CLOSED. */
  function CloseSessionRows(rows: seq<Task>, sessionId: int): (r: seq<Task>)
    ensures |r| == |rows|
    ensures forall i :: 0 <= i < |rows| ==> r[i] == rows[i].(status := r[i].status)
    ensures forall i :: 0 <= i < |rows| ==> (OpenInSession(rows[i], sessionId) ==> r[i].status == Closed)
    ensures forall i :: 0 <= i < |rows| ==> (!OpenInSession(rows[i], sessionId) ==> r[i] == rows[i])
    ensures forall i :: 0 <= i < |rows| ==> !OpenInSession(r[i], sessionId)
  {
    seq(|rows|, i requires 0 <= i < |rows| =>
      if OpenInSession(rows[i], sessionId) then rows[i].(status := Closed) else rows[i])
  }

  /** The ids the closing update returns, in id order. */
  function OpenSessionIds(rows: seq<Task>, sessionId: int): (ids: seq<nat>)
    ensures forall id :: id in ids <==> exists t :: t in rows && OpenInSession(t, sessionId) && t.id == id
    ensures |ids| <= |rows|
  {
    if rows == [] then []
    else
      assert forall t :: t in rows <==> t == rows[0] || t in rows[1..];
      (if OpenInSession(rows[0], sessionId) then [rows[0].id] else []) + OpenSessionIds(rows[1..], sessionId)
  }

  /** The filter shared by the plate and spot close rules. */
  predicate PlateCloseTarget(t: Task, lotId: int, plate: Option<string>)
  {
    t.plate == plate && t.lotId == lotId && t.eventType != VIOLATION_INACTIVE && IsOpen(t)
  }

  /** close_task_with_plate_number: car.exit tasks go (back) to PENDING, the others to CLOSED. */
  function ClosePlateRows(rows: seq<Task>, lotId: int, plate: Option<string>): (r: seq<Task>)
    ensures |r| == |rows|
    ensures forall i :: 0 <= i < |rows| ==> r[i] == rows[i].(status := r[i].status)
    ensures forall i :: 0 <= i < |rows| ==> (!PlateCloseTarget(rows[i], lotId, plate) ==> r[i] == rows[i])
    ensures forall i :: 0 <= i < |rows| ==> (PlateCloseTarget(rows[i], lotId, plate) ==>
              (r[i].status == Pending <==> rows[i].eventType == CAR_EXIT) &&
              (r[i].status == Closed <==> rows[i].eventType != CAR_EXIT))
  {
    seq(|rows|, i requires 0 <= i < |rows| =>
      if PlateCloseTarget(rows[i], lotId, plate)
      then rows[i].(status := if rows[i].eventType == CAR_EXIT then Pending else Closed)
      else rows[i])
  }

  /** close_task_with_plate_number_and_session_id: the plate rule restricted to one session. */
  function ClosePlateSessionRows(rows: seq<Task>, lotId: int, plate: Option<string>, sessionId: Option<int>)
    : (r: seq<Task>)
    ensures |r| == |rows|
    ensures forall i :: 0 <= i < |rows| ==> r[i] == rows[i].(status := r[i].status)
    ensures forall i :: 0 <= i < |rows| ==>
              (!(PlateCloseTarget(rows[i], lotId, plate) && rows[i].sessionId == sessionId) ==> r[i] == rows[i])
    ensures forall i :: 0 <= i < |rows| ==> (PlateCloseTarget(rows[i], lotId, plate) && rows[i].sessionId == sessionId ==>
              (r[i].status == Pending <==> rows[i].eventType == CAR_EXIT) &&
              (r[i].status == Closed <==> rows[i].eventType != CAR_EXIT))
  {
    seq(|rows|, i requires 0 <= i < |rows| =>
      if PlateCloseTarget(rows[i], lotId, plate) && rows[i].sessionId == sessionId
      then rows[i].(status := if rows[i].eventType == CAR_EXIT then Pending else Closed)
      else rows[i])
  }

  predicate SpotCloseTarget(t: Task, lotId: int, spotId: Option<string>, sessionId: Option<int>)
  {
    t.spotId == spotId && t.lotId == lotId && t.sessionId == sessionId &&
    t.eventType != VIOLATION_INACTIVE && IsOpen(t)
  }

  /** close_task_with_spot_id: spot.free tasks go (back) to PENDING, the others to CLOSED. */
  function CloseSpotRows(rows: seq<Task>, lotId: int, spotId: Option<string>, sessionId: Option<int>): (r: seq<Task>)
    ensures |r| == |rows|
    ensures forall i :: 0 <= i < |rows| ==> r[i] == rows[i].(status := r[i].status)
    ensures forall i :: 0 <= i < |rows| ==> (!SpotCloseTarget(rows[i], lotId, spotId, sessionId) ==> r[i] == rows[i])
    ensures forall i :: 0 <= i < |rows| ==> (SpotCloseTarget(rows[i], lotId, spotId, sessionId) ==>
              (r[i].status == Pending <==> rows[i].eventType == SPOT_FREE) &&
              (r[i].status == Closed <==> rows[i].eventType != SPOT_FREE))
  {
    seq(|rows|, i requires 0 <= i < |rows| =>
      if SpotCloseTarget(rows[i], lotId, spotId, sessionId)
      then rows[i].(status := if rows[i].eventType == SPOT_FREE then Pending else Closed)
      else rows[i])
  }

  /** A second application of a close rule changes nothing. */
  lemma CloseRulesIdempotent(rows: seq<Task>, lotId: int, plate: Option<string>, spotId: Option<string>,
                             sessionId: int)
    ensures CloseSessionRows(CloseSessionRows(rows, sessionId), sessionId) == CloseSessionRows(rows, sessionId)
    ensures forall i :: 0 <= i < |rows| && PlateCloseTarget(rows[i], lotId, plate) && rows[i].eventType != CAR_EXIT ==>
              !PlateCloseTarget(ClosePlateRows(rows, lotId, plate)[i], lotId, plate)
  {
  }

  /** update_task_by_session_id: the open rows of the session take the new spot. */
  function MoveSessionSpot(rows: seq<Task>, sessionId: int, spotId: Option<string>, spotName: Option<string>): (r: seq<Task>)
    ensures |r| == |rows|
    ensures forall i :: 0 <= i < |rows| ==> (OpenInSession(rows[i], sessionId) ==>
              r[i] == rows[i].(spotId := spotId, spotName := spotName))
    ensures forall i :: 0 <= i < |rows| ==> (!OpenInSession(rows[i], sessionId) ==> r[i] == rows[i])
  {
    seq(|rows|, i requires 0 <= i < |rows| =>
      if OpenInSession(rows[i], sessionId) then rows[i].(spotId := spotId, spotName := spotName) else rows[i])
  }

  function CountOpenInSession(rows: seq<Task>, sessionId: int): (n: nat)
    ensures n <= |rows|
    ensures n == 0 <==> forall i :: 0 <= i < |rows| ==> !OpenInSession(rows[i], sessionId)
  {
    if rows == [] then 0
    else
      assert forall i :: 1 <= i < |rows| ==> rows[1..][i - 1] == rows[i];
      (if OpenInSession(rows[0], sessionId) then 1 else 0) + CountOpenInSession(rows[1..], sessionId)
  }

  // ---------------------------------------------------------------- lookups


  /** get_task_by_session_id. */
  function TaskOfSession(rows: seq<Task>, sessionId: int): (r: Option<nat>)
    ensures r.Some? ==> r.value < |rows| && rows[r.value].sessionId == Some(sessionId)
    ensures r.Some? ==> forall i :: 0 <= i < r.value ==> rows[i].sessionId != Some(sessionId)
    ensures r.None? <==> forall i :: 0 <= i < |rows| ==> rows[i].sessionId != Some(sessionId)
  {
    FirstWhere(rows, (t: Task) => t.sessionId == Some(sessionId))
  }

  /** validate_secondary_lprs: some non-CLOSED task of the lot carries one of the plates. */
  predicate HasOpenTaskFor(rows: seq<Task>, plates: seq<string>, lotId: int)
  {
    exists i :: 0 <= i < |rows| && rows[i].status != Closed && rows[i].plate.Some? &&
                rows[i].plate.value in plates && rows[i].lotId == lotId
  }

  /** Whether a violation-provider task still counts as open for its alert. */
  predicate AlertNotClosed(t: Task)
  {
    t.alertStatus != Some(CLOSED)
  }

  predicate PendingViolationOf(t: Task, providerType: int, eventType: string, sessionId: Option<int>)
  {
    t.providerType == providerType && t.eventType == eventType &&
    t.sessionId == sessionId && AlertNotClosed(t)
  }

  /** get_pending_payment_violation / get_pending_overstay_violation, by event type. */
  function PendingViolation(rows: seq<Task>, providerType: int, eventType: string, sessionId: Option<int>): (r: Option<nat>)
    ensures r.Some? ==> r.value < |rows| && PendingViolationOf(rows[r.value], providerType, eventType, sessionId)
    ensures r.Some? ==> forall i :: 0 <= i < r.value ==> !PendingViolationOf(rows[i], providerType, eventType, sessionId)
    ensures r.None? <==> forall i :: 0 <= i < |rows| ==> !PendingViolationOf(rows[i], providerType, eventType, sessionId)
  {
    FirstWhere(rows, (t: Task) => PendingViolationOf(t, providerType, eventType, sessionId))
  }

  predicate ViolationTaskOf(t: Task, sessionId: Option<int>)
  {
    t.sessionId == sessionId && (t.featureKey == NOTIFY_SG_ADMIN || t.featureKey == ENFORCEMENT_CITATION) && IsOpen(t)
  }

  /** check_violation_on_session: the open notify/citation tasks of the session, in id order. */
  function ViolationTasksOfSession(rows: seq<Task>, sessionId: Option<int>): (r: seq<Task>)
    ensures forall t :: t in r <==> t in rows && ViolationTaskOf(t, sessionId)
  {
    if rows == [] then []
    else (if ViolationTaskOf(rows[0], sessionId) then [rows[0]] else []) + ViolationTasksOfSession(rows[1..], sessionId)
  }

  // ---------------------------------------------------------------- the table

  class TaskTable {
    var rows: seq<Task>

    ghost predicate Valid()
      reads this
    {
      WellNumbered(rows)
    }

    constructor ()
      ensures rows == [] && Valid()
    {
      rows := [];
    }

    /** The insert part of create_task: the row receives the next id. */
    method Insert(t: Task) returns (id: nat)
      requires Valid()
      modifies this
      ensures Valid()
      ensures id == |old(rows)| + 1
      ensures rows == old(rows) + [t.(id := id)]
    {
      id := |rows| + 1;
      rows := rows + [t.(id := id)];
    }

    /** get_task_to_execute: claim, then hand out the backlog; nothing claimable hands out nothing. */
    method GetTaskToExecute(now: int) returns (batch: seq<Task>)
      requires Valid()
      modifies this
      ensures Valid()
      ensures rows == (if CountClaimable(old(rows), now) == 0 then old(rows) else Claim(old(rows), now))
      ensures CountClaimable(old(rows), now) == 0 ==> batch == []
      ensures CountClaimable(old(rows), now) > 0 ==> batch == Backlog(rows, now)
    {
      if CountClaimable(rows, now) == 0 {
        return [];
      }
      rows := Claim(rows, now);
      batch := Backlog(rows, now);
    }

    method CloseTask(k: nat)
      requires Valid() && k < |rows|
      modifies this
      ensures Valid()
      ensures rows == CloseTaskRows(old(rows), k)
    {
      rows := CloseTaskRows(rows, k);
    }

    method CloseTaskWithSessionId(sessionId: int) returns (ids: seq<nat>)
      requires Valid()
      modifies this
      ensures Valid()
      ensures ids == OpenSessionIds(old(rows), sessionId)
      ensures rows == CloseSessionRows(old(rows), sessionId)
    {
      ids := OpenSessionIds(rows, sessionId);
      rows := CloseSessionRows(rows, sessionId);
    }

    method CloseTaskWithPlateNumber(lotId: int, plate: Option<string>)
      requires Valid()
      modifies this
      ensures Valid()
      ensures rows == ClosePlateRows(old(rows), lotId, plate)
    {
      rows := ClosePlateRows(rows, lotId, plate);
    }

    method CloseTaskWithPlateNumberAndSessionId(lotId: int, plate: Option<string>, sessionId: Option<int>)
      requires Valid()
      modifies this
      ensures Valid()
      ensures rows == ClosePlateSessionRows(old(rows), lotId, plate, sessionId)
    {
      rows := ClosePlateSessionRows(rows, lotId, plate, sessionId);
    }

    method CloseTaskWithSpotId(lotId: int, spotId: Option<string>, sessionId: Option<int>)
      requires Valid()
      modifies this
      ensures Valid()
      ensures rows == CloseSpotRows(old(rows), lotId, spotId, sessionId)
    {
      rows := CloseSpotRows(rows, lotId, spotId, sessionId);
    }

    /** update_task_by_session_id: the number of rows moved, or None when there were none. */
    method UpdateTaskBySessionId(sessionId: int, spotId: Option<string>, spotName: Option<string>)
      returns (count: Option<nat>)
      requires Valid()
      modifies this
      ensures Valid()
      ensures rows == MoveSessionSpot(old(rows), sessionId, spotId, spotName)
      ensures count.None? <==> forall i :: 0 <= i < |old(rows)| ==> !OpenInSession(old(rows)[i], sessionId)
      ensures count.Some? ==> count.value == CountOpenInSession(old(rows), sessionId) > 0
    {
      var n := CountOpenInSession(rows, sessionId);
      rows := MoveSessionSpot(rows, sessionId, spotId, spotName);
      count := if n > 0 then Some(n) else None;
    }

    method UpdateAlertStatus(k: nat, status: Option<string>)
      requires Valid() && k < |rows|
      modifies this
      ensures Valid()
      ensures rows == old(rows)[k := old(rows)[k].(alertStatus := status)]
    {
      rows := rows[k := rows[k].(alertStatus := status)];
    }

    /** A session assigned on a loaded task object, written back at the next commit. */
    method AssignSession(k: nat, sessionId: Option<int>)
      requires Valid() && k < |rows|
      modifies this
      ensures Valid()
      ensures rows == old(rows)[k := old(rows)[k].(sessionId := sessionId)]
    {
      rows := rows[k := rows[k].(sessionId := sessionId)];
    }

    /** update_task: the alert ids returned by the alert service are stored on the row. */
    method UpdateAlertIds(k: nat, alertIds: Option<seq<int>>)
      requires Valid() && k < |rows|
      modifies this
      ensures Valid()
      ensures rows == old(rows)[k := old(rows)[k].(alertIds := alertIds)]
    {
      rows := rows[k := rows[k].(alertIds := alertIds)];
    }
  }
}
