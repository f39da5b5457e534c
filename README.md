# Task orchestration engine of spotgenius-connect, modelled in Dafny

spotgenius-connect links a parking-management platform to payment, reservation and
enforcement providers. Camera and spot-sensor events open, close and re-map
parking sessions. Each event becomes tasks with one sub-task per provider
endpoint. A scheduler claims the due tasks, checks the provider's answer for the
plate or spot, and writes the outcome back: session log lines, violations,
alerts and follow-up tasks.

This project models the verification core of that engine:

- the task, sub-task, violation, session and session-log tables. Each is a
  class holding its rows, with methods for the claim query, the bulk closes and
  the status updates. The session log carries its rule that suppresses
  repeated entries;
- the event branches of `create_session_audit` and the dispatch of
  `execute_event`: task creation per feature, the unavailable-provider exit
  path, and the closing of alerts;
- the payment-window arithmetic over time-of-day windows and the four lot
  modes. This includes the next wake-up time and the overstay limit;
- the free-window / overstay decision: the violation flag, the grace
  ("Non Billable") branch and the retry counter. It also covers FIXED and
  VARIABLE violation accrual in `not_paid`, the running total in `paid`, and
  the closing of payment and overstay violations;
- fuzzy plate matching: Levenshtein distance with a threshold, validity
  intervals, the exact-match shortcut, and the TIBA shared-pass check;
- the template interpreter of provider requests and responses:
  - `{model.attr}` and `{key}` substitution;
  - dotted-path lookups;
  - depth-first key search;
  - XML tree to dict;
  - projecting a response through its template;
  - the (method, url, body, headers) record.

Modelling conventions:

- A table is a class with a `rows: seq<...>` field. Row ids are positions plus
  one, and `.first()` is the lowest id.
- Times are integer seconds since the epoch. The time of day is `now % 86400`.
- JSON values are a `Json` datatype whose dicts are ordered lists of pairs.
- Where the source catches an exception, the model returns an `Err` value or
  `None` at that same point.
- The clock, decryption, image download, the provider calls and the alert
  service are parameters.
- Loops the source runs in place are `method`s. Each is proved equal to a
  reference function, and the properties are proved about that function.

## Model

| member | source | states |
|---|---|---|
| Enums.TaskStatusValue | app/utils/enum.py:4-9 | a deleted task is stored as "DELETE", and no other status is |
| Enums.SubTaskStatusValue | app/utils/enum.py:12-17 | a deleted sub-task is stored as "DELETED"; every other status is spelled as for tasks |
| Enums.SkipsRepeat | app/utils/enum.py:181-186 | exactly "Not Paid", "Permit Expired", "Valid Permit" and "Unreserved" are suppressed when they repeat |
| Enums.IsExitEvent | app/utils/enum.py:198-200 | the exit events are exactly spot.free and car.exit |
| Enums.IsEntryEvent | app/utils/enum.py:198-199 | the entry events are exactly spot.occupied and car.entry |
| Enums.IsWaitingForPayment | app/utils/enum.py:213-217 | ENTRY and OCCUPIED wait for payment, EXIT and FREE do not, any other name is missing |
| Enums.SpotTemplates | app/utils/enum.py:172-195 | the enum's own `format` method (lines 193-195) formats the member's value, so formatting the two spot templates puts the spot name right after "Spot Matched: " and "Spot Free: " |
| Enums.SpotMatchedA7 | app/utils/enum.py:172-195 | `LPR_TO_SPOT.format(spot_name="A7")` gives "Spot Matched: A7" |
| Common.EffectiveGrace | app/utils/common.py:133-135 | the event's spot grace replaces the lot's grace only when it is set and non-zero and the event has no plate |
| Common.NextAtForTask | app/utils/common.py:127-145 | an explicit timestamp is returned unchanged; otherwise the event time plus the grace minutes when the window is open, the event time itself when it is not |
| Common.ParkinglotOverstayLimit | app/utils/common.py:528-535 | None exactly for the paid-24-hours and spot-based-free modes or a missing or negative maximum; otherwise the maximum, which is non-negative |
| Common.UpdateWithoutReplacement | app/utils/common.py:159-163 | the target's pairs stay first and unchanged; every key then holds the target's value if it had one and the update's otherwise |
| Common.SplitFirstDot | app/utils/common.py:172-177 | a pair exactly when the text has a dot, with a dot-free head such that head + "." + tail is the text; otherwise the text itself |
| Common.SplitFirstDotOf | app/utils/common.py:172-177 | a dot-free head, a dot and any tail split back into exactly that head and tail |
| Common.FindKeyInDict | app/utils/common.py:208-222 | a dict holding the key answers with its own value before searching deeper; a scalar (text, number, None) gives None |
| Common.FindKeySound | app/utils/common.py:208-222 | any non-None answer is a value stored under the key somewhere in the data, at any depth |
| Common.FindKeyFirst | app/utils/common.py:208-222 | the answer is the first non-None candidate in depth-first order, where a dict holding the key offers only its own value and any other dict or list offers its values or items in order |
| Common.FindKeyComplete | app/utils/common.py:208-222 | a non-None value stored under the key anywhere is found, unless some dict stores None under the key |
| Common.FirstNonNull | app/utils/common.py:212-221 | the first non-None candidate, which is one of them; None exactly when every candidate is None |
| Common.MaxParkTimeToHourMinutes | app/utils/common.py:550-565 | a missing or zero total gives empty fields and only then; otherwise two-digit minutes and at least two-digit hours |
| Common.MaxParkTimeToMinutes | app/utils/common.py:538-547 | no maximum gives None and only then; empty hours and minutes give 0; a field int() cannot read raises its error |
| Text.ParseInt | app/utils/common.py:541-542 | int() of text: plain digits read as their decimal value, a leading minus negates; the text is refused exactly when, after stripping whitespace and an optional sign, it is not digits with single underscores between them |
| Text.ParseIntIgnoresSpace | app/utils/common.py:541-542 | surrounding whitespace is ignored: " 2" reads as 2 |
| Text.ParseIntUnderscores | app/utils/common.py:541-542 | single underscores between digits and a trailing newline are ignored: "1_0\n" reads as 10 |
| Text.ParseIntSignedUnderscores | app/utils/common.py:541-542 | a sign may precede underscored digits: "-0_7" reads as -7 |
| Text.ParseIntRejects | app/utils/common.py:541-542 | a doubled or leading underscore, and blank text, are refused |
| Common.MaxParkTimeRoundTrip | app/utils/common.py:538-565 | converting a total to hours and minutes and back gives the total again |
| Common.GetViolationId | app/utils/common.py:629-636 | 39 exactly for payment.violation, 2 exactly for overstay.violation, 0 for anything else |
| Common.FirstDigitRun | app/utils/common.py:409 | the bounds of the first maximal run of digits, or None when the text has no digit |
| Common.ExtractRecordId | app/utils/common.py:404-415 | raises exactly when Message is present and not text; Success defaults to False; the id is missing exactly when the message has no digit, and otherwise is the value of its first run of digits |
| Common.SanitizeLoggedData | app/utils/common.py:485-506 | an excluded key is gone, an image key holds at most its first 20 characters, every other key keeps its value |
| Common.FormatBody | app/utils/common.py:389-401 | each key holds the value of its last pair, and a "Timestamp" key holds the current time |
| ParkingWindow.FirstContaining | app/utils/parking_window.py:76-78 | the first window containing the time of day, both ends inclusive, or None when no window contains it |
| ParkingWindow.EarliestAfter | app/utils/parking_window.py:82-94 | the smallest (start, end) pair, in tuple order, among today's windows starting after the time of day; None exactly when there is none |
| ParkingWindow.IsInPaymentWindow | app/utils/parking_window.py:73-99 | paid exactly when some window contains the time, and then the end of the first such window; no windows gives (False, None, None); otherwise a next start and end |
| ParkingWindow.NextWindowStart | app/utils/parking_window.py:81-97 | outside every window the next start is the earliest later start today, else tomorrow's first start, and always after now |
| ParkingWindow.EarliestEndAfter | app/utils/parking_window.py:135-139 | the earliest end today of a window ending after the time of day; None exactly when there is none |
| ParkingWindow.NextFreeWindowStart | app/utils/parking_window.py:135-141 | after now, no later than any window end still ahead today, and either such an end or tomorrow's first window end |
| ParkingWindow.CheckPaymentWindow | app/utils/parking_window.py:103-158 | the four modes: paid 24h and spot-free give status True with next_at now + grace and end a day later; LPR-free gives status False with next_at now + overstay; scheduled mode takes the nearer of the limit and the window boundary; any other mode raises |
| ParkingWindow.WakeUpBounds | app/utils/parking_window.py:111-148 | the wake-up time is never before now, never after the end outside a paid window, and never after the next free-window start |
| ParkingWindow.PaidWakeUpBeforeWindowEnd | app/utils/parking_window.py:133-148 | inside a paid window whose end is still ahead, the wake-up comes no later than that end |
| TaskModel.CountClaimable | app/models/task.py:92-97 | the number of PENDING rows whose next_at is before now never exceeds the table size |
| TaskModel.NoneClaimable | app/models/task.py:104-105 | the claim query finds nothing exactly when no row is PENDING and due |
| TaskModel.Claim | app/models/task.py:92-113 | the rows set IN_PROGRESS are exactly the claimed ones, every other row is unchanged |
| TaskModel.CountPrefixMonotone | app/models/task.py:98-99 | counting claimable rows over a longer prefix never gives fewer |
| TaskModel.ClaimedBeforeSkipped | app/models/task.py:98-99 | a claimed task has a smaller id than any due PENDING task the limit left behind |
| TaskModel.ClaimCount | app/models/task.py:99 | one poll claims exactly min(claimable rows, TASK_PICKING_LIMIT) tasks |
| TaskModel.Priority | app/models/task.py:123-126 | notify is 1, reservation-lpr 2, payment-lpr 3 and every other feature 4 |
| TaskModel.KeyLeTotal | app/models/task.py:121-126 | any two tasks are comparable by (session id, priority, id) |
| TaskModel.KeyLeTransitive | app/models/task.py:121-126 | the backlog order is transitive |
| TaskModel.RunningRows | app/models/task.py:118-120 | the backlog candidates are exactly the IN_PROGRESS rows whose next_at is before now |
| TaskModel.InsertProps | app/models/task.py:121-126 | inserting into an ordered list keeps it ordered and adds exactly that task |
| TaskModel.Sort | app/models/task.py:121-126 | the ordering is a sorted permutation of its input |
| TaskModel.Backlog | app/models/task.py:117-128 | at most TASK_PICKING_LIMIT running, due tasks, ordered by session, priority, id |
| TaskModel.BacklogIsFirst | app/models/task.py:121-127 | a running task cut by the limit sorts after every task that was handed out |
| TaskModel.BacklogComplete | app/models/task.py:127 | when at most TASK_PICKING_LIMIT tasks are running, all of them are handed out |
| TaskModel.CloseTaskRows | app/models/task.py:194-201 | the task itself becomes CLOSED; on lpr_exit/car.exit the session's other tasks close too, except enforcement.inactivate; nothing else changes |
| TaskModel.CloseSessionRows | app/models/task.py:235-244 | exactly the session's PENDING/IN_PROGRESS rows become CLOSED, and none is left open |
| TaskModel.OpenSessionIds | app/models/task.py:241-246 | the returned ids are exactly those of the session's open tasks |
| TaskModel.ClosePlateRows | app/models/task.py:153-163 | open non-inactivation tasks of the plate and lot: car.exit ones go to PENDING, the rest to CLOSED; other rows unchanged |
| TaskModel.ClosePlateSessionRows | app/models/task.py:166-177 | the plate rule restricted to one session |
| TaskModel.CloseSpotRows | app/models/task.py:180-191 | open non-inactivation tasks of the spot, lot and session: spot.free ones go to PENDING, the rest to CLOSED |
| TaskModel.CloseRulesIdempotent | app/models/task.py:235-244 | closing a session twice equals closing it once; a plate task closed once is no longer a target |
| TaskModel.MoveSessionSpot | app/models/task.py:345-357 | only the session's open tasks take the new spot id and name |
| TaskModel.CountOpenInSession | app/models/task.py:358-361 | the update count is zero exactly when the session has no open task |
| TaskModel.TaskOfSession | app/models/task.py:84-86 | the first task of the session, or None exactly when the session has none |
| TaskModel.PendingViolation | app/models/task.py:322-338 | a task of that provider, event type and session whose alert is not CLOSED, or None exactly when there is none |
| TaskModel.ViolationTasksOfSession | app/models/task.py:306-319 | exactly the session's open notify and citation tasks |
| TaskModel.TaskTable.constructor | app/models/task.py:20-45 | an empty task table |
| TaskModel.TaskTable.Insert | app/models/task.py:48-53 | the new row takes the next id and is appended |
| TaskModel.TaskTable.GetTaskToExecute | app/models/task.py:89-114 | nothing claimable: no change and no batch; otherwise the claimed table and its backlog |
| TaskModel.TaskTable.CloseTask | app/models/task.py:194-201 | the table becomes CloseTaskRows of the old one |
| TaskModel.TaskTable.CloseTaskWithSessionId | app/models/task.py:235-248 | returns the open ids of the session and closes exactly those rows |
| TaskModel.TaskTable.CloseTaskWithPlateNumber | app/models/task.py:153-163 | the table becomes ClosePlateRows of the old one |
| TaskModel.TaskTable.CloseTaskWithPlateNumberAndSessionId | app/models/task.py:166-177 | the table becomes ClosePlateSessionRows of the old one |
| TaskModel.TaskTable.CloseTaskWithSpotId | app/models/task.py:180-191 | the table becomes CloseSpotRows of the old one |
| TaskModel.TaskTable.UpdateTaskBySessionId | app/models/task.py:345-362 | open session tasks move to the new spot; None is returned exactly when no row matched, otherwise the count |
| TaskModel.TaskTable.UpdateAlertStatus | app/models/task.py:340-343 | only that task's alert status changes |
| TaskModel.TaskTable.AssignSession | app/models/task.py:43 | only that task's session id changes |
| TaskModel.TaskTable.UpdateAlertIds | app/models/task.py:293-298 | only that task's alert id list changes |
| SubTaskModel.StartAll | app/models/sub_task.py:36-40 | every sub-task of the task becomes IN_PROGRESS whatever its status; other rows are unchanged |
| SubTaskModel.StartEach | app/models/sub_task.py:36-40 | after starting several tasks every sub-task of one of them is IN_PROGRESS and every other sub-task is unchanged; only statuses change |
| SubTaskModel.OfTask | app/models/sub_task.py:37 | exactly the sub-tasks of the task |
| SubTaskModel.CloseOne | app/models/sub_task.py:43-46 | the row with that id and no other becomes CLOSED |
| SubTaskModel.CloseOnPaid | app/models/sub_task.py:49-54 | the paid sub-task ends COMPLETED, its siblings CLOSED, other tasks' rows unchanged |
| SubTaskModel.CloseByTasks | app/models/sub_task.py:63-71 | only PENDING/IN_PROGRESS sub-tasks of the listed tasks become CLOSED |
| SubTaskModel.CompletedIsKept | app/models/sub_task.py:63-71 | a COMPLETED sub-task survives the task-id close, though a restart sets it IN_PROGRESS again |
| SubTaskModel.PaidLeavesOneOpen | app/models/sub_task.py:49-54 | after the paid close the paid row is the only sub-task of its task not CLOSED |
| SubTaskModel.SubTaskTable.constructor | app/models/sub_task.py:10-24 | an empty sub-task table |
| SubTaskModel.SubTaskTable.Insert | app/models/sub_task.py:27-33 | a PENDING row with the next id is appended |
| SubTaskModel.SubTaskTable.GetSubTaskToProcess | app/models/sub_task.py:36-41 | the table becomes StartAll of the old one and the task's sub-tasks are returned, all IN_PROGRESS |
| SubTaskModel.SubTaskTable.CloseSubTask | app/models/sub_task.py:43-46 | the table becomes CloseOne of the old one |
| SubTaskModel.SubTaskTable.CloseSubTaskOnPaid | app/models/sub_task.py:49-54 | the table becomes CloseOnPaid of the old one |
| SubTaskModel.SubTaskTable.CloseSubTaskWithTaskId | app/models/sub_task.py:63-71 | the table becomes CloseByTasks of the old one |
| ViolationModel.IndexOfId | app/models/violation.py:63-64 | the row carrying that id, or None exactly when no row carries it |
| ViolationModel.IndexOfOwnId | app/models/violation.py:63-64 | in a well-numbered table every row is found by its own id |
| ViolationModel.OpenViolationOf | app/models/violation.py:109-114 | the first OPEN violation of that session and type, or None exactly when there is none |
| ViolationModel.IncrementTarget | app/models/violation.py:46-52 | spot-based payment checks match an OPEN row of the plate, LPR-based ones an OPEN row of the spot, any other feature nothing; the row found is the first such row, and there is none exactly when no row qualifies |
| ViolationModel.ActiveOfSession | app/models/violation.py:118-119 | exactly the session's violations without an inactivation id |
| ViolationModel.AllOfSession | app/models/violation.py:118-121 | None exactly when the session has no such violation, otherwise the non-empty list |
| ViolationModel.SessionMarked | app/models/violation.py:72-79 | only the first row of the plate can change, and only its session column; every row of the plate has that first row at or before it marked |
| ViolationModel.SpotSessionMarked | app/models/violation.py:82-90 | only the first row of the spot and session can change, and only its session column; every such row has that first row at or before it marked |
| ViolationModel.ViolationTable.constructor | app/models/violation.py:10-33 | an empty violation table |
| ViolationModel.ViolationTable.Create | app/models/violation.py:36-43 | the row receives the next id and is appended |
| ViolationModel.ViolationTable.UpdateViolation | app/models/violation.py:46-60 | the matched OPEN row's amount due grows by 10 and is returned; nothing matched changes nothing and returns None |
| ViolationModel.ViolationTable.UpdateViolationById | app/models/violation.py:46-60 | the increment applied to the row with the given id when it is OPEN |
| ViolationModel.ViolationTable.UpdateStatus | app/models/violation.py:63-69 | only that row's status changes; an unknown id raises |
| ViolationModel.ViolationTable.UpdateSession | app/models/violation.py:72-79 | the first row of the plate takes the session status and is returned; none changes nothing and returns None; the table becomes SessionMarked of the old one |
| ViolationModel.ViolationTable.UpdateSessionBySpotId | app/models/violation.py:82-90 | the first row of the spot and session takes the session status and is returned; none changes nothing; the table becomes SpotSessionMarked of the old one |
| SessionModel.ApplyAttrs | app/models/sessions.py:92-101 | writing attributes never changes the id, lot, entry event, plate, LPR record or start time; no pairs change nothing |
| SessionModel.ApplyAttrsLastWins | app/models/sessions.py:96-99 | each written column ends with the last value written to it; unwritten columns keep theirs |
| SessionModel.LastWrite | app/models/sessions.py:96-99 | the last pair that writes the column, which is one of the pairs; none exactly when no pair writes it |
| SessionModel.Current | app/models/sessions.py:96-99 | the value a session holds in a column, as a pair writing that same column |
| SessionModel.IndexOfId | app/models/sessions.py:53-55 | a session id is found exactly when it is in the table, at the row carrying it |
| SessionModel.SessionByPlate | app/models/sessions.py:58-67 | the newest active session of the plate in the lot with a non-null entry event, or None exactly when there is none |
| SessionModel.SessionBySpot | app/models/sessions.py:81-89 | the newest active session of the spot in the lot with a non-null entry event, or None exactly when there is none |
| SessionModel.SessionByRecord | app/models/sessions.py:70-77 | the newest session of that plate and LPR record, active or not |
| SessionModel.SessionForViolation | app/models/sessions.py:434-446 | an active session of that lot, plate and LPR record, or None exactly when there is none |
| SessionModel.SessionTable.constructor | app/models/sessions.py:14-41 | an empty session table |
| SessionModel.SessionTable.Insert | app/models/sessions.py:44-50 | the row receives the next id and is appended |
| SessionModel.SessionTable.UpdateAttributes | app/models/sessions.py:92-101 | an unknown id changes nothing and returns None; otherwise only that row takes the attributes and is returned |
| SessionLogModel.LastOf | app/models/session_log.py:24-25 | the session's latest entry, or None exactly when it has none |
| SessionLogModel.Suppressed | app/models/session_log.py:28-45 | the insert is skipped, returning the latest entry, exactly when a skip-set action repeats the latest one, or a "Not Paid" already exists and the latest entry is not a payment or alert close |
| SessionLogModel.RepeatIsSuppressed | app/models/session_log.py:28-30 | logging a skip-set action right after itself appends nothing |
| SessionLogModel.NotPaidAtMostOncePerRun | app/models/session_log.py:32-45 | once a session has a "Not Paid", another is recorded exactly when the latest entry starts with "Paid" or closes an alert |
| SessionLogModel.OtherActionsAppend | app/models/session_log.py:47-53 | an action outside the skip set is always appended |
| SessionLogModel.FirstNotPaidAppends | app/models/session_log.py:32-37 | the first "Not Paid" of a session is always recorded |
| SessionLogModel.CountLike | app/models/session_log.py:66-69 | the count never exceeds the number of entries |
| SessionLogModel.EntryOrExitLoggedMeans | app/models/session_log.py:64-70 | the check holds exactly when some entry of the session contains the pattern, ignoring case |
| SessionLogModel.LastMatching | app/models/session_log.py:73-79 | the latest entry of the session matching any pattern, or None exactly when none matches |
| SessionLogModel.SessionLogTable.constructor | app/models/session_log.py:10-18 | an empty log table |
| SessionLogModel.SessionLogTable.InsertSessionEvent | app/models/session_log.py:22-55 | either nothing is appended and the latest entry comes back, or exactly the new entry is appended with the next id |
| SessionUpdates.CreateSessionLogs | app/service/session_manager.py:533-557 | only action UPDATE touches the session, and with attributes the session takes them; a missing attribute dictionary or session id is swallowed and returns None; otherwise the log becomes LoggedRows of the old log |
| SessionUpdates.LoggedRows | app/service/session_manager.py:533-557 | the log only grows, by at most one row; no session id adds nothing; a row is added exactly when the insert rule does not suppress it, and it is the new entry numbered after the old rows |
| SessionUpdates.NewCounter | app/service/session_manager.py:563-567 | "paid" resets the counter to 0, "not paid" adds one, any other action writes nothing |
| SessionUpdates.UpdateCounter | app/service/session_manager.py:560-569 | an unknown session raises and changes nothing; otherwise only that session's counter changes, as NewCounter says |
| SessionUpdates.UpdatedSessions | app/service/session_manager.py:533-557 | updating keeps the table size, and an unknown session changes nothing |
| EventService.NonEmpty | app/service/event_service.py:97-99 | an empty or missing text becomes None, any other text is kept |
| EventService.ProviderTypeOf | app/service/event_service.py:77-79 | the id of a provider type whose name starts, ignoring case, with the feature key's part before its first '.', or None exactly when no name does |
| EventService.ViolationProviderType | app/service/event_service.py:241 | the id of a provider type whose text key is the violation provider, or None exactly when there is none |
| EventService.LogActionKey | app/service/event_service.py:126-127 | an event type without a '.' is looked up whole |
| EventService.LogAction | app/service/event_service.py:126-127 | missing exactly when the key has no session-log label; otherwise the label upper-cased, of the same length |
| EventService.LogActionKeyOfPair | app/service/event_service.py:126-127 | a `family.member` event type is looked up by its member name |
| EventService.LogActionOfPair | app/service/event_service.py:126-127 | a `family.member` event type logs under the upper-cased label of its member |
| EventService.EntryLogsEntry | app/service/event_service.py:126-127 | car.entry logs as ENTRY |
| EventService.ExitLogsExit | app/service/event_service.py:126-127 | car.exit logs as EXIT |
| EventService.OccupiedLogsOccupied | app/service/event_service.py:126-127 | spot.occupied logs as OCCUPIED |
| EventService.FreeLogsFree | app/service/event_service.py:126-127 | spot.free logs as FREE |
| EventService.GroupedEventActions | app/service/event_service.py:126-127 | the four grouped events log under ENTRY, EXIT, OCCUPIED and FREE |
| EventService.WaitingAttrs | app/service/event_service.py:130-134 | at most one attribute is written and it is the waiting-for-payment flag; an event outside the grouped four writes none |
| EventService.WaitingFollowsEvent | app/service/event_service.py:130-134 | an arrival marks its session waiting exactly when the payment window is open, a departure clears it; with spot payment disabled nothing is written unless an arrival meets a closed window |
| EventService.WaitingOnArrival | app/service/event_service.py:130-134 | an arrival writes waiting-for-payment equal to whether the window is open; with spot payment disabled it writes False only when the window is closed, and nothing otherwise |
| EventService.WaitingOnDeparture | app/service/event_service.py:130-134 | a departure writes waiting-for-payment False, or nothing with spot payment disabled |
| EventService.AlertClose | app/service/event_service.py:242-273 | a selected task with alert ids gets alert status CLOSED; every other task is left alone |
| EventService.AlertClosedRows | app/service/event_service.py:250-273 | each row is closed as AlertClose says, and the table keeps its size |
| EventService.CloseLabels | app/service/event_service.py:263-265 | one label per alert sent, each the payment or overstay alert-closed line |
| EventService.CloseAlertIdempotent | app/service/event_service.py:242-273 | after close_alert a second one sends no alert and changes no row |
| EventService.AlertsToCloseMeans | app/service/event_service.py:242-261 | an alert id is sent exactly when it belongs to a selected task: of the session, of the violation provider type, alert not CLOSED |
| EventService.CloseScanStep | app/service/event_service.py:251-273 | the next task of the scan adds its own alerts and labels at the end |
| EventService.AlertLines | app/service/event_service.py:267-271 | one log line per label when there is a session id, none otherwise |
| EventService.ExitTaskSession | app/service/event_service.py:275-282 | with neither a plate nor a spot there is no session to attribute the exit to |
| EventService.ExitTaskSessionFirst | app/models/task.py:204-214 | with a plate, the session of the first open task of the plate in the lot, none exactly when there is no such task; without a plate the same by spot |
| EventService.CloseTaskAlerts | app/service/event_service.py:252-273 | every alert id of the task is sent in order, one close line is logged per id, and the task's alert status becomes CLOSED |
| EventService.CloseOneAlert | app/service/event_service.py:254-273 | one more close line is logged and the task's alert status is CLOSED |
| EventService.CloseScanTask | app/service/event_service.py:251-273 | one step of the scan: the task sends, logs and closes its alerts exactly when it is selected |
| EventService.CloseAlertsOfSession | app/service/event_service.py:250-273 | the loop over the tasks: the table becomes AlertClosedRows, the alerts sent are AlertsToClose in table order, and one log line per alert is appended |
| EventService.AlertClosedOn | app/service/event_service.py:250-282 | every task is closed as AlertClose says for the task's session, and the task itself also takes the attributed session |
| EventService.CloseAlert | app/service/event_service.py:238-282 | a missing violation provider type raises before any change; otherwise the table is AlertClosedRows, the alerts sent are AlertsToClose, one line is logged per alert, and the exit takes ExitTaskSession's session |
| EventService.ExitRuleRows | app/models/task.py:55-72 | only statuses change, and only for car.exit (plate rule) or spot.free (spot rule) |
| EventService.ExitClosesItsVehicle | app/models/task.py:55-60 | a new car.exit task stays PENDING while the plate's other open tasks, except inactivations and exits, become CLOSED |
| EventService.FreeClosesItsSpot | app/models/task.py:66-69 | a new spot.free task stays PENDING while the spot session's other open tasks, except inactivations and frees, become CLOSED |
| EventService.SubTasksFor | app/service/task_service.py:21-36 | one PENDING sub-task of the task per connection, numbered in order |
| EventService.ExitSessionRows | app/models/task.py:62-72 | an exit or a free deactivates its session and clears waiting-for-payment; no other session changes |
| EventService.ApplyExitRules | app/models/task.py:55-72 | car.exit first takes the session's violation tasks for processing (their sub-tasks become IN_PROGRESS) and marks the first violation of the plate CLOSE; spot.free marks the first violation of the spot and session CLOSE; the tasks become ExitRuleRows and the sessions ExitSessionRows; other events leave violations and sub-tasks alone |
| EventService.CloseOnCarExit | app/models/task.py:55-64 | car.exit: the violation sub-tasks of the session start, the plate's open tasks close, the first violation of the plate is marked CLOSE and the session is deactivated |
| EventService.CloseOnSpotFree | app/models/task.py:66-72 | spot.free: the spot's open tasks close, the first violation of the spot and session is marked CLOSE and the session is deactivated |
| EventService.IdsOf | app/models/task.py:58 | the ids of the violation tasks, one per task, in order |
| EventService.StartedBeforeExit | app/utils/common.py:316-318 | the exit's start of violation sub-tasks keeps the table size |
| EventService.StartViolationsBeforeExit | app/models/task.py:56-58 | the sub-tasks of the session's open notify and citation tasks become IN_PROGRESS and nothing else changes |
| EventService.ExitRulesOnlyChangeStatuses | app/models/task.py:48-72 | inserting a task and applying the exit rules changes only statuses of the old rows and keeps the new one |
| EventService.CreateSubTasks | app/service/task_service.py:22-36 | the sub-tasks of SubTasksFor are appended, in connection order |
| EventService.CreateTask | app/service/task_service.py:19-37 | the task takes the next id; the exit rules apply to the table with it, including the car.exit start of violation sub-tasks and the CLOSE marks on violations; then one PENDING sub-task per connection is appended |
| EventService.BuildTasks | app/service/event_service.py:76-110 | one task per feature key in lookup order, all due at the same next_at; an unknown provider type raises |
| EventService.PlannedUpToExtend | app/service/event_service.py:76-110 | planning one more feature key extends the planned prefix |
| EventService.PrepareTask | app/service/event_service.py:118-158 | succeeds exactly when LineReady holds; the task takes LineSession; the log, the sessions and the carried description become LineLogs, LineSessions and LineCarried of the old state; the tasks become AlertClosedRows on an exit and are unchanged otherwise; violation events log nothing |
| EventService.LineLogs | app/service/event_service.py:118-158 | the log only grows; a violation event that is no exit adds nothing; a non-exit whose line is due and not suppressed adds one row of the session with the capitalised action and the carried description or that action |
| EventService.LineCarried | app/service/event_service.py:136-145 | a description already carried stays; a written line carries one; no line written leaves it as it was |
| EventService.LineSessions | app/service/event_service.py:130-153 | the table keeps its size; only the task's session can change; no line written changes nothing |
| EventService.LineSetsWaiting | app/service/event_service.py:130-134 | when a grouped event writes its line on a lot taking spot payment, its session waits for payment exactly when the event is an arrival inside the payment window |
| EventService.ProcessTask | app/service/event_service.py:114-167 | succeeds exactly when LineReady holds; on success the created task is the plan with the next id and LineSession, the log and carried description follow LineLogs and LineCarried, and the sessions are LineSessions followed by the exit rules; one task is appended with its sub-tasks, old sub-tasks are untouched unless the task is a car.exit; on failure no task or sub-task is added |
| EventService.HandleUnavailableProviderExit | app/service/event_service.py:180-235 | a fallback task with feature "NA", provider type 1 and the event's time is created without sub-tasks and goes through the exit rules; a car.exit first starts the session's violation sub-tasks; succeeds exactly when a violation provider type and a log label exist, and then the task's session alerts are closed, the task takes the attributed session and the log becomes ExitLogs |
| EventService.FallbackTask | app/service/event_service.py:186-198 | the fallback task is PENDING, of the event's session, and has feature "NA", provider type 1 and the event's time |
| EventService.CloseAndLogExit | app/service/event_service.py:212-229 | sessions are untouched; succeeds exactly when a violation provider type and a log label exist; then the tasks become AlertClosedOn at the fallback row and the log becomes ExitLogs; the fallback task keeps its feature, provider type, time, event type, plate and lot |
| EventService.ExitLogs | app/service/event_service.py:212-229 | the log only grows, by the session's alert-close lines and at most one exit line |
| EventService.HoldsBuiltKept | app/service/event_service.py:113-167 | changing only statuses keeps the created tasks in place |
| EventService.HoldsBuiltExtend | app/service/event_service.py:113-167 | one more created task at its place extends the range |
| EventService.RunTasks | app/service/event_service.py:113-167 | on success one task per built plan is appended in order and the last one's id is returned; with one plan the log and sessions are those of AfterOneTask, with no description carried in; old tasks change at most their statuses |
| EventService.RunOne | app/service/event_service.py:114-167 | one iteration keeps the earlier tasks and puts the new one at its place; the first one leaves the log and sessions of AfterOneTask |
| EventService.RunOneRows | app/service/event_service.py:114-167 | after one iteration still only statuses changed and one more built task is in place |
| EventService.OnlyStatusesChangeTransitive | app/service/event_service.py:113-167 | status-only changes compose |
| EventService.SessionViolationsClosed | app/service/event_service.py:325-328 | exactly the session's violations without an inactivation id become CLOSE |
| EventService.CloseSessionViolations | app/service/event_service.py:325-328 | the table becomes SessionViolationsClosed of the old one |
| EventService.ExecuteEvent | app/service/event_service.py:29-177 | an unconnected lot raises; no providers returns None for a non-exit and takes the fallback for an exit; otherwise one task per feature key, counted as successes, with the last id; with one feature key the log and sessions are AfterOneTask of the planned task, logged at the event time |
| EventService.CloseSessionTasksAndAlerts | app/service/event_service.py:321-338 | a session without tasks changes nothing; otherwise a missing violation provider type raises with tasks and violations unchanged; else the first task takes the attributed session, the violations of that session become CLOSE, the alerts close (on that task only when a violation was closed, on the whole session otherwise) and the plate's open tasks of the session close |
| EventService.SessionTasksClosed | app/service/event_service.py:321-331 | a session without a task leaves the task table as it is; otherwise the table keeps its size |
| EventService.AttributedClose | app/service/event_service.py:323-331 | the closing task takes the attributed session |
| EventService.SessionViolationsAfter | app/service/event_service.py:321-328 | a session without a task leaves the violation table as it is |
| ViolationClose.CountOpen | app/utils/violation_rule.py:151 | the count of OPEN violations of the session and type never exceeds the table size |
| ViolationClose.CountOpenZero | app/utils/violation_rule.py:151-153 | the count is zero exactly when the lookup finds no OPEN violation |
| ViolationClose.CountOpenClose | app/utils/violation_rule.py:151-153 | closing one OPEN violation of the session and type lowers the count by exactly one |
| ViolationClose.CloseFirstOpen | app/utils/violation_rule.py:151-153 | one iteration keeps the table size |
| ViolationClose.CloseOpenViolations | app/utils/violation_rule.py:133-153 | n iterations keep the table size |
| ViolationClose.CloseOpenViolationsShape | app/utils/violation_rule.py:151-153 | closing touches only statuses, only of OPEN violations of the session and type, and only to set CLOSE |
| ViolationClose.CloseOpenViolationsCount | app/utils/violation_rule.py:133-153 | n alerts leave max(0, count - n) OPEN violations of the session and type |
| ViolationClose.SingleViolationClosed | app/utils/violation_rule.py:133-153 | with at least one alert, a single OPEN violation of the type ends closed |
| ViolationClose.CloseFirstOpenViolation | app/utils/violation_rule.py:151-153 | the table becomes CloseFirstOpen of the old one |
| ViolationClose.LogAlertClosed | app/utils/violation_rule.py:143-146 | one more alert-closed line on the session, when it has one; sessions unchanged |
| ViolationClose.CloseAlertIteration | app/utils/violation_rule.py:133-153 | one iteration: alert status CLOSED, one log line, one violation closed |
| ViolationClose.CloseViolation | app/utils/violation_rule.py:132-158 | every alert id of the task is sent; the task's alert status becomes CLOSED when it has any; one line is logged and one OPEN violation closed per alert |
| ViolationClose.CloseAlerts | app/utils/violation_rule.py:133-158 | after n iterations the four tables are as AfterAlerts says |
| ViolationClose.ClosePendingViolation | app/utils/violation_rule.py:99-128 | a missing violation provider type raises; no pending violation task changes nothing; otherwise CloseViolation on the first one |
| ViolationClose.PendingAlertClosed | app/utils/violation_rule.py:99-128 | closing a pending violation task's alerts changes at most alert statuses |
| ViolationClose.ClosePaymentViolation | app/utils/violation_rule.py:120-128 | a missing violation provider type raises with nothing changed; no pending payment-violation task sends nothing; otherwise its alert ids are sent, one payment alert-closed line is logged per id, that many OPEN payment violations of the session close, and the task's alert status becomes CLOSED |
| ViolationClose.CloseOverstayViolation | app/utils/violation_rule.py:99-117 | a missing violation provider type raises with nothing changed; otherwise the alert ids of the pending overstay task are returned, its alert status becomes CLOSED, one "Overstay Alert Closed" line per id is logged, and that many OPEN overstay violations of the session are closed |
| PaymentService.ViolationSchemaMapping | app/service/payment_service.py:180-211 | an OPEN violation for the task's session, named after its type (an unknown type is named as a payment violation), with the fetched amount or 0 |
| PaymentService.MappedViolationIsOpen | app/service/payment_service.py:195-209 | the mapped violation is exactly what the session's OPEN-violation lookup finds |
| PaymentService.NotPaidRows | app/service/payment_service.py:98-123 | raises exactly when FIXED pricing must create a violation and no violation task exists; no configuration changes nothing; at most one row is added |
| PaymentService.NotPaidRowsAsWritten | app/service/payment_service.py:98-123 | differs from NotPaidRows only in how VARIABLE pricing picks the row to grow |
| PaymentService.VariableAccrualMissesSession | app/service/payment_service.py:103-105 | a returning car's "not paid" grows the earlier session's violation and leaves its own unchanged |
| PaymentService.CountOpenAppend | app/service/payment_service.py:112 | appending a violation adds one to the OPEN count exactly when it is OPEN for the session and type |
| PaymentService.CountOpenAccrued | app/service/payment_service.py:103-105 | growing an amount does not change the OPEN count |
| PaymentService.VariableAccrues | app/service/payment_service.py:100-109 | VARIABLE pricing with an OPEN violation adds 10 to that row only and adds no row |
| PaymentService.VariableCreatesOne | app/service/payment_service.py:100-114 | VARIABLE pricing without an OPEN violation creates exactly one, which becomes the session's OPEN one |
| PaymentService.FixedCreatesOnlyWhenFlagged | app/service/payment_service.py:116-123 | FIXED pricing adds a row exactly when none is OPEN, the flag is set and the violation task exists |
| PaymentService.NotPaidKeepsOneOpen | app/service/payment_service.py:98-123 | a session never gets a second OPEN violation of a type from not_paid |
| PaymentService.FixedIdempotent | app/service/payment_service.py:116-123 | under FIXED pricing a repeated "not paid" adds nothing more |
| PaymentService.NotPaid | app/service/payment_service.py:85-123 | the violation table becomes NotPaidRows of the old one, and the call fails exactly when NotPaidRows does |
| PaymentService.PaidTotal | app/service/payment_service.py:44-47 | a missing total counts as 0 |
| PaymentService.PaidAttrs | app/service/payment_service.py:36-47 | the first attribute always clears waiting-for-payment |
| PaymentService.PaidAccumulates | app/service/payment_service.py:36-47 | after a payment the session stops waiting; a price is added to the total, without one the total stays |
| PaymentService.PaidTwiceSums | app/service/payment_service.py:44-47 | two payments on one session add up |
| PaymentService.TimePaidFor | app/service/payment_service.py:37-41 | only paid, reservation and monthly-pass actions get the duration appended |
| PaymentService.TimePaidForSplits | app/service/payment_service.py:37-41 | the action type is the part of the label before ':' |
| PaymentService.Paid | app/service/payment_service.py:30-82 | the session stops waiting and adds the price to its total; the payment line is logged unless it repeats; a missing violation provider type raises after that; otherwise the pending payment-violation task's alerts close, one line per alert is logged, that many OPEN payment violations close, and the follow-up task is NextTaskSchema |
| PaymentService.PaidLog | app/service/payment_service.py:50-57 | the payment line is appended at most once, after the old log |
| PaymentService.NextTaskSchema | app/service/payment_service.py:69-80 | the follow-up task copies the paid task with a fresh id, PENDING status, no spot name and no alert status, due at the timestamp; it is claimable exactly after that time |
| ViolationRule.DecideFreeWindow | app/utils/violation_rule.py:35-53 | inside a paid window a payment violation logged as "Not Paid" or the window's own action; outside it an overstay; outside a window without a session nothing is decided |
| ViolationRule.GraceBranch | app/utils/violation_rule.py:38-53 | the grace branch is taken exactly when the window is closed and the session has no nph task yet; it alone carries no violation flag |
| ViolationRule.DecisionAttrsEffect | app/utils/violation_rule.py:64-67 | the session stops waiting for payment and records the nph flag; nothing else changes |
| ViolationRule.DecisionAttrs | app/utils/violation_rule.py:64-67 | the attributes write only waiting-for-payment and the nph flag: waiting False and the decision's nph flag |
| ViolationRule.GraceThenOverstay | app/utils/violation_rule.py:44-53 | outside the paid window the grace period is granted once; the next decision is an overstay due at the window's end |
| ViolationRule.FollowUp | app/utils/violation_rule.py:80-93 | a follow-up at the decision's time exactly when no flagged violation stops it, a session and lot exist, the window is closed or retries remain, and the event is not car.exit |
| ViolationRule.RetriesBounded | app/utils/violation_rule.py:88-89 | inside the paid window retries stop once the counter reaches the lot's limit |
| ViolationRule.CountedSessions | app/service/session_manager.py:566-569 | the session's not-paid counter grows by one |
| ViolationRule.ScheduleFollowUp | app/utils/violation_rule.py:93 | update_counter(not paid): only the session's not-paid counter changes, and it grows by one |
| ViolationRule.ManageFreeWindowAndNotPaidTask | app/utils/violation_rule.py:33-96 | the session is the task's row of the session table; nothing is decided: no change; the violation step raising: no further change; otherwise the violations follow NotPaidRows, the decision's action is logged as LoggedRows says (suppressed when it repeats), the session takes the decision's attributes, and a follow-up bumps the counter |
| ViolationRule.LogAndSchedule | app/utils/violation_rule.py:64-93 | the decision's action is logged with itself as description, unless the session log suppresses the repeat; the session takes the decision's attributes; the follow-up time is the one FollowUp chooses when the session exists and none otherwise; a scheduled follow-up raises the not-paid counter by one |
| SessionManager.BranchOf | app/service/session_manager.py:41-267 | the branch checks run in the source's order; an LPR-to-spot branch is taken only for a key that names it and carries the index of an existing session; the spot lookups go by `str` of the spot id |
| SessionManager.InvalidKeyMeans | app/service/session_manager.py:41-267 | "Invalid event key" is answered exactly when the event is not an unknown-event notice and its key is unknown, a spot update carries neither status, or an LPR-to-spot event has no session to map, an LPR-to-spot-free event being looked up by `str` of its spot id |
| SessionManager.SpotText | app/service/session_manager.py:92 | `str(parking_spot_id)`: a spot id is kept and a missing one reads "None" |
| SessionManager.SpotlessFreeIsInvalid | app/service/session_manager.py:224-267 | an LPR-to-spot-free event without a spot, among sessions opened without a spot, is answered "Invalid event key" |
| SessionManager.NewSession | app/service/session_manager.py:32-38 | a session built from an event has the event's plate, spot and lot, the given entry/exit event and activity, no nph task and a zero counter |
| SessionManager.SystemClosedSession | app/service/session_manager.py:49-52 | closing a superseded session clears only its active and waiting-for-payment flags |
| SessionManager.NewSessionIsNewest | app/service/session_manager.py:63-65 | the session just opened is the one the next lookup by plate finds, and by spot when the event has one |
| SessionManager.AppendLog | app/service/session_manager.py:533-557 | a spot-match or system-close line is always appended to the session log, with the next id |
| SessionManager.SystemClosedTasks | app/service/session_manager.py:48-56 | a system close keeps the task table's size |
| SessionManager.SystemClose | app/service/session_manager.py:48-62 | the session stops being active and waiting; its open tasks close and their ids are returned; when a task of the session remains, the alerts of its violation tasks close and that task takes the attributed session, raising exactly when no violation provider type exists; "System Closed" is the last log line |
| SessionManager.CloseSessionAlerts | app/service/session_manager.py:53-55 | raises exactly when the session has a task and no violation provider type exists; without a task the tasks are unchanged; otherwise the alerts of the session's violation tasks close and its first task takes the attributed session; the session table is unchanged and the log only grows |
| SessionManager.HandleCarEntry | app/service/session_manager.py:41-69 | with no active session of the plate nothing but the sessions changes; otherwise that session is system-closed first and "System Closed" is logged; on success a new active session holding the entry event and the LPR record is appended and the event carries its id |
| SessionManager.HandleCarExit | app/service/session_manager.py:72-88 | the plate's active session records the exit and stops waiting for payment; without one an exit-only session is appended and the event goes on unchanged |
| SessionManager.HandleSpotOccupied | app/service/session_manager.py:91-123 | as a car entry keyed by spot: an active session of the spot is system-closed first; the lookup goes by `str` of the spot id, so a spot-less event finds no session; on success the event becomes spot.occupied with that text as its spot and the new session's id, and the new session (which keeps the raw spot id) waits for payment exactly as OccupiedWaiting says |
| SessionManager.OccupiedWaiting | app/service/session_manager.py:118 | a new spot session is never marked waiting for payment up front; it is marked not waiting exactly when spot payment is disabled |
| SessionManager.HandleSpotAvailable | app/service/session_manager.py:125-140 | as a car exit keyed by `str` of the spot id: the found session records the exit and stops waiting, otherwise a session with the raw spot id is appended; the event becomes spot.free with that text as its spot |
| SessionManager.SpotTaskOf | app/models/task.py:391-396 | a found task belongs to the session and has a spot |
| SessionManager.HandleParkingViolation | app/service/session_manager.py:142-155 | the event joins the active session of its plate and LPR record, or a new inactive session is appended for it; either way the session has the event's plate and lot; with a found session the event takes the spot id and name of the session's first task with a spot when it has no spot of its own, and is otherwise the event itself; the result is ViolationEvent |
| SessionManager.ViolationEvent | app/service/session_manager.py:142-155 | the prepared violation event differs from the incoming one only in its session and spot; it keeps a spot of its own; it carries the id of a new session exactly when no active session of the lot, plate and LPR record exists |
| SessionManager.ParkingViolationRow | app/service/session_manager.py:159-177 | the recorded violation is open, of type parking violation, bound to the session, the returned task, the event's plate, spot and lot |
| SessionManager.SpotActionsAppend | app/models/session_log.py:28-45 | a spot-match or spot-free action is never one whose repeats the log suppresses |
| SessionManager.MappedSpotEffect | app/service/session_manager.py:191-195 | mapping writes the session's spot id and spot name and nothing else |
| SessionManager.MappedSpot | app/service/session_manager.py:191-195 | the attributes write only the spot id and spot name, and write both as the event has them |
| SessionManager.SpotMatchedEntry | app/service/session_manager.py:201-205 | the log line is on the session, at the event's time, with action "Spot Matched: " followed by the spot name and the title-cased description, which keeps "LPR"; no provider and no meta data |
| SessionManager.SetSessionSpot | app/service/session_manager.py:191-195 | only the session's spot id and spot name change |
| SessionManager.LogSpotMatch | app/service/session_manager.py:200-205 | exactly the spot-matched line is appended, with the next id; sessions unchanged |
| SessionManager.LogSpotFree | app/service/session_manager.py:229-233 | exactly the spot-free line is appended, with action "Spot Free: " and the spot name, the LPR description and the event's time; sessions unchanged |
| SessionManager.StopWaiting | app/service/session_manager.py:236-240 | only the session's waiting-for-payment flag changes, to False |
| SessionManager.MatchSpot | app/service/session_manager.py:191-195 | the session takes the event's spot and the "Spot Matched" line is appended |
| SessionManager.MapFirstTime | app/service/session_manager.py:218-221 | the session is marked as mapped and its open tasks move to the spot |
| SessionManager.Remap | app/service/session_manager.py:206-208 | raises exactly when the session has a task and no violation provider type exists, changing no session; otherwise the tasks and violations are closed as close_session_tasks_and_alerts does and only the nph flag of the session is cleared |
| SessionManager.MoveToNewSpot | app/service/session_manager.py:190-209 | the session takes the new spot; without a stored entry event it raises and logs nothing; on success its nph flag is cleared, its tasks and violations are closed as close_session_tasks_and_alerts does, and its entry event comes back with the session and the new spot |
| SessionManager.HandleLprToSpot | app/service/session_manager.py:183-222 | the first match takes the spot, marks the session mapped and moves its open tasks to the spot, touching no violation, and answers None; a later match goes through MoveToNewSpot with its stated effects |
| SessionManager.HandleLprToSpotFree | app/service/session_manager.py:225-241 | on success the session's tasks and violations are closed as close_session_tasks_and_alerts does and only its waiting-for-payment flag is cleared; with no task of the session tasks and violations stay; a failure changes no session |
| SessionManager.HandleUnknownEvent | app/service/session_manager.py:243-265 | looked up by `str` of the spot id; without an active session on the spot: "No session found to close" and no change to sessions or tasks; otherwise the session is system-closed; the sub-task close that follows is never committed, so sub-tasks are unchanged |
| SessionManager.Execute | app/service/session_manager.py:269-270 | execute_event's failure becomes "An error occurred: " and its message, and no other reply is given: a payment-window error leaves the tasks unchanged; a lot without providers leaves every table unchanged and answers None for a non-exit event, and appends the "NA" fallback task for an exit; otherwise a success reports one task per feature group, appended in order as planned |
| SessionManager.CreateSessionAudit | app/service/session_manager.py:24-270 | an unknown lot and an invalid key are answered without any change; an unknown event changes no violation or sub-task and system-closes the active session found by `str` of the spot id, if any; a first LPR-to-spot match maps the session and moves its tasks; an LPR-to-spot-free that succeeds clears waiting-for-payment and closes the session's tasks and violations |
| SessionManager.AuditUnknownEvent | app/service/session_manager.py:243-265 | the unknown-event branch as HandleUnknownEvent states it, answered with the reply |
| SessionManager.AuditLprToSpot | app/service/session_manager.py:183-222 | a first LPR-to-spot match replies "spot mapped to session" with the session mapped, its tasks moved, and violations and sub-tasks unchanged |
| SessionManager.AuditLprToSpotFree | app/service/session_manager.py:225-241 | a successful LPR-to-spot-free replies "spot free mapped to session" after clearing waiting-for-payment and closing the session's tasks and violations; any other reply changes no session |
| SessionManager.AuditPipeline | app/service/session_manager.py:41-177 | the entry, exit, occupied, available and parking-violation branches end in execute_event's response or an error reply, the parking-violation branch also in "not connected with any enforcement provider"; a payment-window error is an error reply, carrying that error's message and leaving the tasks unchanged in the exit, available and parking-violation branches; a parking violation without providers gets the not-connected reply and changes no task or violation; an executed parking violation ends with its violation row recorded for the prepared event, the returned task and the amount |
| SpotLog.SpotNameText | app/service/session_manager.py:203 | `str` of the spot name: the name itself, or "None" when it is missing |
| SpotLog.TitledDescription | app/service/session_manager.py:203 | after title-casing, "Lpr" is put back to "LPR", so a description starting with "LPR" still does |
| SpotLog.HeadingThenName | app/service/session_manager.py:203 | a heading ending in a space title-cases independently of the spot name after it |
| SpotLog.LprDescription | app/service/session_manager.py:201-232 | the spot-matched and spot-free descriptions: a heading starting with "LPR" gives a description that still does, and a heading ending in a space gives the titled heading followed by the titled spot name |
| DataFilter.Levenshtein | app/utils/data_filter.py:97 | the edit distance is at least the difference of the lengths and at most the longer length |
| DataFilter.LevenshteinZero | app/utils/data_filter.py:97-99 | distance zero holds exactly for the very same text, so the exact-match branch means equal upper-cased plates |
| DataFilter.FindClosestMatch | app/utils/data_filter.py:59-122 | the loop over the records returns what the reference scan Closest of the records finds |
| DataFilter.ScanRecord | app/utils/data_filter.py:80-94 | one record advances the reference scan by that record's plates, a record it cannot read stopping it; a stop is the final result |
| DataFilter.ScanPlates | app/utils/data_filter.py:96-117 | the inner loop advances the reference scan by exactly the record's plates |
| DataFilter.FoundIffQualifies | app/utils/data_filter.py:96-117 | with a plate to compare and every record readable, a record is found exactly when some plate is an exact match or within the threshold |
| DataFilter.FirstExactMatchWins | app/utils/data_filter.py:99-107 | the first exact match returns at once: its record, marked with that plate, and the task's plate |
| DataFilter.BestFuzzyMatch | app/utils/data_filter.py:110-117 | without an exact match the kept plate is within the threshold, strictly closer than every earlier plate and no farther than every later one (the first of equally close plates wins) |
| DataFilter.NoMatchIffNoneQualifies | app/utils/data_filter.py:80-122 | with every record readable, no record is returned exactly when no plate a record offers now is an exact match or within the threshold |
| DataFilter.UnreadableStops | app/utils/data_filter.py:119-122 | a record that cannot be read ends the scan with what was found before it |
| DataFilter.MissingExpiryIgnored | app/utils/data_filter.py:89-92 | a record without an expiry date counts as expired on 1990-01-01T12:00:00 and never matches afterwards |
| DataFilter.OtherPlates | app/utils/data_filter.py:52-53 | the other plates are exactly the record's filtered_lpr_keys other than the matched plate |
| DataFilter.FilterTiba | app/utils/data_filter.py:31-48 | (corrected) a shared pass is refused exactly when its filtered_lpr_keys exist and another of its cars has an open task in the lot; otherwise the record comes back with the matched plate |
| DataFilter.FilterTibaAsWritten | app/utils/data_filter.py:31-48 | (as written) a record without filtered_lpr_keys raises inside the try and yields None; with them it agrees with FilterTiba |
| DataFilter.MissingKeysExample | app/utils/data_filter.py:36 | a one-plate TIBA pass without filtered_lpr_keys is dropped as written and kept as intended |
| DataFilter.Filter | app/utils/data_filter.py:16-28 | the closest record, passed through the TIBA peer-car check only for the TIBA provider and only when a record was found (which always comes with its plate) |
| DataFilter.ClosestHasPlate | app/utils/data_filter.py:102-116 | whenever a record is found, the plate it matched with is found too and the record carries it as match_lpr |
| ResponseHandler.StripNamespace | app/utils/response_handler.py:39-43 | a tag without '}' is kept; with one the result holds no '}' |
| ResponseHandler.StripNamespaceIsSecondPiece | app/utils/response_handler.py:41-42 | the direct definition is the second piece of splitting the tag on '}' |
| ResponseHandler.StripQualified | app/utils/response_handler.py:39-43 | a qualified tag `{uri}name` strips to `name` |
| ResponseHandler.XmlToDict | app/utils/response_handler.py:12-27 | the loop over the children builds the reference dict DictOf of the element |
| ResponseHandler.DictOfFirstGet | app/utils/response_handler.py:15-26 | adding a child sets the entry under its stripped tag and leaves every other entry as it was |
| ResponseHandler.DictKeys | app/utils/response_handler.py:12-27 | the dict's keys are exactly the stripped tags of the children |
| ResponseHandler.TagValuesAreDicts | app/utils/response_handler.py:16-17 | the values grouped under a tag from children with children are all dicts |
| ResponseHandler.RepeatedTagsBecomeList | app/utils/response_handler.py:16-24 | when every child with a tag has children, the entry is absent, that one child's dict, or the list of all their dicts in document order |
| ResponseHandler.LeafMapsToText | app/utils/response_handler.py:25-26 | a childless child maps to its text unless a later child has the same tag |
| ResponseHandler.LookupAll | app/utils/response_handler.py:51-52 | a list of keys gives one lookup per key |
| ResponseHandler.FindSound | app/utils/response_handler.py:49-67 | any non-None value the depth-first search returns is stored under the key somewhere in the dict |
| ResponseHandler.FindNeverRaises | app/utils/response_handler.py:61-65 | the search raises only on a list item that is not a dict |
| ResponseHandler.TopLevelKeyFound | app/utils/response_handler.py:50-59 | depth first, first match: a top-level key is found when no earlier pair has it at any depth |
| ResponseHandler.ReplaceJsonValues | app/utils/response_handler.py:46-76 | the loop over the mapping builds the reference Projection of the input |
| ResponseHandler.ProjectionErrSticks | app/utils/response_handler.py:69-72 | once a lookup raises the rest of the mapping is never looked at |
| ResponseHandler.ProjectionRaises | app/utils/response_handler.py:69-72 | the call raises exactly when one of its lookups raises |
| ResponseHandler.ProjectionContents | app/utils/response_handler.py:69-76 | the result's keys are exactly the new keys whose lookup found a value other than None, each holding a value one of its lookups found |
| ResponseHandler.FirstListOrDict | app/utils/response_handler.py:80-94 | whatever is found is a non-empty list or dict |
| ResponseHandler.TransformItem | app/utils/response_handler.py:127-135 | the loop over the mapping builds the reference Transformed of the item |
| ResponseHandler.TransformedErrSticks | app/utils/response_handler.py:129-130 | once a lookup raises, the rest of the mapping is never looked at |
| ResponseHandler.TransformsErrSticks | app/utils/response_handler.py:126-130 | once an item's transform raises, the later items are never looked at |
| ResponseHandler.ReplaceJsonValuesV2 | app/utils/response_handler.py:79-141 | the loop over the found items builds the reference ReplacedV2 of the input |
| ResponseHandler.TransformedContents | app/utils/response_handler.py:127-135 | every transformed item holds exactly the mapping's new keys with what their lookups found; a list of keys yields None or a non-empty list with one entry per key |
| ResponseHandler.TransformsRaises | app/utils/response_handler.py:126-139 | transforming the items raises exactly when one item's transform raises |
| ResponseHandler.TransformsSound | app/utils/response_handler.py:137-139 | every kept row has a truthy value and is the transform of one of the items |
| ResponseHandler.TransformsComplete | app/utils/response_handler.py:137-139 | every item whose transform has a truthy value is kept |
| ResponseHandler.ReplacedV2Shape | app/utils/response_handler.py:115-141 | None when no non-empty list or dict is found; otherwise a non-empty list of truthy rows drawn from the found items |
| ResponseHandler.ValuesTextMentionsValues | app/utils/response_handler.py:85 | the text the key test searches always contains "values" |
| ResponseHandler.ValuesKeyTakesDict | app/utils/response_handler.py:85-86 | a dict with a key named "values" is taken as the one record whatever the mapping says |
| SchemaMapping.OriginalValue | app/utils/schema_mapping.py:82-91 | a secret column's text is decrypted (anything else kept); any other None becomes '' and any other value is kept |
| SchemaMapping.GetKeyPathMappingValues | app/utils/schema_mapping.py:66-79 | the loop over the path's segments computes the reference walk KeyPath |
| SchemaMapping.WalkAppend | app/utils/schema_mapping.py:71-77 | walking a path in two parts: the second starts where the first stopped, unless it stopped at None |
| SchemaMapping.KeyPathFirstSegment | app/utils/schema_mapping.py:67-75 | `a.b` names what `b` names inside the value of attribute `a` |
| SchemaMapping.MissingSegmentGivesEmpty | app/utils/schema_mapping.py:73-77 | a segment that finds nothing yields '' and so does every non-secret segment after it: the walk never stops early |
| SchemaMapping.NextBrace | app/utils/schema_mapping.py:101 | the position found is the first brace at or after the start, or the end |
| SchemaMapping.PlaceholdersSkip | app/utils/schema_mapping.py:101 | text without an opening brace adds no placeholder |
| SchemaMapping.PlaceholderFirst | app/utils/schema_mapping.py:101 | a `{name}` without braces inside is a placeholder, and the search goes on after it |
| SchemaMapping.PlaceholdersOfTemplate | app/utils/schema_mapping.py:101 | a template with one `{name}` has exactly that placeholder |
| SchemaMapping.ResolveOne | app/utils/schema_mapping.py:103-135 | one pass of the placeholder loop is the reference step ResolveStep |
| SchemaMapping.ResolvePlaceholder | app/utils/schema_mapping.py:99-137 | the loop over the placeholders, first to last, is the reference ResolveAll; the first exception ends it |
| SchemaMapping.UnknownModelsUntouched | app/utils/schema_mapping.py:104-105 | placeholders naming no model of the context leave the text and the entry as they are |
| SchemaMapping.ReplaceEntry | app/utils/schema_mapping.py:141-158 | the new value of one key is the reference NewEntry |
| SchemaMapping.ReplaceJsonPlaceholderWithMappedPointers | app/utils/schema_mapping.py:96-163 | the in-place rewrite of dicts key by key and lists item by item is the reference Subst |
| SchemaMapping.KnownStep | app/utils/schema_mapping.py:107-125 | a placeholder naming a non-dict attribute of a model replaces its `{...}` text with the attribute's string value |
| SchemaMapping.ResolveSingle | app/utils/schema_mapping.py:102 | a single placeholder resolves as its one step |
| SchemaMapping.TemplateResolves | app/utils/schema_mapping.py:101-137 | `pre{model.attr}post` resolves to the attribute's string value between `pre` and `post` |
| SchemaMapping.KnownPlaceholderReplaced | app/utils/schema_mapping.py:141-146 | the entry becomes the text with the attribute's value in place of the placeholder, or the value itself when that text is empty |
| SchemaMapping.TextWithoutKnownModelKept | app/utils/schema_mapping.py:141-146 | text whose placeholders name no model is kept as it is |
| SchemaMapping.CurrentUtcBecomesToday | app/utils/schema_mapping.py:143-144 | the text `current_utc` becomes today's date |
| SchemaMapping.MissingAttrResolvesEmpty | app/utils/schema_mapping.py:107-125 | a url `{model.attr}` whose attribute is None resolves to the empty text |
| SchemaMapping.Base64MissingImage | app/utils/schema_mapping.py:148-154 | a base64 leaf whose url attribute is None becomes "" |
| SchemaMapping.Base64PlainUrl | app/utils/schema_mapping.py:148-154 | a base64 leaf whose url names no model is downloaded as written, unless it is '' or 'None' |
| SchemaMapping.SubstFieldsShape | app/utils/schema_mapping.py:139-158 | the dict loop keeps every key in its place, rewrites nested values and keeps numbers, booleans and None |
| SchemaMapping.SubstKeepsKeys | app/utils/schema_mapping.py:139-158 | every key of a dict survives the substitution, in its place |
| SchemaMapping.SubstItemsShape | app/utils/schema_mapping.py:159-161 | the list loop rewrites each item on its own and keeps the length |
| SchemaMapping.SubstItemwise | app/utils/schema_mapping.py:159-161 | a list is rewritten item by item, and text directly inside a list stays as it is |
| SchemaMapping.SubstItemsRaises | app/utils/schema_mapping.py:159-161 | a list fails exactly when one of its items fails |
| RequestHandler.CommonSchemaLast | app/schema/common_schema.py:6-10 | the CommonSchema record carries the plate when the task has a non-empty one, the spot otherwise, and the lot; no other key |
| RequestHandler.UpdateGet | app/utils/request_handler.py:28-32 | after `dict.update` a key holds what the last pair gave it, or what it held before |
| RequestHandler.MapValue | app/utils/request_handler.py:23-45 | fails with "no update" exactly when the credential has no requestDict dict; otherwise the text is the requestDict placeholders substituted from the merged dict |
| RequestHandler.MapValueMerges | app/utils/request_handler.py:23-32 | the merged requestDict holds the task's plate (or None), its spot only without a plate, its lot, and every other key as the credential had it |
| RequestHandler.MatchKey | app/utils/request_handler.py:37-38 | a matched key is a key of the requestDict, followed by `}` in the text |
| RequestHandler.SubKeysUntouched | app/utils/request_handler.py:37-45 | text where no `{` opens a key of the requestDict comes back unchanged |
| RequestHandler.SubKeysSkip | app/utils/request_handler.py:44 | a prefix without `{` is copied as it is |
| RequestHandler.MatchKeyExact | app/utils/request_handler.py:38 | with keys free of `}`, the only key matching `k}` is `k` |
| RequestHandler.SubKeysAtKey | app/utils/request_handler.py:40-44 | a `{k}` naming a key is replaced by `str` of the key's value |
| RequestHandler.SubKeysOne | app/utils/request_handler.py:37-45 | in a text with one `{k}`, exactly that placeholder is replaced and the rest is kept |
| RequestHandler.MapPathParamsFills | app/utils/request_handler.py:101-104 | `pre{lpr}mid{gracePeriod}post` gets `str` of the plate and of the lot's grace period in those two places |
| RequestHandler.MapPathParams | app/utils/request_handler.py:101-104 | a url with neither `{lpr}` nor `{gracePeriod}` comes back unchanged |
| RequestHandler.MapPathParamsUntouched | app/utils/request_handler.py:101-104 | a url with neither placeholder comes back unchanged |
| RequestHandler.LookupPath | app/utils/request_handler.py:122-131 | the inner loop computes the reference PathValue of the path |
| RequestHandler.GetNestedValues | app/utils/request_handler.py:111-135 | every key stays in its place; a text entry becomes what its path names (None when a step is missing); any other entry is unchanged |
| RequestHandler.PathValueFirstSegment | app/utils/request_handler.py:122-131 | a path walks its first segment, then the rest inside what it found, unless it found None |
| RequestHandler.MissingStepGivesNone | app/utils/request_handler.py:130-131 | a step that finds nothing makes the whole path None, wherever it stands |
| RequestHandler.BuildBody | app/utils/request_handler.py:163-168 | the body loop computes the reference BodyFold of the entries |
| RequestHandler.MakeRequestData | app/utils/request_handler.py:152-185 | (as written) the record is the reference RequestDataOf of the schema |
| RequestHandler.DefaultMethodPost | app/utils/request_handler.py:153 | without a `method` the verb is POST, as intended and as written |
| RequestHandler.MethodFromRequest | app/utils/request_handler.py:155-157 | (corrected) a request's own `method` is the verb |
| RequestHandler.RequestDataCorrected | app/utils/request_handler.py:152-185 | (corrected) no request gives POST and empty parts; where both readings succeed they differ at most in the verb; with no `method` anywhere they agree |
| RequestHandler.MethodIgnoredAsWritten | app/utils/request_handler.py:156 | (as written) `{"request": {"method": "GET"}}` gives POST, while the corrected reading gives GET |
| RequestHandler.UrlJoined | app/utils/request_handler.py:170-178 | host, tenant id and path give `host/tenant_id` followed by the path |
| RequestHandler.NoUrlBlock | app/utils/request_handler.py:153 | a request without a url block gives the empty url |
| RequestHandler.BodyFoldAppend | app/utils/request_handler.py:163-168 | the body loop over two parts is the loop over the second from where the first left off |
| RequestHandler.BodyLastEntryWins | app/utils/request_handler.py:164-168 | the last entry for a key decides its body value, passed through original_value |
| RequestHandler.BodyKeepsOtherKeys | app/utils/request_handler.py:166-168 | keys no body entry names keep what the body held |
| RequestHandler.FirstHit | app/utils/request_handler.py:71-84 | no value exactly when no source has the name; otherwise the value of some source that has it |
| RequestHandler.FirstHitEarliest | app/utils/request_handler.py:71-84 | the earliest source holding a name decides its value |
| RequestHandler.ReplaceValue | app/utils/request_handler.py:64-86 | one entry of the dict loop is the reference RewriteEntry |
| RequestHandler.ReplaceValues | app/utils/request_handler.py:61-89 | the in-place rewrite of dicts and lists is the reference Rewrite |
| RequestHandler.ReplaceJsonValues | app/utils/request_handler.py:48-92 | a schema that does not parse comes back as its text; otherwise the reference Rewrite of what it parses to |
| RequestHandler.RewriteFieldsShape | app/utils/request_handler.py:62-86 | the dict loop keeps every key in its place and gives each the entry's new value |
| RequestHandler.RewriteFieldsRaises | app/utils/request_handler.py:62-86 | the dict loop raises exactly when one of its entries does |
| RequestHandler.RewriteItemsShape | app/utils/request_handler.py:87-89 | the list loop keeps the length and rewrites each item on its own |
| RequestHandler.RewriteObject | app/utils/request_handler.py:62-84 | `current_timestamp` becomes the clock's text, a found `location_id` the facility id (kept when the connection is missing), other text the first source's attribute of that name, and scalars stay |
| RequestHandler.LocationIdUnboundRaises | app/utils/request_handler.py:57-68 | a `location_id` value without a looked-up connection makes the call raise |
| RequestHandler.RewriteItemsRaises | app/utils/request_handler.py:87-89 | the list loop raises exactly when one of its items does |
| RequestHandler.RewriteList | app/utils/request_handler.py:87-89 | a list keeps its length; text items stay, nested dicts and lists are rewritten |
| RequestHandler.TaskFirst | app/utils/request_handler.py:71-74 | a name the task has takes the task's value, whatever the others hold |
| RequestHandler.AlertBodyLast | app/utils/request_handler.py:83-84 | the alert body decides only names no other source has |

## Left out

- The provider transport is not modelled: HTTP, SOAP, OAuth, cookie and token handling, and the retry thread pool. The answers of provider calls are parameters.
- The payment, enforcement and admin microservices and the alert service are external calls. Their answers are parameters, and the alerts raised are an output list.
- Row locking (`with_for_update(skip_locked=True)`) is about concurrent workers. The claim is modelled for one worker.
- EventService.ExecuteEvent handles one event. The grouping of a batch by lot and the loop over the batch (app/service/event_service.py:40-47) are not modelled.
- The inactivation feature is not part of this model: `execute_event_for_inactivation_task` and `check_for_inactivation_feature`, called at app/service/event_service.py:200-204 and 332-336, app/service/payment_service.py:61-65 and app/utils/violation_rule.py:105-109. Those calls are treated as doing nothing.
- The feature processors (payment by plate or spot, reservation, citation, notify) are not modelled. They are orchestration over the modelled pieces plus provider I/O.
- The reporting queries (`fetch_session*`, session statistics) and the CRUD and configuration APIs are not modelled.
- `check_remaining_time` and the other clock and `strptime` helpers are replaced by parameters: the remaining-time text, "now", and dates already parsed to seconds. An unparseable date is the `Unreadable` case.
- These lookups are parameters:
  - the provider and credentials looked up in `paid`;
  - the lot row looked up in `not_paid`, which is assumed to exist;
  - the connected lot of `create_session_audit`.
- TaskService.create_task's check for a COMPLETED task is not modelled, because a task is never COMPLETED when it is created.
- The `sg_event_response` JSON kept on tasks is opaque and not modelled.
- `get_task_car_exit` orders by `created_at`. The model orders by id, which matches creation order in a table without deletes.
- Queries that end in `.first()` without an ORDER BY (for example `get_task_by_session_id`, app/models/task.py:84-86) return whichever row the database yields first. The model takes the row with the lowest id.
- SessionManager.HandleUnknownEvent: the sub-task close it returns with (app/service/session_manager.py:264, app/models/sub_task.py:63-71) issues no commit and nothing commits after it, so the model leaves the sub-tasks unchanged.
- EventService.ApplyExitRules: on car.exit the session's violation tasks have their sub-tasks set IN_PROGRESS (app/utils/common.py:316-318, app/service/task_service.py:105-108). The feature processor `switch_feature` that then runs is not modelled, like the other feature processors. EventService.CreateTask and EventService.HandleUnavailableProviderExit inherit this.
- SessionManager.CreateSessionAudit: the entry, exit, occupied, available and parking-violation branches are stated only as keeping the tables valid and ending in execute_event or a reply. Their effects are stated by SessionManager.HandleCarEntry, HandleCarExit, HandleSpotOccupied, HandleSpotAvailable and HandleParkingViolation. A later LPR-to-spot match is stated by SessionManager.HandleLprToSpot.
- EventService.ExitTaskSession: its own contract states only the case with neither plate nor spot. The first-match behaviour is stated by EventService.ExitTaskSessionFirst.
- SessionManager.SystemClosedTasks, EventService.SessionTasksClosed, EventService.SessionViolationsAfter, EventService.StartedBeforeExit and SessionUpdates.UpdatedSessions: these table functions state only size and the no-op case. The methods that use them tie each one to a concrete table change.
- XML parsing (`ET.fromstring`) and the JSON text `xml_to_json` dumps are not modelled. The model starts from the element tree.
- `str()` of nested values follows Python's `repr` for strings, numbers, booleans, None, lists and dicts. Quote escaping inside strings is not modelled.
- Floating-point numbers are not modelled. JSON numbers are integers, and amounts paid are `real`, so float rounding is absent.
- `hasattr`/`getattr` on ORM objects and pydantic coercion are modelled by attribute lists, with no coercion.
- `dict.update` with an iterable of pairs that is not a dict raises in the model.
- RequestHandler.BodyLastEntryWins: a body entry whose key is a number, a bool or None is treated as raising. Python would store it under that key, but body keys are modelled as text only.
- Python dicts that the source mutates in place are returned as new values, so aliasing with the caller's dicts is not modelled. This covers the records of `find_closest_match`, the templates of `replace_json_placeholder_with_mapped_pointers` and `replace_json_values`, and the `key_paths` of `get_nested_values`, and `body_data['value']`, which `make_request_data` rewrites in place inside the caller's schema (app/utils/request_handler.py:164).
- The violation lookup in request `replace_json_values` (app/utils/request_handler.py:52) is modelled as succeeding. Its result is the `violation` source of the lookups.
- Common.SanitizeLoggedData: the `copy.deepcopy` of the data (app/utils/common.py:489) is not modelled, because a Dafny value is already a copy. The model also neither parses an argument given as JSON text (`json.loads`, lines 486-487) nor serialises the result to JSON text (`json.dumps`, line 506): it takes and returns the fields.
- Common.FormatBody: an item without a 'key' or a 'value' entry raises KeyError in `format_body` (app/utils/common.py:394-395). The model's items are key/value pairs, so that error path is not modelled.
- Common.ExtractRecordId: Python's `\d` (app/utils/common.py:409) also matches non-ASCII decimal digits, which `int()` converts. The model recognises ASCII digits only.
- SessionUpdates.CreateSessionLogs: the session log's foreign key on `session_id` (app/models/session_log.py:14) is not modelled. For a session id missing from the session table, the source's insert fails and the call returns None; the model appends the row and returns it.
- ViolationRule.ScheduleFollowUp: build_task_from_event (app/utils/common.py:230-243), which rebuilds the session's entry event at the follow-up time and runs it through execute_event, is not modelled: the follow-up task, its sub-tasks and its log lines are not created, and the exception it raises for a session without a stored entry event, which skips the counter update, is not modelled either. Only the counter update is.
- ViolationRule.ManageFreeWindowAndNotPaidTask: it returns the follow-up time it would schedule, and through ViolationRule.ScheduleFollowUp it raises the not-paid counter, but it does not create the follow-up task (app/utils/violation_rule.py:91-92).
- TaskModel.TASK_PICKING_LIMIT and ParkingWindow.VIOLATION_GRACE_PERIOD are the defaults 10 and 20 of app/config.py:21,24. Values set through the environment are not modelled.
- SessionManager.AuditPipeline: the table effects of a branch's preparation followed by execute_event are not stated as one composed contract. SessionManager.HandleCarEntry, HandleCarExit, HandleSpotOccupied, HandleSpotAvailable and HandleParkingViolation state the preparation, and SessionManager.Execute states execute_event on the prepared event.
- SpotLog.LprDescription: the title-cased text of the two headings is not computed letter by letter. The contract states that the description keeps "LPR" and that it is the titled heading followed by the titled spot name.
- PaymentService.NotPaid: under FIXED pricing the source runs a nested execute_event for the violation task (app/service/payment_service.py:116-123, 214-230). The model takes the task it creates as the parameter `violationTask` of PaymentService.NotPaid, PaymentService.NotPaidRows and ViolationRule.ManageFreeWindowAndNotPaidTask, and changes only the violation table. The task row, its sub-tasks and the session-log lines that the nested call writes are not modelled. PaymentService.NotPaidKeepsOneOpen and PaymentService.FixedIdempotent require that this task belongs to the session being checked. The source builds it that way (app/service/payment_service.py:216-227), but the model takes it as given.
- Common.MaxParkTimeToMinutes: `int()` also strips the separators U+001C to U+001F and non-ASCII whitespace, and reads non-ASCII decimal digits. Text.ParseInt accepts ASCII whitespace and ASCII digits only, with single underscores between digits and an optional sign.
- EventService.RunTasks: the log, session and carried-description effect of execute_event's second loop is stated for a single planned task (EventService.AfterOneTask), and EventService.ExecuteEvent states it for one feature key. For several tasks each step follows EventService.ProcessTask, but the composed effect is not stated as one contract. The error direction (a first task that is not ready makes the loop fail) is stated by EventService.ProcessTask only.
- Logging and telemetry are not modelled, apart from session-log rows. Encryption is not modelled either: decryption is a parameter.
- Text case mapping covers ASCII letters only.

## Findings

| source | as written | input that shows it | evidently intended | confidence | as-written member | corrected member |
|---|---|---|---|---|---|---|
| app/service/payment_service.py:103-105 | Under VARIABLE pricing, an OPEN violation of the session is detected, but the increment goes through `update_violation`. That call grows the first OPEN violation with the same plate (spot feature) or spot (plate feature), whatever its session and type (app/models/violation.py:46-60). | Plate ABC123 has two OPEN payment violations of 50, one from session 1 and one from session 2. A PAYMENT_CHECK_SPOT task of session 2 runs `not_paid`: session 1's violation becomes 60 and session 2's stays 50. | The session's own OPEN violation of that type grows by 10. | not executed | PaymentService.NotPaidRowsAsWritten, PaymentService.VariableAccrualMissesSession | PaymentService.NotPaidRows, PaymentService.NotPaid |
| app/utils/data_filter.py:36 | `tiba_other_cars_available` reads `filtered_lpr_keys` before the `'filtered_lpr_keys' in record` test is evaluated. A record without that key raises KeyError, and the exception handler returns None, which drops the record. | A one-plate TIBA pass `{"plate_number": "ABC123", "expiry_date": <future>}` matched to ABC123 is dropped. | A record without `filtered_lpr_keys` has no other cars, so it is returned with its plate. | not executed | DataFilter.FilterTibaAsWritten, DataFilter.MissingKeysExample | DataFilter.FilterTiba, DataFilter.Filter |
| app/utils/request_handler.py:156 | The method is read from `schema['request']` only when the top-level schema has a `method` key. | `{"request": {"method": "GET"}}` gives method POST. | The method is read when `schema['request']` has a `method` key. | not executed | RequestHandler.MakeRequestData, RequestHandler.MethodIgnoredAsWritten | RequestHandler.RequestDataCorrected, RequestHandler.MethodFromRequest |
