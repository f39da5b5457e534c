/**
 * The sub-task table: one row per provider call a task fans out to.
 * Sub-tasks are moved between statuses in bulk, by task or by id.
 */
module SubTaskModel {
  import opened Wrappers
  import opened Enums

  datatype SubTask = SubTask(id: nat, status: Status, taskId: nat, featureUrlPath: nat, credsId: Option<nat>)

  predicate WellNumbered(rows: seq<SubTask>)
  {
    forall i :: 0 <= i < |rows| ==> rows[i].id == i + 1
  }

  /** get_sub_task_to_process: every sub-task of the task becomes IN_PROGRESS, whatever its status. */
  function StartAll(rows: seq<SubTask>, taskId: nat): (r: seq<SubTask>)
    ensures |r| == |rows|
    ensures forall i :: 0 <= i < |rows| ==> r[i] == rows[i].(status := r[i].status)
    ensures forall i :: 0 <= i < |rows| ==> (rows[i].taskId == taskId ==> r[i].status == InProgress)
    ensures forall i :: 0 <= i < |rows| ==> (rows[i].taskId != taskId ==> r[i] == rows[i])
  {
    seq(|rows|, i requires 0 <= i < |rows| =>
      if rows[i].taskId == taskId then rows[i].(status := InProgress) else rows[i])
  }

  /**
   * The table after get_sub_task_to_process on each of the tasks in turn:
   * every sub-task of one of them becomes IN_PROGRESS, the others are
   * unchanged.
   */
  function StartEach(rows: seq<SubTask>, taskIds: seq<nat>): (r: seq<SubTask>)
    ensures |r| == |rows|
    ensures forall i :: 0 <= i < |rows| ==> r[i] == rows[i].(status := r[i].status)
    ensures forall i :: 0 <= i < |rows| ==> (rows[i].taskId in taskIds ==> r[i].status == InProgress)
    ensures forall i :: 0 <= i < |rows| ==> (rows[i].taskId !in taskIds ==> r[i] == rows[i])
    decreases |taskIds|
  {
    if taskIds == [] then rows
    else
      var init := taskIds[..|taskIds| - 1];
      assert forall x :: x in taskIds <==> x in init || x == taskIds[|taskIds| - 1] by {
        assert taskIds == init + [taskIds[|taskIds| - 1]];
      }
      StartAll(StartEach(rows, init), taskIds[|taskIds| - 1])
  }

  /** The sub-tasks of one task, in id order. */
  function OfTask(rows: seq<SubTask>, taskId: nat): (r: seq<SubTask>)
    ensures forall s :: s in r <==> s in rows && s.taskId == taskId
    ensures |r| <= |rows|
  {
    if rows == [] then []
    else (if rows[0].taskId == taskId then [rows[0]] else []) + OfTask(rows[1..], taskId)
  }

  /** close_sub_task: the row with that id, and no other, becomes CLOSED. */
  function CloseOne(rows: seq<SubTask>, subTaskId: nat): (r: seq<SubTask>)
    ensures |r| == |rows|
    ensures forall i :: 0 <= i < |rows| ==> (rows[i].id == subTaskId ==> r[i] == rows[i].(status := Closed))
    ensures forall i :: 0 <= i < |rows| ==> (rows[i].id != subTaskId ==> r[i] == rows[i])
  {
    seq(|rows|, i requires 0 <= i < |rows| =>
      if rows[i].id == subTaskId then rows[i].(status := Closed) else rows[i])
  }

  /** close_sub_task_on_paid: all sub-tasks of the task CLOSED, then the paid one COMPLETED. */
  function CloseOnPaid(rows: seq<SubTask>, subTaskId: nat, taskId: nat): (r: seq<SubTask>)
    ensures |r| == |rows|
    ensures forall i :: 0 <= i < |rows| ==> r[i] == rows[i].(status := r[i].status)
    ensures forall i :: 0 <= i < |rows| ==> (rows[i].id == subTaskId ==> r[i].status == Completed)
    ensures forall i :: 0 <= i < |rows| ==>
              (rows[i].id != subTaskId && rows[i].taskId == taskId ==> r[i].status == Closed)
    ensures forall i :: 0 <= i < |rows| ==>
              (rows[i].id != subTaskId && rows[i].taskId != taskId ==> r[i] == rows[i])
  {
    var closed := seq(|rows|, i requires 0 <= i < |rows| =>
      if rows[i].taskId == taskId then rows[i].(status := Closed) else rows[i]);
    seq(|rows|, i requires 0 <= i < |rows| =>
      if closed[i].id == subTaskId then closed[i].(status := Completed) else closed[i])
  }

  predicate CloseByTaskTarget(s: SubTask, taskIds: seq<nat>)
  {
    s.taskId in taskIds && (s.status == Pending || s.status == InProgress)
  }

  /** close_sub_task_with_task_id: only the PENDING/IN_PROGRESS sub-tasks of the listed tasks close. */
  function CloseByTasks(rows: seq<SubTask>, taskIds: seq<nat>): (r: seq<SubTask>)
    ensures |r| == |rows|
    ensures forall i :: 0 <= i < |rows| ==> (CloseByTaskTarget(rows[i], taskIds) ==> r[i] == rows[i].(status := Closed))
    ensures forall i :: 0 <= i < |rows| ==> (!CloseByTaskTarget(rows[i], taskIds) ==> r[i] == rows[i])
  {
    seq(|rows|, i requires 0 <= i < |rows| =>
      if CloseByTaskTarget(rows[i], taskIds) then rows[i].(status := Closed) else rows[i])
  }

  /** COMPLETED sub-tasks survive every close rule except the paid one's own id. */
  lemma CompletedIsKept(rows: seq<SubTask>, taskIds: seq<nat>, i: nat)
    requires i < |rows| && rows[i].status == Completed
    ensures CloseByTasks(rows, taskIds)[i] == rows[i]
    ensures StartAll(rows, rows[i].taskId)[i].status == InProgress
  {
  }

  /** After the paid close, exactly one sub-task of the task is still not CLOSED: the paid one. */
  lemma PaidLeavesOneOpen(rows: seq<SubTask>, subTaskId: nat, taskId: nat)
    requires WellNumbered(rows)
    ensures forall i :: 0 <= i < |rows| && rows[i].taskId == taskId ==>
              (CloseOnPaid(rows, subTaskId, taskId)[i].status != Closed <==> rows[i].id == subTaskId)
  {
  }

  class SubTaskTable {
    var rows: seq<SubTask>

    ghost predicate Valid()
      reads this
    {
      WellNumbered(rows)
    }

    constructor ()
      ensures rows == [] && Valid()
    {
      rows := [];
    }

    /** create_sub_task: a PENDING row with the next id. */
    method Insert(taskId: nat, featureUrlPath: nat, credsId: Option<nat>) returns (id: nat)
      requires Valid()
      modifies this
      ensures Valid()
      ensures id == |old(rows)| + 1
      ensures rows == old(rows) + [SubTask(id, Pending, taskId, featureUrlPath, credsId)]
    {
      id := |rows| + 1;
      rows := rows + [SubTask(id, Pending, taskId, featureUrlPath, credsId)];
    }

    method GetSubTaskToProcess(taskId: nat) returns (started: seq<SubTask>)
      requires Valid()
      modifies this
      ensures Valid()
      ensures rows == StartAll(old(rows), taskId)
      ensures started == OfTask(rows, taskId)
      ensures forall s :: s in started ==> s.status == InProgress
    {
      rows := StartAll(rows, taskId);
      started := OfTask(rows, taskId);
    }

    method CloseSubTask(subTaskId: nat)
      requires Valid()
      modifies this
      ensures Valid()
      ensures rows == CloseOne(old(rows), subTaskId)
    {
      rows := CloseOne(rows, subTaskId);
    }

    method CloseSubTaskOnPaid(subTaskId: nat, taskId: nat)
      requires Valid()
      modifies this
      ensures Valid()
      ensures rows == CloseOnPaid(old(rows), subTaskId, taskId)
    {
      rows := CloseOnPaid(rows, subTaskId, taskId);
    }

    method CloseSubTaskWithTaskId(taskIds: seq<nat>)
      requires Valid()
      modifies this
      ensures Valid()
      ensures rows == CloseByTasks(old(rows), taskIds)
    {
      rows := CloseByTasks(rows, taskIds);
    }
  }
}
