/** The task record and its status machine (src/task/task.rs).

    A `Task` is a plain value: it is cloned, stored by value in the task
    list and serialised, so its `&mut self` methods are modelled as
    functions from the old record to the new one. The clock (`Utc::now`)
    is the parameter `now`, and the random part of a new id (the first
    group of a fresh UUID) is the parameter `idSuffix`. */
module Tasks {
  import opened Wrappers
  import Text

  datatype TaskStatus = Todo | Planning | PlanReview | InProgress | Review | Done | Cancelled

  /** Position along the board's pipeline Todo → … → Done. Cancelled is
      off the pipeline and has no stage. */
  function Stage(s: TaskStatus): nat
    requires s != Cancelled
  {
    match s
    case Todo => 0
    case Planning => 1
    case PlanReview => 2
    case InProgress => 3
    case Review => 4
    case Done => 5
  }

  /** `TaskStatus::to_column_index`: the board column a status belongs to. */
  function ColumnIndex(s: TaskStatus): (r: Option<nat>)
    ensures r.None? <==> s == Cancelled
    ensures r == Some(0) <==> s == Todo
    ensures r == Some(1) <==> s in {Planning, PlanReview, InProgress}
    ensures r == Some(2) <==> s == Review
    ensures r == Some(3) <==> s == Done
  {
    match s
    case Todo => Some(0)
    case Planning | PlanReview | InProgress => Some(1)
    case Review => Some(2)
    case Done => Some(3)
    case Cancelled => None
  }

  /** Columns follow the pipeline: a later stage never sits left of an
      earlier one. */
  lemma ColumnFollowsStage(a: TaskStatus, b: TaskStatus)
    requires a != Cancelled && b != Cancelled && Stage(a) <= Stage(b)
    ensures ColumnIndex(a).value <= ColumnIndex(b).value
  {
  }

  type Timestamp = int

  datatype Task = Task(
    id: string,
    title: string,
    description: string,
    status: TaskStatus,
    planner: Option<string>,
    executor: Option<string>,
    agent: Option<string>,
    branch: Option<string>,
    worktree: Option<string>,
    createdAt: Timestamp,
    startedAt: Option<Timestamp>,
    completedAt: Option<Timestamp>,
    outputLog: Option<string>)

  const IdPrefix: string := "task-"

  /** `Task::new`: a Todo task with an id "task-<suffix>" and nothing
      assigned, started or completed yet. */
  function NewTask(title: string, description: string, idSuffix: string, now: Timestamp): (t: Task)
    ensures Text.StartsWith(t.id, IdPrefix) && t.id[|IdPrefix|..] == idSuffix
    ensures t.title == title && t.description == description && t.createdAt == now
    ensures t.status == Todo
    ensures t.planner.None? && t.executor.None? && t.agent.None? && t.branch.None?
    ensures t.worktree.None? && t.startedAt.None? && t.completedAt.None? && t.outputLog.None?
  {
    Task(IdPrefix + idSuffix, title, description, Todo,
         None, None, None, None, None, now, None, None, None)
  }

  /** Distinct UUID groups give distinct task ids. */
  lemma NewTaskIdsDistinct(title1: string, description1: string, suffix1: string, now1: Timestamp,
                            title2: string, description2: string, suffix2: string, now2: Timestamp)
    requires suffix1 != suffix2
    ensures NewTask(title1, description1, suffix1, now1).id != NewTask(title2, description2, suffix2, now2).id
  {
  }

  /** `Task::set_status`: the status becomes `s`; `startedAt` is stamped
      only on entering Planning or InProgress and only if still unset;
      `completedAt` is stamped on every entry to Done or Cancelled. */
  function SetStatus(t: Task, s: TaskStatus, now: Timestamp): (r: Task)
    ensures r.status == s
    ensures r == t.(status := s, startedAt := r.startedAt, completedAt := r.completedAt)
    ensures t.startedAt.Some? ==> r.startedAt == t.startedAt
    ensures r.startedAt != t.startedAt ==>
              t.startedAt.None? && s in {Planning, InProgress} && r.startedAt == Some(now)
    ensures s in {Planning, InProgress} ==> r.startedAt.Some?
    ensures s in {Done, Cancelled} ==> r.completedAt == Some(now)
    ensures s !in {Done, Cancelled} ==> r.completedAt == t.completedAt
  {
    var t' := t.(status := s);
    match s
    case Planning | InProgress =>
      if t'.startedAt.None? then t'.(startedAt := Some(now)) else t'
    case Done | Cancelled =>
      t'.(completedAt := Some(now))
    case _ => t'
  }

  /** A run of `set_status` calls, each with its own clock reading. */
  function SetStatuses(t: Task, steps: seq<(TaskStatus, Timestamp)>): Task
    decreases |steps|
  {
    if steps == [] then t else SetStatuses(SetStatus(t, steps[0].0, steps[0].1), steps[1..])
  }

  /** Once set, `startedAt` survives every later status change. */
  lemma {:induction false} StartedAtSetOnce(t: Task, steps: seq<(TaskStatus, Timestamp)>)
    requires t.startedAt.Some?
    ensures SetStatuses(t, steps).startedAt == t.startedAt
    decreases |steps|
  {
    if steps != [] {
      StartedAtSetOnce(SetStatus(t, steps[0].0, steps[0].1), steps[1..]);
    }
  }

  /** A run of status changes touches only the status and the two
      timestamps, and ends in the last status requested. */
  lemma {:induction false} SetStatusesFrame(t: Task, steps: seq<(TaskStatus, Timestamp)>)
    requires steps != []
    ensures var r := SetStatuses(t, steps);
      r.status == steps[|steps| - 1].0 &&
      r == t.(status := r.status, startedAt := r.startedAt, completedAt := r.completedAt)
    decreases |steps|
  {
    if |steps| > 1 {
      SetStatusesFrame(SetStatus(t, steps[0].0, steps[0].1), steps[1..]);
    }
  }

  /** `Task::assign_planner`. */
  function AssignPlanner(t: Task, planner: string): (r: Task)
    ensures r.planner == Some(planner)
    ensures r == t.(planner := r.planner)
  {
    t.(planner := Some(planner))
  }

  /** `Task::assign_executor`: the executor is also recorded as `agent`
      (kept for backward compatibility), and the branch is set. */
  function AssignExecutor(t: Task, executor: string, branch: string): (r: Task)
    ensures r.executor == Some(executor) && r.agent == r.executor
    ensures r.branch == Some(branch)
    ensures r == t.(executor := r.executor, agent := r.agent, branch := r.branch)
  {
    t.(executor := Some(executor), agent := Some(executor), branch := Some(branch))
  }

  /** `Task::is_plan_approved`: the plan has been produced and the task
      stands at PlanReview or later on the pipeline. */
  function IsPlanApproved(t: Task): (r: bool)
    ensures r <==> t.status != Cancelled && Stage(t.status) >= Stage(PlanReview)
  {
    t.status in {PlanReview, InProgress, Review, Done}
  }

  /** `Task::can_advance`: the next stage, provided the agent that stage
      needs is assigned. */
  function CanAdvance(t: Task): (r: Result<TaskStatus>)
    ensures r.Ok? ==> t.status != Cancelled && r.value != Cancelled
                      && Stage(r.value) == Stage(t.status) + 1
    ensures r.Err? <==> t.status in {Done, Cancelled}
                        || (t.status == Todo && t.planner.None?)
                        || (t.status == PlanReview && t.executor.None?)
    ensures r.Err? && t.status == Todo ==> r.error == "Please assign a planner first"
    ensures r.Err? && t.status == PlanReview ==> r.error == "Please assign an executor first"
    ensures r.Err? && t.status in {Done, Cancelled} ==> r.error == "Cannot advance further"
  {
    match t.status
    case Todo =>
      if t.planner.None? then Err("Please assign a planner first") else Ok(Planning)
    case Planning => Ok(PlanReview)
    case PlanReview =>
      if t.executor.None? then Err("Please assign an executor first") else Ok(InProgress)
    case InProgress => Ok(Review)
    case Review => Ok(Done)
    case Done | Cancelled => Err("Cannot advance further")
  }

  /** `Task::retreat_target`: one stage back, except that InProgress goes
      back to Planning (the plan is revised), and Todo and Cancelled have
      nowhere to go. */
  function RetreatTarget(t: Task): (r: Option<TaskStatus>)
    ensures r.None? <==> t.status in {Todo, Cancelled}
    ensures r.Some? ==> t.status != Cancelled && r.value != Cancelled
                        && Stage(r.value) < Stage(t.status)
    ensures r.Some? && t.status != InProgress ==> Stage(r.value) + 1 == Stage(t.status)
    ensures t.status == InProgress ==> r == Some(Planning)
  {
    match t.status
    case Todo | Cancelled => None
    case Planning => Some(Todo)
    case PlanReview => Some(Planning)
    case InProgress => Some(Planning)
    case Review => Some(InProgress)
    case Done => Some(Review)
  }

  /** Advancing undoes retreating, for a task whose planner and executor
      are assigned, everywhere except at InProgress, whose retreat skips
      PlanReview. */
  lemma AdvanceUndoesRetreat(t: Task)
    requires t.planner.Some? && t.executor.Some?
    requires RetreatTarget(t).Some? && t.status != InProgress
    ensures CanAdvance(t.(status := RetreatTarget(t).value)) == Ok(t.status)
  {
  }
}
