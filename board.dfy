/** The kanban board of src/main.rs: the `App` state behind the terminal
    UI, its four columns, the cursor, the text-entry modes and the key
    actions that change tasks.

    The board shows four columns, one status each: Todo, InProgress,
    Review and Done. That is narrower than `TaskStatus::to_column_index`,
    which also files Planning and PlanReview under the second column; the
    board's own filter is modelled, so such tasks appear in no column.
    The board's move actions also follow their own four-step path, not
    `can_advance` / `retreat_target`.

    The clock, the random part of new ids, the outcome of writing
    tasks.json and what git does are inputs of the actions that need
    them. The status-bar message is not modelled. */
module Board {
  import opened Wrappers
  import opened Tasks
  import Store
  import Worktrees
  import Runner

  datatype InputMode = Normal | NewTaskTitle | NewTaskDescription | SelectAgent

  /** The status shown in a board column; columns past the fourth show
      nothing. */
  function ColumnStatus(column: nat): (r: Option<TaskStatus>)
    ensures r.Some? <==> column < 4
    ensures r.Some? ==> ColumnIndex(r.value) == Some(column)
    ensures r.Some? ==> r.value in {Todo, InProgress, Review, Done}
  {
    if column == 0 then Some(Todo)
    else if column == 1 then Some(InProgress)
    else if column == 2 then Some(Review)
    else if column == 3 then Some(Done)
    else None
  }

  /** `App::tasks_in_column`: the tasks with the column's status, in list
      order. */
  function TasksInColumn(tasks: seq<Task>, column: nat): (r: seq<Task>)
    ensures column >= 4 ==> r == []
    ensures column < 4 ==> forall k :: 0 <= k < |r| ==> r[k].status == ColumnStatus(column).value
    ensures column < 4 ==> forall t :: t in tasks && t.status == ColumnStatus(column).value ==> t in r
    ensures forall t :: t in r ==> t in tasks
    ensures column < 4 ==> r == Store.WithStatus(tasks, ColumnStatus(column).value)
  {
    match ColumnStatus(column)
    case Some(s) => Store.WithStatus(tasks, s)
    case None => []
  }

  /** A task appears in a column exactly when its status is one of the
      four board statuses and `to_column_index` files it under that
      column. */
  lemma ColumnMembership(tasks: seq<Task>, t: Task, column: nat)
    requires t in tasks
    ensures t in TasksInColumn(tasks, column) <==>
              t.status in {Todo, InProgress, Review, Done} && ColumnIndex(t.status) == Some(column)
  {
    var r := TasksInColumn(tasks, column);
    if t in r {
      var k :| 0 <= k < |r| && r[k] == t;
    }
  }

  /** Planning and PlanReview tasks belong to the second column by
      `to_column_index`, yet the board shows them in no column. */
  lemma PlanningTasksHidden(tasks: seq<Task>, t: Task, column: nat)
    requires t in tasks && t.status in {Planning, PlanReview}
    ensures ColumnIndex(t.status) == Some(1)
    ensures t !in TasksInColumn(tasks, column)
  {
    ColumnMembership(tasks, t, column);
  }

  /** The status a forward move gives, along Todo → InProgress → Review →
      Done. */
  function BoardForward(s: TaskStatus): (r: Option<TaskStatus>)
    ensures r.Some? <==> s in {Todo, InProgress, Review}
    ensures r.Some? ==> s != Cancelled && r.value != Cancelled
                        && ColumnIndex(r.value).value == ColumnIndex(s).value + 1
                        && ColumnStatus(ColumnIndex(r.value).value) == r
  {
    match s
    case Todo => Some(InProgress)
    case InProgress => Some(Review)
    case Review => Some(Done)
    case _ => None
  }

  /** The status a backward move gives, the same path in reverse. */
  function BoardBackward(s: TaskStatus): (r: Option<TaskStatus>)
    ensures r.Some? <==> s in {InProgress, Review, Done}
    ensures r.Some? ==> s != Cancelled && r.value != Cancelled
                        && ColumnIndex(r.value).value + 1 == ColumnIndex(s).value
                        && ColumnStatus(ColumnIndex(r.value).value) == r
  {
    match s
    case InProgress => Some(Todo)
    case Review => Some(InProgress)
    case Done => Some(Review)
    case _ => None
  }

  /** A backward move undoes a forward move and the other way round. */
  lemma BoardMovesInverse(s: TaskStatus, n: TaskStatus)
    ensures BoardForward(s) == Some(n) <==> BoardBackward(n) == Some(s)
  {
  }

  /** The cursor position `clamp_selection` leaves in a column of
      `count` tasks. */
  function Clamp(i: nat, count: nat): (r: nat)
    ensures count == 0 ==> r == 0
    ensures count > 0 ==> r < count
    ensures i < count ==> r == i
    ensures r <= i
  {
    if count == 0 then 0 else if i >= count then count - 1 else i
  }

  /** The task the cursor is on, as a position in the whole list: the
      n-th task of the column (`selected_task_mut`). */
  function SelectedIndex(tasks: seq<Task>, column: nat, n: nat): (r: Option<nat>)
    ensures r.Some? <==> n < |TasksInColumn(tasks, column)|
    ensures r.Some? ==> r.value < |tasks| && tasks[r.value] == TasksInColumn(tasks, column)[n]
    ensures r.Some? ==> Some(tasks[r.value].status) == ColumnStatus(column)
  {
    match ColumnStatus(column)
    case Some(s) => Store.NthWithStatus(tasks, s, n)
    case None => None
  }

  /** The selected task always has its column's status, so the moves
      never meet the Planning and PlanReview statuses for which
      `move_task_forward` and `move_task_backward` have no case. */
  lemma SelectedStatusIsShown(tasks: seq<Task>, column: nat, n: nat)
    requires SelectedIndex(tasks, column, n).Some?
    ensures var s := tasks[SelectedIndex(tasks, column, n).value].status;
            s in {Todo, InProgress, Review, Done}
            && (BoardForward(s).Some? || s == Done)
            && (BoardBackward(s).Some? || s == Todo)
  {
  }

  /** The selected task after `assign_agent`: the agent, the task's
      branch and its worktree recorded, and the task InProgress (started
      now unless it had started before). The executor field is not set. */
  function Assigned(t: Task, agent: string, branch: string, worktree: string, now: Timestamp): (r: Task)
    ensures r.agent == Some(agent) && r.branch == Some(branch) && r.worktree == Some(worktree)
    ensures r.status == InProgress
    ensures r.startedAt == if t.startedAt.None? then Some(now) else t.startedAt
    ensures r.executor == t.executor && r.planner == t.planner && r.completedAt == t.completedAt
    ensures r.createdAt == t.createdAt && r.outputLog == t.outputLog
    ensures r.id == t.id && r.title == t.title && r.description == t.description
  {
    SetStatus(t.(agent := Some(agent), branch := Some(branch), worktree := Some(worktree)), InProgress, now)
  }

  class App {
    const store: Store.TaskStore
    var tasks: seq<Task>
    var selectedColumn: nat
    /** The cursor row of each of the four columns. */
    const selectedTask: array<nat>
    var inputMode: InputMode
    var inputBuffer: string
    var pendingTitle: string
    const worktrees: Worktrees.WorktreeManager
    const agentList: seq<string>
    var selectedAgent: nat

    ghost predicate Valid()
      reads this, selectedTask
    {
      selectedTask.Length == 4 && selectedColumn < 4
      && agentList == Runner.AvailableAgents() && selectedAgent < |agentList|
    }

    constructor Init(store: Store.TaskStore, tasks: seq<Task>, worktrees: Worktrees.WorktreeManager)
      ensures Valid() && fresh(selectedTask)
      ensures this.store == store && this.tasks == tasks && this.worktrees == worktrees
      ensures selectedColumn == 0 && selectedTask[..] == [0, 0, 0, 0]
      ensures inputMode == Normal && inputBuffer == [] && pendingTitle == [] && selectedAgent == 0
    {
      this.store := store;
      this.tasks := tasks;
      this.worktrees := worktrees;
      selectedColumn := 0;
      selectedTask := new nat[4](_ => 0);
      inputMode := Normal;
      inputBuffer := [];
      pendingTitle := [];
      agentList := Runner.AvailableAgents();
      selectedAgent := 0;
    }

    /** `App::new`: the board over the tasks in the store, with the
        cursor on the first row of the first column; fails when the
        tasks cannot be loaded. */
    static method New(store: Store.TaskStore, worktrees: Worktrees.WorktreeManager)
      returns (r: Result<App>)
      ensures store.Load().Err? ==> r == Err(store.Load().error)
      ensures store.Load().Ok? ==>
                r.Ok? && fresh(r.value) && fresh(r.value.selectedTask) && r.value.Valid()
                && r.value.tasks == store.Load().value && r.value.inputMode == Normal
    {
      var loaded := store.Load();
      if loaded.Err? {
        return Err(loaded.error);
      }
      var app := new App.Init(store, loaded.value, worktrees);
      r := Ok(app);
    }

    /** Where the cursor is in the whole list, if on a task. */
    function Selected(): Option<nat>
      reads this, selectedTask
      requires Valid()
    {
      SelectedIndex(tasks, selectedColumn, selectedTask[selectedColumn])
    }

    /** `App::selected_task`. */
    function SelectedTask(): (r: Option<Task>)
      reads this, selectedTask
      requires Valid()
      ensures r.Some? <==> Selected().Some?
      ensures r.Some? ==> r.value == tasks[Selected().value]
    {
      var column := TasksInColumn(tasks, selectedColumn);
      var i := selectedTask[selectedColumn];
      if i < |column| then Some(column[i]) else None
    }

    /** `App::clamp_selection`: the current column's cursor is put back
        on a task when it has run past the last one. */
    method ClampSelection()
      requires Valid()
      modifies selectedTask
      ensures Valid()
      ensures selectedTask[selectedColumn] ==
                Clamp(old(selectedTask[selectedColumn]), |TasksInColumn(tasks, selectedColumn)|)
      ensures forall k :: 0 <= k < 4 && k != selectedColumn ==> selectedTask[k] == old(selectedTask[k])
      ensures Selected().Some? <==> TasksInColumn(tasks, selectedColumn) != []
    {
      var col := selectedColumn;
      var count := |TasksInColumn(tasks, col)|;
      if count == 0 {
        selectedTask[col] := 0;
      } else if selectedTask[col] >= count {
        selectedTask[col] := count - 1;
      }
    }

    /** `App::move_left`. */
    method MoveLeft()
      requires Valid()
      modifies this, selectedTask
      ensures Valid() && unchanged(this`tasks, this`inputMode, this`inputBuffer, this`pendingTitle, this`selectedAgent)
      ensures old(selectedColumn) == 0 ==> selectedColumn == 0 && selectedTask[..] == old(selectedTask[..])
      ensures old(selectedColumn) > 0 ==>
                selectedColumn == old(selectedColumn) - 1 &&
                selectedTask[selectedColumn] ==
                  Clamp(old(selectedTask[..])[selectedColumn], |TasksInColumn(tasks, selectedColumn)|) &&
                forall k :: 0 <= k < 4 && k != selectedColumn ==> selectedTask[k] == old(selectedTask[k])
    {
      if selectedColumn > 0 {
        selectedColumn := selectedColumn - 1;
        ClampSelection();
      }
    }

    /** `App::move_right`. */
    method MoveRight()
      requires Valid()
      modifies this, selectedTask
      ensures Valid() && unchanged(this`tasks, this`inputMode, this`inputBuffer, this`pendingTitle, this`selectedAgent)
      ensures old(selectedColumn) == 3 ==> selectedColumn == 3 && selectedTask[..] == old(selectedTask[..])
      ensures old(selectedColumn) < 3 ==>
                selectedColumn == old(selectedColumn) + 1 &&
                selectedTask[selectedColumn] ==
                  Clamp(old(selectedTask[..])[selectedColumn], |TasksInColumn(tasks, selectedColumn)|) &&
                forall k :: 0 <= k < 4 && k != selectedColumn ==> selectedTask[k] == old(selectedTask[k])
    {
      if selectedColumn < 3 {
        selectedColumn := selectedColumn + 1;
        ClampSelection();
      }
    }

    /** `App::move_up`. */
    method MoveUp()
      requires Valid()
      modifies selectedTask
      ensures Valid()
      ensures var col := selectedColumn;
              selectedTask[col] == (if old(selectedTask[col]) > 0 then old(selectedTask[col]) - 1 else 0)
      ensures forall k :: 0 <= k < 4 && k != selectedColumn ==> selectedTask[k] == old(selectedTask[k])
    {
      var col := selectedColumn;
      if selectedTask[col] > 0 {
        selectedTask[col] := selectedTask[col] - 1;
      }
    }

    /** `App::move_down`: never past the column's last task. */
    method MoveDown()
      requires Valid()
      modifies selectedTask
      ensures Valid()
      ensures var col := selectedColumn;
              var count := |TasksInColumn(tasks, col)|;
              selectedTask[col] == (if old(selectedTask[col]) + 1 < count then old(selectedTask[col]) + 1
                                    else old(selectedTask[col]))
      ensures forall k :: 0 <= k < 4 && k != selectedColumn ==> selectedTask[k] == old(selectedTask[k])
      ensures old(Selected()).Some? ==> Selected().Some?
    {
      var col := selectedColumn;
      var count := |TasksInColumn(tasks, col)|;
      if count > 0 && selectedTask[col] < count - 1 {
        selectedTask[col] := selectedTask[col] + 1;
      }
    }

    /** The common part of `move_task_forward` and `move_task_backward`:
        the selected task takes the status `step` gives, the list is
        saved, and the cursor is clamped; a failed save returns early,
        with the list already changed in memory. */
    method MoveSelectedTask(step: TaskStatus -> Option<TaskStatus>, now: Timestamp, writeOk: bool)
      returns (r: Outcome)
      requires Valid()
      modifies this, selectedTask, store
      ensures Valid() && unchanged(this`inputMode, this`inputBuffer, this`pendingTitle, this`selectedAgent)
      ensures selectedColumn == old(selectedColumn)
      ensures var i := old(Selected());
              i.None? || step(old(tasks)[i.value].status).None? ==>
                r == Pass && tasks == old(tasks) && store.file == old(store.file)
                && selectedTask[..] == old(selectedTask[..])
      ensures var i := old(Selected());
              i.Some? && step(old(tasks)[i.value].status).Some? ==>
                var t := old(tasks)[i.value];
                tasks == old(tasks)[i.value := SetStatus(t, step(t.status).value, now)] &&
                (r.Pass? <==> writeOk) &&
                store.file == (if writeOk then Store.Stored(tasks) else old(store.file)) &&
                (writeOk ==> selectedTask[selectedColumn] ==
                               Clamp(old(selectedTask[selectedColumn]), |TasksInColumn(tasks, selectedColumn)|)) &&
                (!writeOk ==> selectedTask[..] == old(selectedTask[..]))
      ensures forall k :: 0 <= k < 4 && k != selectedColumn ==> selectedTask[k] == old(selectedTask[k])
    {
      var i := Selected();
      if i.None? {
        return Pass;
      }
      var t := tasks[i.value];
      var target := step(t.status);
      if target.None? {
        return Pass;
      }
      tasks := tasks[i.value := SetStatus(t, target.value, now)];
      r := store.Save(tasks, writeOk);
      if r.Fail? {
        return;
      }
      ClampSelection();
    }

    /** `App::move_task_forward`: Todo → InProgress → Review → Done. */
    method MoveTaskForward(now: Timestamp, writeOk: bool) returns (r: Outcome)
      requires Valid()
      modifies this, selectedTask, store
      ensures Valid() && selectedColumn == old(selectedColumn)
      ensures unchanged(this`inputMode, this`inputBuffer, this`pendingTitle, this`selectedAgent)
      ensures var i := old(Selected());
              i.None? || old(tasks)[i.value].status == Done ==>
                r == Pass && tasks == old(tasks) && store.file == old(store.file)
                && selectedTask[..] == old(selectedTask[..])
      ensures var i := old(Selected());
              i.Some? && old(tasks)[i.value].status != Done ==>
                var t := old(tasks)[i.value];
                BoardForward(t.status).Some? &&
                tasks == old(tasks)[i.value := SetStatus(t, BoardForward(t.status).value, now)] &&
                (r.Pass? <==> writeOk) &&
                store.file == (if writeOk then Store.Stored(tasks) else old(store.file)) &&
                (writeOk ==> selectedTask[selectedColumn] ==
                               Clamp(old(selectedTask[selectedColumn]), |TasksInColumn(tasks, selectedColumn)|)) &&
                (!writeOk ==> selectedTask[..] == old(selectedTask[..]))
      ensures forall k :: 0 <= k < 4 && k != selectedColumn ==> selectedTask[k] == old(selectedTask[k])
    {
      ghost var i := Selected();
      if i.Some? {
        SelectedStatusIsShown(tasks, selectedColumn, selectedTask[selectedColumn]);
      }
      r := MoveSelectedTask(BoardForward, now, writeOk);
    }

    /** `App::move_task_backward`: Done → Review → InProgress → Todo. */
    method MoveTaskBackward(now: Timestamp, writeOk: bool) returns (r: Outcome)
      requires Valid()
      modifies this, selectedTask, store
      ensures Valid() && selectedColumn == old(selectedColumn)
      ensures unchanged(this`inputMode, this`inputBuffer, this`pendingTitle, this`selectedAgent)
      ensures var i := old(Selected());
              i.None? || old(tasks)[i.value].status == Todo ==>
                r == Pass && tasks == old(tasks) && store.file == old(store.file)
                && selectedTask[..] == old(selectedTask[..])
      ensures var i := old(Selected());
              i.Some? && old(tasks)[i.value].status != Todo ==>
                var t := old(tasks)[i.value];
                BoardBackward(t.status).Some? &&
                tasks == old(tasks)[i.value := SetStatus(t, BoardBackward(t.status).value, now)] &&
                (r.Pass? <==> writeOk) &&
                store.file == (if writeOk then Store.Stored(tasks) else old(store.file)) &&
                (writeOk ==> selectedTask[selectedColumn] ==
                               Clamp(old(selectedTask[selectedColumn]), |TasksInColumn(tasks, selectedColumn)|)) &&
                (!writeOk ==> selectedTask[..] == old(selectedTask[..]))
      ensures forall k :: 0 <= k < 4 && k != selectedColumn ==> selectedTask[k] == old(selectedTask[k])
    {
      ghost var i := Selected();
      if i.Some? {
        SelectedStatusIsShown(tasks, selectedColumn, selectedTask[selectedColumn]);
      }
      r := MoveSelectedTask(BoardBackward, now, writeOk);
    }

    /** `App::delete_task`: the selected task's worktree is removed if it
        has one (a failure there is ignored), every task with its id is
        dropped, the list is saved and the cursor clamped. */
    method DeleteTask(removeRun: Worktrees.GitRun, writeOk: bool) returns (r: Outcome)
      requires Valid()
      modifies this, selectedTask, store, worktrees
      ensures Valid() && selectedColumn == old(selectedColumn)
      ensures unchanged(this`inputMode, this`inputBuffer, this`pendingTitle, this`selectedAgent)
      ensures old(SelectedTask()).None? ==>
                r == Pass && tasks == old(tasks) && store.file == old(store.file)
                && unchanged(worktrees) && selectedTask[..] == old(selectedTask[..])
      ensures old(SelectedTask()).Some? ==>
                var t := old(SelectedTask()).value;
                tasks == Store.WithoutId(old(tasks), t.id) &&
                (r.Pass? <==> writeOk) &&
                store.file == (if writeOk then Store.Stored(tasks) else old(store.file)) &&
                (t.worktree.None? ==> unchanged(worktrees)) &&
                (writeOk ==> selectedTask[selectedColumn] ==
                               Clamp(old(selectedTask[selectedColumn]), |TasksInColumn(tasks, selectedColumn)|)) &&
                (!writeOk ==> selectedTask[..] == old(selectedTask[..]))
      ensures forall k :: 0 <= k < 4 && k != selectedColumn ==> selectedTask[k] == old(selectedTask[k])
      ensures old(SelectedTask()).Some? ==> Store.FindById(tasks, old(SelectedTask()).value.id).None?
    {
      var selected := SelectedTask();
      if selected.None? {
        return Pass;
      }
      var id := selected.value.id;
      if selected.value.worktree.Some? {
        var _ := RemoveWorktree(id, removeRun);
      }
      tasks := Store.Retain(tasks, id);
      Store.FindAfterRemove(old(tasks), id);
      r := store.Save(tasks, writeOk);
      if r.Fail? {
        return;
      }
      ClampSelection();
    }

    /** The worktree removal of `delete_task`, whose outcome is ignored
        there. */
    method RemoveWorktree(taskId: string, run: Worktrees.GitRun) returns (r: Outcome)
      modifies worktrees
      ensures r.Pass? ==> !worktrees.Exists(taskId)
    {
      r := worktrees.Remove(taskId, run);
    }

    /** `App::handle_input`: one more character typed. */
    method HandleInput(c: char)
      modifies this
      ensures inputBuffer == old(inputBuffer) + [c]
      ensures unchanged(this`tasks, this`selectedColumn, this`inputMode, this`pendingTitle, this`selectedAgent)
    {
      inputBuffer := inputBuffer + [c];
    }

    /** `App::handle_backspace`: the last character, if any, is erased. */
    method HandleBackspace()
      modifies this
      ensures old(inputBuffer) == [] ==> inputBuffer == []
      ensures old(inputBuffer) != [] ==> inputBuffer + [old(inputBuffer)[|old(inputBuffer)| - 1]] == old(inputBuffer)
      ensures unchanged(this`tasks, this`selectedColumn, this`inputMode, this`pendingTitle, this`selectedAgent)
    {
      if inputBuffer != [] {
        inputBuffer := inputBuffer[..|inputBuffer| - 1];
      }
    }

    /** `App::start_new_task`. */
    method StartNewTask()
      modifies this
      ensures inputMode == NewTaskTitle && inputBuffer == []
      ensures unchanged(this`tasks, this`selectedColumn, this`pendingTitle, this`selectedAgent)
    {
      inputMode := NewTaskTitle;
      inputBuffer := [];
    }

    /** `App::start_assign_agent`: agent selection opens, on the first
        agent, only while the cursor is on a task. */
    method StartAssignAgent()
      requires Valid()
      modifies this
      ensures Valid()
      ensures old(SelectedTask()).Some? ==> inputMode == SelectAgent && selectedAgent == 0
      ensures old(SelectedTask()).None? ==> inputMode == old(inputMode) && selectedAgent == old(selectedAgent)
      ensures unchanged(this`tasks, this`selectedColumn, this`inputBuffer, this`pendingTitle)
    {
      if SelectedTask().Some? {
        inputMode := SelectAgent;
        selectedAgent := 0;
      }
    }

    /** `App::cancel_input`. */
    method CancelInput()
      modifies this
      ensures inputMode == Normal && inputBuffer == [] && pendingTitle == []
      ensures unchanged(this`tasks, this`selectedColumn, this`selectedAgent)
    {
      inputMode := Normal;
      inputBuffer := [];
      pendingTitle := [];
    }

    /** `App::agent_up`. */
    method AgentUp()
      requires Valid()
      modifies this
      ensures Valid() && selectedAgent == if old(selectedAgent) > 0 then old(selectedAgent) - 1 else 0
      ensures unchanged(this`tasks, this`selectedColumn, this`inputMode, this`inputBuffer, this`pendingTitle)
    {
      if selectedAgent > 0 {
        selectedAgent := selectedAgent - 1;
      }
    }

    /** `App::agent_down`: never past the last agent. */
    method AgentDown()
      requires Valid()
      modifies this
      ensures Valid()
      ensures selectedAgent == if old(selectedAgent) < |agentList| - 1 then old(selectedAgent) + 1 else old(selectedAgent)
      ensures unchanged(this`tasks, this`selectedColumn, this`inputMode, this`inputBuffer, this`pendingTitle)
    {
      if selectedAgent < |agentList| - 1 {
        selectedAgent := selectedAgent + 1;
      }
    }

    /** The worktree step of `assign_agent`, seen from the board: on
        success, the task's worktree exists and its path is returned. */
    method CreateWorktree(taskId: string, first: Worktrees.GitRun, second: Worktrees.GitRun, settings: Outcome)
      returns (r: Result<string>)
      modifies worktrees
      ensures r.Ok? <==> old(worktrees.Exists(taskId)) ||
                         (Worktrees.AddWorktree(first, second).Pass? && settings.Pass?)
      ensures r.Ok? ==> r.value == worktrees.PathFor(taskId) && worktrees.Exists(taskId)
    {
      r := worktrees.Create(taskId, first, second, settings);
    }

    /** `App::assign_agent`: the selected task gets a worktree (created
        unless it exists) and is recorded as worked on by the chosen
        agent, on the task's branch, and goes InProgress; the list is
        saved and agent selection closes. The cursor is not clamped,
        although the task may leave its column. */
    method AssignAgent(first: Worktrees.GitRun, second: Worktrees.GitRun, settings: Outcome,
                       now: Timestamp, writeOk: bool)
      returns (r: Outcome)
      requires Valid()
      modifies this, store, worktrees
      ensures Valid() && unchanged(this`selectedColumn, this`inputBuffer, this`pendingTitle, this`selectedAgent)
      ensures old(Selected()).None? ==>
                r == Fail("No task selected") && tasks == old(tasks) && inputMode == old(inputMode)
                && unchanged(worktrees) && store.file == old(store.file)
      ensures old(Selected()).Some? ==>
                var i := old(Selected()).value;
                var t := old(tasks)[i];
                var agent := agentList[selectedAgent];
                var created := old(worktrees.Exists(t.id)) ||
                               (Worktrees.AddWorktree(first, second).Pass? && settings.Pass?);
                (r.Pass? <==> created && writeOk) &&
                (!created ==> tasks == old(tasks)) &&
                (created && !writeOk ==>
                   tasks == old(tasks)[i := Assigned(t, agent, worktrees.BranchName(t.id),
                                                     worktrees.PathFor(t.id), now)]) &&
                (r.Pass? ==>
                   worktrees.Exists(t.id) && inputMode == Normal &&
                   tasks == old(tasks)[i := Assigned(t, agent, worktrees.BranchName(t.id),
                                                     worktrees.PathFor(t.id), now)] &&
                   store.file == Store.Stored(tasks)) &&
                (r.Fail? ==> inputMode == old(inputMode) && store.file == old(store.file))
    {
      var agent := agentList[selectedAgent];
      var selected := SelectedTask();
      if selected.None? {
        return Fail("No task selected");
      }
      var id := selected.value.id;
      var created := CreateWorktree(id, first, second, settings);
      if created.Err? {
        return Fail(created.error);
      }
      r := RecordAssignment(agent, worktrees.BranchName(id), created.value, now, writeOk);
    }

    /** The part of `assign_agent` after the worktree exists: the task
        under the cursor takes the assignment, the list is saved and, once
        saved, agent selection closes. */
    method RecordAssignment(agent: string, branch: string, worktree: string, now: Timestamp, writeOk: bool)
      returns (r: Outcome)
      requires Valid()
      modifies this`tasks, this`inputMode, store
      ensures Valid()
      ensures old(Selected()).None? ==> tasks == old(tasks)
      ensures old(Selected()).Some? ==>
                var i := old(Selected()).value;
                tasks == old(tasks)[i := Assigned(old(tasks)[i], agent, branch, worktree, now)]
      ensures r.Pass? <==> writeOk
      ensures store.file == if writeOk then Store.Stored(tasks) else old(store.file)
      ensures inputMode == if writeOk then Normal else old(inputMode)
    {
      UpdateSelected(agent, branch, worktree, now);
      r := store.Save(tasks, writeOk);
      if r.Fail? {
        return;
      }
      inputMode := Normal;
    }

    /** The `selected_task_mut` step of `assign_agent`: the task under
        the cursor takes the assignment. */
    method UpdateSelected(agent: string, branch: string, worktree: string, now: Timestamp)
      requires Valid()
      modifies this`tasks
      ensures Valid()
      ensures old(Selected()).None? ==> tasks == old(tasks)
      ensures old(Selected()).Some? ==>
                var i := old(Selected()).value;
                tasks == old(tasks)[i := Assigned(old(tasks)[i], agent, branch, worktree, now)]
    {
      var i := Selected();
      if i.Some? {
        tasks := tasks[i.value := Assigned(tasks[i.value], agent, branch, worktree, now)];
      }
    }

    /** `App::confirm_input` (Enter), by mode: a non-empty title moves on
        to the description; a description creates the task with the
        pending title and saves; in agent selection the chosen agent is
        assigned; in normal mode nothing happens. */
    method ConfirmInput(idSuffix: string, now: Timestamp, writeOk: bool,
                        first: Worktrees.GitRun, second: Worktrees.GitRun, settings: Outcome)
      returns (r: Outcome)
      requires Valid()
      modifies this, store, worktrees
      ensures Valid() && unchanged(this`selectedColumn, this`selectedAgent)
      ensures old(inputMode) == Normal ==> r == Pass && unchanged(this) && store.file == old(store.file)
      ensures old(inputMode) != SelectAgent ==> unchanged(worktrees)
      ensures old(inputMode) == NewTaskTitle ==>
                r == Pass && tasks == old(tasks) && store.file == old(store.file) &&
                if old(inputBuffer) == [] then
                  inputMode == NewTaskTitle && pendingTitle == old(pendingTitle) && inputBuffer == []
                else
                  inputMode == NewTaskDescription && pendingTitle == old(inputBuffer) && inputBuffer == []
      ensures old(inputMode) == NewTaskDescription ==>
                tasks == old(tasks) + [NewTask(old(pendingTitle), old(inputBuffer), idSuffix, now)] &&
                (r.Pass? <==> writeOk) &&
                store.file == (if writeOk then Store.Stored(tasks) else old(store.file)) &&
                (writeOk ==> inputMode == Normal && inputBuffer == [] && pendingTitle == []) &&
                (!writeOk ==> inputMode == old(inputMode) && inputBuffer == old(inputBuffer)
                              && pendingTitle == old(pendingTitle))
      ensures old(inputMode) == SelectAgent ==>
                (r.Pass? ==> inputMode == Normal && store.file == Store.Stored(tasks)) &&
                (r.Fail? ==> inputMode == SelectAgent && store.file == old(store.file))
    {
      match inputMode {
        case NewTaskTitle =>
          if inputBuffer != [] {
            pendingTitle := inputBuffer;
            inputBuffer := [];
            inputMode := NewTaskDescription;
          }
          r := Pass;
        case NewTaskDescription =>
          var task := NewTask(pendingTitle, inputBuffer, idSuffix, now);
          tasks := tasks + [task];
          r := store.Save(tasks, writeOk);
          if r.Fail? {
            return;
          }
          inputMode := Normal;
          inputBuffer := [];
          pendingTitle := [];
        case SelectAgent =>
          r := AssignAgent(first, second, settings, now, writeOk);
        case Normal =>
          r := Pass;
      }
    }
  }
}
