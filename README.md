# Hive task board — a verified model

Hive is a terminal kanban board that hands tasks to AI coding agents.
This project models its core in Dafny:

- the task record and its status machine: Todo → Planning → PlanReview → InProgress → Review → Done, with Cancelled off the path;
- the task list persisted in `.hive/tasks.json`;
- the board's cursor and its text-entry modes;
- the checks run against the git repository, and the parser for `git worktree list --porcelain`;
- the per-task git worktrees on branches `hive/<task id>`;
- the registry of agent processes;
- the planner and executor tables and the plan files with their prompts.

Everything outside the program's own logic becomes an input of the operation that needs it:

- what git does (`GitRun`: it ran and succeeded or failed with some standard error, or it could not be started);
- whether a file write succeeds (`writeOk`);
- what a child process reports when polled (`TryWait`);
- the clock (`now`);
- the random group of a new task id (`idSuffix`).

State the source changes in place is state in the model:

- `TaskStore.file`, the tasks file;
- `WorktreeManager.present`, the worktree paths on disk, and `WorktreeManager.issued`, every git command run;
- `AgentRunner.agents` and `AgentRunner.launched`;
- the fields of `App`, with the four column cursors in an `array<nat>`.

The files are:

| file | contents |
|---|---|
| `wrappers.dfy` | `Option`, `Result` and `Outcome` |
| `text.dfy` | the Rust standard-library string behaviour the source relies on: `strip_prefix`, `contains`, `PathBuf::join`, `str::lines`, `str::trim`, and `i32` formatting and parsing |
| `task.dfy` | `TaskStatus` and `Task` |
| `store.dfy` | `TaskStore` |
| `validator.dfy` | `ValidationResult`, `list_worktrees` and the `validate_*` decisions |
| `worktree.dfy` | `WorktreeManager` |
| `runner.dfy` | `AgentConfig` and `AgentRunner` |
| `orchestrator.dfy` | `OrchestratorConfig` and `PlanManager` |
| `board.dfy` | `App` in `main.rs` |

## Model

| member | source | states |
|---|---|---|
| Tasks.ColumnIndex | src/task/task.rs:39-47 | Gives each column exactly its statuses. Column 0 is Todo; column 1 is Planning, PlanReview and InProgress; column 2 is Review; column 3 is Done. Cancelled, and only Cancelled, has no column. |
| Tasks.ColumnFollowsStage | src/task/task.rs:39-47 | A later stage of the pipeline is never in a column left of an earlier stage. |
| Tasks.NewTask | src/task/task.rs:96-113 | A new task is Todo. Its id is "task-" followed by the fresh id group. It keeps the title and description and is created now. Planner, executor, agent, branch, worktree, both timestamps and the log are all None. |
| Tasks.NewTaskIdsDistinct | src/task/task.rs:97 | Distinct fresh id groups give distinct task ids. |
| Tasks.SetStatus | src/task/task.rs:116-129 | The status becomes the one requested, and nothing changes except the status and the two timestamps. `started_at` changes only from None to now, on entering Planning or InProgress. Done and Cancelled always stamp `completed_at` with now. Other statuses leave `completed_at` alone. |
| Tasks.StartedAtSetOnce | src/task/task.rs:119-123 | Once `started_at` is set, no sequence of later status changes alters it. |
| Tasks.SetStatusesFrame | src/task/task.rs:116-129 | A sequence of status changes ends in the last status requested and touches only the status and the timestamps. |
| Tasks.AssignPlanner | src/task/task.rs:132-135 | Only `planner` changes, and it becomes the given name. |
| Tasks.AssignExecutor | src/task/task.rs:137-148 | `executor` and `agent` both become the given name, and `branch` becomes the given branch. Nothing else changes. `assign_agent` delegates to it. |
| Tasks.IsPlanApproved | src/task/task.rs:152-157 | Holds exactly when the status is PlanReview or a later stage of the pipeline. |
| Tasks.CanAdvance | src/task/task.rs:161-187 | On Ok, the result is the next stage. It is Err exactly at Done or Cancelled, at Todo without a planner, and at PlanReview without an executor. Each of these errors has its own message. |
| Tasks.RetreatTarget | src/task/task.rs:190-200 | None exactly at Todo and Cancelled. InProgress goes back to Planning. Every other status goes back exactly one stage. |
| Tasks.AdvanceUndoesRetreat | src/task/task.rs:161-200 | With planner and executor assigned, advancing from the retreat target returns to the original status. The one exception is InProgress. |
| Store.WithStatusConcat | src/task/store.rs:88-91 | The status filter distributes over concatenation, so it keeps stored order. |
| Store.WithStatusSingle | src/task/store.rs:88-91 | One task is kept exactly when it has the status; with `Store.WithStatusConcat` this fixes the filter on every list. |
| Store.WithStatusCount | src/task/store.rs:88-91 | The filtered list has one entry per position holding a task with the status. |
| Store.StatusCountsOfThree | src/task/store.rs:185-203 | Two Todo tasks and one InProgress task give the Todo tasks in order, the InProgress task alone, and no Done task. |
| Store.WithoutIdConcat | src/task/store.rs:73-77 | Removal by id distributes over concatenation, so the remaining tasks keep their order. |
| Store.WithoutAbsentId | src/task/store.rs:73-77 | Deleting an id no task carries leaves the list unchanged. |
| Store.FirstWithId | src/task/store.rs:63-70 | Gives the first position whose id matches. None means no task has the id. |
| Store.FindById | src/task/store.rs:81-84 | Some exactly when some task has the id, and then the task at a position before which no task has that id, i.e. the first one. |
| Store.ReplaceFirst | src/task/store.rs:63-70 | Only the first task with the id is replaced, and the length is kept. With no such task the list is unchanged. |
| Store.FindAfterReplace | src/task/store.rs:63-84 | After an update, looking up the id finds the new version. |
| Store.FindAfterRemove | src/task/store.rs:73-84 | After a delete, looking up the id finds nothing. |
| Store.FindAfterAppend | src/task/store.rs:55-84 | A task added under an id that was absent is found by that id. |
| Store.NthWithStatus | src/main.rs:109-113 | The position of the n-th task with a status. It exists exactly when more than n tasks have that status, and that task is the n-th element of the filtered list. |
| Store.FindPosition | src/task/store.rs:65 | The search loop finds the first position whose id matches. |
| Store.Retain | src/task/store.rs:75 | The loop keeps exactly the tasks with another id, in order. |
| Store.TaskStore.Load | src/task/store.rs:36-45 | A missing file gives the empty list and a stored list gives that list. Read and parse failures, and only those, are errors. |
| Store.TaskStore.Save | src/task/store.rs:48-52 | Succeeds exactly when the write does, and then the file holds the list. A failed write leaves the file as it was. |
| Store.TaskStore.Add | src/task/store.rs:55-59 | A load error is returned unchanged. Otherwise the saved list is the old list with the task appended. |
| Store.TaskStore.Update | src/task/store.rs:63-70 | Replaces the first task with the same id and saves. With no such task nothing is written and the result is success. |
| Store.TaskStore.Delete | src/task/store.rs:73-77 | Saves the list without any task of that id. This happens, and succeeds, even when nothing matched. |
| Store.TaskStore.Get | src/task/store.rs:81-84 | An error exactly when loading fails. Otherwise the first stored task with the id (`Store.FindById` of the loaded list), present exactly when one exists. |
| Store.TaskStore.GetByStatus | src/task/store.rs:88-91 | An error exactly when loading fails. Otherwise the stored tasks with that status, in stored order and each as often as stored (`Store.WithStatus` of the loaded list). |
| Validator.ValidationResult.Ok | src/git/validator.rs:18-24 | Valid, with no warnings and no errors. |
| Validator.ValidationResult.WithWarning | src/git/validator.rs:26-29 | Appends exactly one warning and leaves validity and the errors unchanged. |
| Validator.ValidationResult.WithError | src/git/validator.rs:31-35 | The result is invalid and has exactly one more error. The warnings are unchanged. |
| Validator.ValidationResult.Merge | src/git/validator.rs:38-43 | Valid exactly when both are valid. The warnings and the errors are each concatenated, this result's first. |
| Validator.MergeUnit | src/git/validator.rs:18-43 | `ok()` is a unit of `merge` on both sides. |
| Validator.MergeAssociative | src/git/validator.rs:38-43 | `merge` is associative. |
| Validator.BuiltConsistent | src/git/validator.rs:17-44 | A result built only from the four builders is valid exactly when it has no errors, and it has one error per `with_error`. |
| Validator.ListWorktrees | src/git/validator.rs:119-155 | The parsing loop computes the scan of `str::lines` of git's output. A failure to run git is passed through. |
| Validator.ParsedPaths | src/git/validator.rs:127-154 | The output has one entry per "worktree " line, in input order. |
| Validator.EntryBranch | src/git/validator.rs:131-154 | An entry's branch comes from the last "branch refs/heads/" line after its "worktree " line, or is None if there is none. Branch lines before the very first entry carry over to that entry. |
| Validator.HasChanges | src/git/validator.rs:67-77 | An error exactly when git could not be run, carrying that error's message. |
| Validator.HasChangesExactly | src/git/validator.rs:67-77 | When git ran, the answer is true exactly when `git status --porcelain` printed a character that is not white space. |
| Validator.HasStagedChanges | src/git/validator.rs:79-90 | True exactly when `git diff --cached --quiet` exited unsuccessfully. |
| Validator.HasNewCommits | src/git/validator.rs:231-245 | True exactly when the trimmed count parses as an `i32` greater than zero, so an unreadable count means no new commits. |
| Validator.CountLineHasNewCommits | src/git/validator.rs:236-244 | A positive count as git prints it, with its newline, reads back as new commits. |
| Validator.ValidateForWorktreeCreation | src/git/validator.rs:158-181 | Outside a repository the result is one "Not a git repository" error, and git is asked nothing else. Inside a repository it is valid, with a warning for uncommitted changes and then one for staged changes. A git failure is propagated. |
| Validator.ValidateForTaskStart | src/git/validator.rs:184-197 | Inside a repository a failed status or staged-changes query returns that error. Then a failed branch query returns its error. Otherwise the result is Ok, valid exactly inside a repository, with the creation warnings followed by one warning naming `prefix/task` exactly when that branch exists. |
| Validator.ValidateImplementation | src/git/validator.rs:260-278 | An error exactly when there are neither new commits nor uncommitted changes. A warning exactly when there are uncommitted changes. |
| Worktrees.AddWorktree | src/git/worktree.rs:39-67 | Adding succeeds exactly when the new-branch attempt succeeds, or when it fails with "already exists" and the existing-branch attempt succeeds. Otherwise the error carries git's message. |
| Worktrees.AddCommands | src/git/worktree.rs:39-56 | The new-branch add always runs. The existing-branch add runs exactly on an "already exists" failure. |
| Worktrees.FallbackOnExistingBranch | src/git/worktree.rs:46-63 | Whenever git's message contains "already exists", the outcome is that of the existing-branch attempt. |
| Worktrees.WorktreeManager.constructor | src/git/worktree.rs:17-26 | Worktrees live in "<hive>/worktrees", on branch prefix "hive". The directory is created unless that fails. |
| Worktrees.WorktreeManager.BranchName | src/git/worktree.rs:113-115 | The name is "hive/" followed by the task id. |
| Worktrees.WorktreeManager.BranchNamesDistinct | src/git/worktree.rs:113-115 | Distinct task ids give distinct branches. |
| Worktrees.WorktreeManager.PathFor | src/git/worktree.rs:103-105 | The path lies under the worktree directory (for a relative id) and ends with the id. |
| Worktrees.WorktreeManager.PathsDistinct | src/git/worktree.rs:103-110 | Distinct relative task ids give distinct worktree paths. |
| Worktrees.WorktreeManager.Create | src/git/worktree.rs:29-73 | An existing path is returned, and no git command runs. Otherwise the add commands run. A failure leaves the disk as it was. On success the path exists, even when writing the settings then fails. Any Ok result is `get_path(id)`. |
| Worktrees.WorktreeManager.RunAdd | src/git/worktree.rs:38-67 | Exactly the add commands are issued, and the result is `AddWorktree`. |
| Worktrees.WorktreeManager.Remove | src/git/worktree.rs:76-99 | A missing path is a successful no-op with no git command. Otherwise `git worktree remove --force` runs. Success removes the path, and a failure reports git's message. |
| Worktrees.WorktreeManager.Merge | src/git/worktree.rs:151-170 | Always merges `hive/<id>` with a merge commit "Merge <id> via Hive", whatever the target branch. It fails when git fails. |
| Worktrees.WorktreeManager.GetDiff | src/git/worktree.rs:138-148 | Runs `git diff <base>` inside the worktree and returns what it printed, whether git succeeded or not. |
| Runner.FromName | src/agent/runner.rs:47-54 | Some exactly for the three available agents, and then the name and the command are the argument. |
| Runner.AvailableAgents | src/agent/runner.rs:58-60 | Three distinct names. |
| Runner.AfterProbe | src/agent/runner.rs:236-255 | Only a Running agent that owns its child is updated. A successful exit gives Completed, and any other exit gives Failed("Exit code: …"). A wait error gives Failed with its message. Whenever the status changes the child is dropped, and "still running" changes nothing. |
| Runner.ProbeSettles | src/agent/runner.rs:236-255 | A probe changes a status only from Running to Completed or Failed. |
| Runner.SettledIsFinal | src/agent/runner.rs:211-237 | No sequence of completion checks changes a Completed or Failed agent. |
| Runner.RunningIds | src/agent/runner.rs:200-205 | The ids of exactly the Running agents. |
| Runner.CountRunningUpdate | src/agent/runner.rs:200-205 | Replacing one entry changes `running_count` by that entry's before and after contributions. |
| Runner.ProbeAll | src/agent/runner.rs:209-231 | A round of checks keeps the set of task ids. |
| Runner.ProbeAllRunning | src/agent/runner.rs:209-231 | A round of checks never starts an agent, so the Running count does not grow. |
| Runner.AgentRunner.constructor | src/agent/runner.rs:92-100 | An empty registry that logs to "<hive>/logs". |
| Runner.AgentRunner.GetStatus | src/agent/runner.rs:195-197 | The agent's status, present exactly for a registered task. |
| Runner.AgentRunner.Start | src/agent/runner.rs:103-180 | Runs the command with the prompt appended as the last argument. On spawn it replaces the task's entry with a Running agent that owns the child, and the count grows unless that task was already Running. A failed spawn is reported and nothing is registered. |
| Runner.AgentRunner.Stop | src/agent/runner.rs:183-191 | An unknown task or an agent without a child is left alone, with Ok. Otherwise the child is taken and killed, giving Failed("Stopped by user"). A failed kill is reported with the status unchanged. |
| Runner.AgentRunner.CheckTaskCompletion | src/agent/runner.rs:234-258 | None for an unknown task. Otherwise the agent after one probe, and its new status. |
| Runner.ProbeEach | src/agent/runner.rs:210-230 | The loop probes every entry exactly once, so its result is `ProbeAll` of the registry it started from. |
| Runner.AgentRunner.CheckCompletion | src/agent/runner.rs:209-231 | The registry becomes `ProbeAll` of the old one, nothing is launched, and the Running count does not grow. |
| Orchestrator.DefaultConfig | src/agent/orchestrator.rs:40-75 | Planners are exactly gemini and codex, and the executors exactly claude. The defaults are gemini and claude. |
| Orchestrator.DefaultsAgreeWithRunner | src/agent/orchestrator.rs:40-75 | Every default agent runs the same command and arguments as the runner's configuration of that name. |
| Orchestrator.LoadConfig | src/agent/orchestrator.rs:80-95 | Gives the defaults when there is no file or no "orchestrator" section, and otherwise that section. An error exactly when the file cannot be read or parsed, or the section does not fit. |
| Orchestrator.GetPlanner | src/agent/orchestrator.rs:109-111 | The stored spec for a known name and None otherwise. |
| Orchestrator.GetExecutor | src/agent/orchestrator.rs:115-117 | The stored spec for a known name and None otherwise. |
| Orchestrator.AvailablePlanners | src/agent/orchestrator.rs:98-100 | Exactly the names `get_planner` knows, each once. |
| Orchestrator.AvailableExecutors | src/agent/orchestrator.rs:103-105 | Exactly the names `get_executor` knows, each once. |
| Orchestrator.PlanManager.PlanPath | src/agent/orchestrator.rs:133-135 | The path ends with "<id>.md" and lies in the plans directory unless the id is absolute. |
| Orchestrator.PlanManager.PlanPathsDistinct | src/agent/orchestrator.rs:133-135 | Distinct relative ids give distinct plan files. |
| Orchestrator.PlanManager.LoadPlan | src/agent/orchestrator.rs:143-147 | The plan file's contents, or "Failed to read plan: <path>" exactly when the file is absent. |
| Orchestrator.PlanManager.SavePlan | src/agent/orchestrator.rs:151-155 | Succeeds exactly when the write does, adding the plan file. A failure names the path. |
| Orchestrator.LoadAfterSave | src/agent/orchestrator.rs:143-155 | A saved plan loads back as written, and other tasks' plans are untouched. |
| Orchestrator.PlanningPrompt | src/agent/orchestrator.rs:158-197 | The title and the description appear verbatim at fixed places after the fixed heading. |
| Orchestrator.PlanningPromptQuotes | src/agent/orchestrator.rs:158-197 | The planning prompt contains both the title and the description. |
| Orchestrator.ExecutionPlan | src/agent/orchestrator.rs:200-213 | A plan read back from a prompt is one whose execution prompt is exactly that prompt. |
| Orchestrator.ExecutionPlanRoundTrip | src/agent/orchestrator.rs:200-213 | An execution prompt contains its plan verbatim, and exactly that plan. |
| Orchestrator.PlanManager.ExecutionPromptFor | src/agent/orchestrator.rs:200-213 | Fails with the read error exactly when there is no plan. Otherwise it is a prompt whose quoted plan is the stored plan. |
| Board.ColumnStatus | src/main.rs:84-90 | Columns 0 to 3 show Todo, InProgress, Review and Done, each consistent with `to_column_index`. Higher columns show nothing. |
| Board.TasksInColumn | src/main.rs:83-92 | The tasks with the column's status, in list order and multiplicity (`Store.WithStatus`), and empty past column 3. |
| Board.ColumnMembership | src/main.rs:83-92 | A task is shown in a column exactly when its status is one of the four board statuses and `to_column_index` files it there. |
| Board.PlanningTasksHidden | src/main.rs:83-92 | Planning and PlanReview tasks belong to column 1 by `to_column_index`, yet appear in no column. |
| Board.BoardForward | src/main.rs:207-222 | Defined exactly at Todo, InProgress and Review, moving one column right. |
| Board.BoardBackward | src/main.rs:225-240 | Defined exactly at InProgress, Review and Done, moving one column left. |
| Board.BoardMovesInverse | src/main.rs:207-240 | A forward move and a backward move undo each other. |
| Board.Clamp | src/main.rs:146-154 | 0 for an empty column, below the count otherwise, unchanged when already in range, and never larger. |
| Board.SelectedIndex | src/main.rs:101-114 | The cursor's task is the n-th of the column, and it has the column's status. |
| Board.SelectedStatusIsShown | src/main.rs:207-240 | The selected task's status is one of the four board statuses, so the missing Planning and PlanReview arms are never reached. |
| Board.Assigned | src/main.rs:189-194 | Records agent, branch and worktree. The task goes InProgress, started now unless it had already started. The executor, planner, creation time, completion time and log are not touched. |
| Board.App.Init | src/main.rs:67-79 | Column 0, all cursors 0, Normal mode, empty buffers, first agent. |
| Board.App.New | src/main.rs:61-80 | A load failure is returned. Otherwise the board holds the loaded tasks. |
| Board.App.SelectedTask | src/main.rs:95-98 | The task under the cursor, which is the one `selected_task_mut` reaches. |
| Board.App.ClampSelection | src/main.rs:146-154 | Clamps only the current column's cursor, after which it is on a task exactly when the column is non-empty. |
| Board.App.MoveLeft | src/main.rs:116-121 | At column 0 nothing changes. Otherwise one column left, with that column's cursor clamped. |
| Board.App.MoveRight | src/main.rs:123-128 | At column 3 nothing changes. Otherwise one column right, with that column's cursor clamped. |
| Board.App.MoveUp | src/main.rs:130-135 | The cursor goes up one and never below 0. |
| Board.App.MoveDown | src/main.rs:137-143 | The cursor goes down one, never past the column's last task. |
| Board.App.MoveSelectedTask | src/main.rs:207-240 | The common step of both moves: with no selection, or no target status, nothing changes. Otherwise the selected task takes the target status and the list is saved, and the cursor is clamped only after a successful save. |
| Board.App.MoveTaskForward | src/main.rs:207-222 | With no selection, or at Done, nothing changes. Otherwise the selected task takes the forward status and the list is saved; after a successful save the current cursor is clamped, after a failed one it is unchanged. Other cursors and the input fields never change. |
| Board.App.MoveTaskBackward | src/main.rs:225-240 | With no selection, or at Todo, nothing changes. Otherwise the selected task takes the backward status and the list is saved; after a successful save the current cursor is clamped, after a failed one it is unchanged. Other cursors and the input fields never change. |
| Board.App.DeleteTask | src/main.rs:243-256 | Exactly the tasks with the selected id are removed, and the list is saved. A task without a worktree leaves the worktrees alone. After a successful save the current cursor is clamped, after a failed one (or with no selection) every cursor is unchanged. |
| Board.App.HandleInput | src/main.rs:259-261 | Appends the character to the buffer. |
| Board.App.HandleBackspace | src/main.rs:264-266 | Removes the buffer's last character, if any. |
| Board.App.StartNewTask | src/main.rs:157-161 | Title entry, with an empty buffer. |
| Board.App.StartAssignAgent | src/main.rs:164-172 | Opens agent selection on the first agent, only while a task is selected. |
| Board.App.CancelInput | src/main.rs:297-302 | Normal mode, with both buffers empty. |
| Board.App.AgentUp | src/main.rs:305-309 | Moves the agent choice up, never below 0. |
| Board.App.AgentDown | src/main.rs:312-316 | Moves the agent choice down, never past the last agent. |
| Board.App.AssignAgent | src/main.rs:175-204 | With no selection it fails with "No task selected" and changes nothing. Otherwise it succeeds exactly when the worktree already existed or was added with its settings written, and the save then succeeds. A failed `create` leaves the list as it was. A failed save leaves the task assigned in memory, with the file unchanged. On success the worktree exists, the selected task is assigned, the list is saved and the mode returns to Normal. |
| Board.App.RecordAssignment | src/main.rs:188-198 | The task under the cursor takes the assignment and the list is saved. It succeeds exactly when the write does, and only then does the mode return to Normal. |
| Board.App.ConfirmInput | src/main.rs:269-294 | A non-empty title moves to description entry, and an empty one changes nothing. A description appends exactly one new Todo task and, once saved, returns to Normal with both buffers empty. Agent selection assigns. Normal mode changes nothing. Outside agent selection the worktrees are untouched. |
| Text.StripPrefix | src/git/validator.rs:132-141 | Some exactly when the prefix is there, and then the prefix followed by the rest is the input. |
| Text.ContainsInfix | src/git/worktree.rs:49 | A string contains every string placed inside it. |
| Text.JoinPathInjective | src/git/worktree.rs:103-105 | Within one directory, distinct relative names give distinct paths. |
| Text.LinesUnlines | src/git/validator.rs:131 | `str::lines` recovers the lines of text in which each line is ended by a line break, for lines that hold no line break and do not end in a carriage return. |
| Text.ParseI32IntToString | src/git/validator.rs:236-241 | An `i32` printed in decimal parses back to itself. |

## Source behaviour modelled as written

These points follow the code, not what the names or the design suggest.
Each is stated in the model.

- **Board columns.** `tasks_in_column` (src/main.rs:84-90) shows only InProgress in column 1, while `to_column_index` (src/task/task.rs:42) also puts Planning and PlanReview there. The board therefore never shows tasks in those statuses (`Board.PlanningTasksHidden`).
- **Moves.** The matches of `move_task_forward` and `move_task_backward` (src/main.rs:208-214, 226-232) have no arm for Planning or PlanReview and no wildcard. Rust rejects such a non-exhaustive match (error E0004), so `main.rs` as written does not compile. Treating those statuses as no move (`Board.BoardForward`, `Board.BoardBackward`) is this model's reading of that code, not observed behaviour. `Board.SelectedStatusIsShown` proves that the selected task never has them, because of the column filter above, so the reading never matters on the board.
- **`assign_agent` in `main.rs`.** It sets `agent` but not `executor`, so `can_advance` at PlanReview still reports a missing executor. It also moves the task to InProgress without clamping the cursor of the column the task left.
- **`stop` with a failed kill.** The child has already been taken (src/agent/runner.rs:185-186), so the agent stays Running with no child, and later completion checks skip it.
- **`start` on a task already Running.** The new entry replaces the old one (src/agent/runner.rs:177). The old child is dropped without being killed, so it keeps running unsupervised. `Runner.AgentRunner.Start` replaces the entry and keeps the Running count as it was.
- **`merge`.** It ignores its target branch and merges into whatever is checked out in the main repository.
- **`get_diff`.** It returns git's standard output even when git failed.
- **`delete`.** It saves the list even when no task matched.
- **`update`.** When no task matches it writes nothing and reports success.

## Left out

- The terminal UI (src/main.rs:319-551): the event loop, key dispatch, rendering, layout and the status-bar message. These are drawing and key reading, not state logic.
- Process supervision in `start`: the tokio stdout and stderr readers, the mpsc channel and the per-task log files. These are concurrency and OS I/O. A spawn and its arguments are recorded in `launched`, and the receiver is not returned.
- Killing a child and polling it are not modelled. Their results are the inputs `killOk` and `TryWait`.
- The git subprocesses themselves are not modelled. `is_git_repo`, `branch_exists`, `git status`, `git diff --cached --quiet` and `git rev-list --count` become the inputs of the `validate_*` members, and the worktree commands become `GitRun` inputs.
- `current_branch` and `changed_file_count` (src/git/validator.rs:92-105, 247-258) are left out. They are git queries the modelled logic does not use.
- JSON and serde: tasks.json, config.json and `.claude/settings.json` are assumed to round-trip losslessly. `setup_claude_settings` (src/git/worktree.rs:118-135) appears only through its outcome.
- `TaskStore::new` creating `.hive` and its subdirectories is not modelled. `PlanManager::new` creating the plans directory is not modelled either. The worktree directory is modelled, because `exists` depends on it.
- `Utc::now` is the parameter `now`, and the first group of `Uuid::new_v4` is the parameter `idSuffix`.
- `display_name`, `icon` and the `AgentRole` enum are left out. They are display tables with no behaviour.
- src/agent/mod.rs contains only re-exports.
- `Task` is a value that is cloned into and out of the task list. Its `&mut self` methods are therefore functions from the old record to the new one, and `App` replaces the task in its `seq<Task>`.
- Paths are Unix paths. Windows prefixes and the lossy UTF-8 conversion of git output are not modelled.
- HashMap iteration order is unspecified in the source, and so is the order of `Orchestrator.AvailablePlanners`, `Orchestrator.AvailableExecutors` and `Runner.AgentRunner.CheckCompletion`.
- Board.App.AssignAgent: on failure it does not state which error is returned or what `create` left on disk.
- Board.App.ConfirmInput: in agent selection it states only the mode and file outcome of `assign_agent`. The full effect is in `Board.App.AssignAgent`.
- Board.App.DeleteTask: when the task has a worktree, it does not state what `remove` did. The source ignores that result.
- Orchestrator.PlanManager.SavePlan: its contract gives the new key set. The stored content is stated by `Orchestrator.LoadAfterSave`.
