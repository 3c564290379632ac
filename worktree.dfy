/** The git worktree manager (src/git/worktree.rs): one worktree per task
    under "<hive dir>/worktrees/<task id>", on the branch "hive/<task id>".

    The file system is the set `present` of paths that exist, and every
    git invocation is recorded, in order, in `issued`. What git does is an
    input: each call to git receives a `GitRun` saying whether git could
    be started and, if so, whether it succeeded and what it printed on
    standard error. */
module Worktrees {
  import W = Wrappers
  import Text

  /** The outcome of one `Command::output()` call. */
  datatype GitRun = Finished(success: bool, stderr: string) | SpawnFailed
  {
    predicate Succeeded() { Finished? && success }
    /** git ran and complained that the branch (or path) already exists. */
    predicate FailedOnExisting() { Finished? && !success && Text.Contains(stderr, AlreadyExists) }
  }

  /** The git invocations the manager makes. */
  datatype GitCommand =
    | AddWithNewBranch(branch: string, path: string)   // git worktree add -b <branch> <path>
    | AddExistingBranch(path: string, branch: string)  // git worktree add <path> <branch>
    | RemoveForce(path: string)                        // git worktree remove --force <path>
    | MergeNoFastForward(branch: string, message: string) // git merge <branch> --no-ff -m <message>
    | Diff(worktree: string, baseBranch: string)       // git diff <base>, run inside the worktree

  const AlreadyExists: string := "already exists"

  /** The git part of `create` for a path that does not exist yet: add
      the worktree on a new branch; if git reports that something already
      exists, add it on the existing branch instead. */
  function AddWorktree(first: GitRun, second: GitRun): (r: W.Outcome)
    ensures r.Pass? <==> first.Succeeded() || (first.FailedOnExisting() && second.Succeeded())
    ensures r.Fail? && !first.FailedOnExisting() ==>
              r.error == (if first.SpawnFailed? then "Failed to execute git worktree add"
                          else "Failed to create worktree: " + first.stderr)
  {
    match first
    case SpawnFailed => W.Fail("Failed to execute git worktree add")
    case Finished(true, _) => W.Pass
    case Finished(false, err) =>
      if Text.Contains(err, AlreadyExists) then
        match second
        case SpawnFailed => W.Fail("Failed to execute git worktree add with existing branch")
        case Finished(true, _) => W.Pass
        case Finished(false, err2) => W.Fail("Failed to create worktree: " + err2)
      else W.Fail("Failed to create worktree: " + err)
  }

  /** The commands `create` issues for a path that does not exist yet. */
  function AddCommands(branch: string, path: string, first: GitRun): (r: seq<GitCommand>)
    ensures |r| == 2 <==> first.FailedOnExisting()
    ensures 1 <= |r| <= 2 && r[0] == AddWithNewBranch(branch, path)
    ensures |r| == 2 ==> r[1] == AddExistingBranch(path, branch)
  {
    if first.FailedOnExisting() then [AddWithNewBranch(branch, path), AddExistingBranch(path, branch)]
    else [AddWithNewBranch(branch, path)]
  }

  /** Whenever git's complaint mentions "already exists" (git says "a
      branch named '<b>' already exists"), `create` falls back to the
      existing branch and its outcome is that of the second attempt. */
  lemma FallbackOnExistingBranch(before: string, after: string, second: GitRun)
    ensures var first := Finished(false, before + AlreadyExists + after);
            AddWorktree(first, second) ==
              match second
              case SpawnFailed => W.Fail("Failed to execute git worktree add with existing branch")
              case Finished(true, _) => W.Pass
              case Finished(false, err2) => W.Fail("Failed to create worktree: " + err2)
  {
    Text.ContainsInfix(before, AlreadyExists, after);
  }

  class WorktreeManager {
    const repoRoot: string
    const worktreeDir: string
    const branchPrefix: string
    /** Paths that exist on disk. */
    var present: set<string>
    /** Every git command run so far, oldest first. */
    var issued: seq<GitCommand>

    /** `WorktreeManager::new`: worktrees live in "<hive dir>/worktrees",
        which is created unless that fails (the failure is ignored). */
    constructor (repoRoot: string, hiveDir: string, onDisk: set<string>, mkdirOk: bool)
      ensures this.repoRoot == repoRoot
      ensures worktreeDir == Text.JoinPath(hiveDir, "worktrees")
      ensures branchPrefix == "hive"
      ensures present == if mkdirOk then onDisk + {worktreeDir} else onDisk
      ensures issued == []
    {
      this.repoRoot := repoRoot;
      var dir := Text.JoinPath(hiveDir, "worktrees");
      worktreeDir := dir;
      branchPrefix := "hive";
      present := if mkdirOk then onDisk + {dir} else onDisk;
      issued := [];
    }

    /** `get_branch_name`: "<prefix>/<task id>". */
    function BranchName(taskId: string): (r: string)
      ensures Text.StartsWith(r, branchPrefix + "/") && r[|branchPrefix| + 1..] == taskId
    {
      branchPrefix + "/" + taskId
    }

    /** Distinct tasks work on distinct branches. */
    lemma BranchNamesDistinct(a: string, b: string)
      requires BranchName(a) == BranchName(b)
      ensures a == b
    {
      assert a == BranchName(a)[|branchPrefix| + 1..];
    }

    /** `get_path`: the task's worktree directory. */
    function PathFor(taskId: string): (r: string)
      ensures |taskId| <= |r| && r[|r| - |taskId|..] == taskId
      ensures !Text.StartsWith(taskId, "/") ==> Text.StartsWith(r, worktreeDir)
    {
      Text.JoinPath(worktreeDir, taskId)
    }

    /** Distinct (relative) task ids get distinct worktrees. */
    lemma PathsDistinct(a: string, b: string)
      requires !Text.StartsWith(a, "/") && !Text.StartsWith(b, "/")
      requires PathFor(a) == PathFor(b)
      ensures a == b
    {
      Text.JoinPathInjective(worktreeDir, a, b);
    }

    /** `exists`. */
    predicate Exists(taskId: string)
      reads this
    {
      PathFor(taskId) in present
    }

    /** `create`: an existing path is returned as it is, without running
        git; otherwise the worktree is added (with the fallback to an
        existing branch) and the agent settings are written into it,
        whose outcome is `settings`. */
    method Create(taskId: string, first: GitRun, second: GitRun, settings: W.Outcome)
      returns (r: W.Result<string>)
      modifies this
      ensures var path := PathFor(taskId);
              path in old(present) ==>
                r == W.Ok(path) && present == old(present) && issued == old(issued)
      ensures var path := PathFor(taskId);
              path !in old(present) ==>
                issued == old(issued) + AddCommands(BranchName(taskId), path, first) &&
                match AddWorktree(first, second)
                case Fail(e) => r == W.Err(e) && present == old(present)
                case Pass =>
                  present == old(present) + {path} &&
                  r == (if settings.Fail? then W.Err(settings.error) else W.Ok(path))
      ensures r.Ok? ==> r.value == PathFor(taskId) && Exists(taskId)
    {
      var path := PathFor(taskId);
      if path in present {
        return W.Ok(path);
      }
      var added := RunAdd(BranchName(taskId), path, first, second);
      if added.Fail? {
        return W.Err(added.error);
      }
      present := present + {path};
      if settings.Fail? {
        return W.Err(settings.error);
      }
      r := W.Ok(path);
    }

    /** The git invocations of `create`: `git worktree add -b`, and on a
        complaint that something already exists, `git worktree add` on the
        existing branch. */
    method RunAdd(branch: string, path: string, first: GitRun, second: GitRun) returns (r: W.Outcome)
      modifies this
      ensures issued == old(issued) + AddCommands(branch, path, first)
      ensures present == old(present)
      ensures r == AddWorktree(first, second)
    {
      issued := issued + [AddWithNewBranch(branch, path)];
      match first {
        case SpawnFailed =>
          return W.Fail("Failed to execute git worktree add");
        case Finished(success, err) =>
          if success {
            return W.Pass;
          }
          if !Text.Contains(err, AlreadyExists) {
            return W.Fail("Failed to create worktree: " + err);
          }
      }
      issued := issued + [AddExistingBranch(path, branch)];
      match second {
        case SpawnFailed =>
          return W.Fail("Failed to execute git worktree add with existing branch");
        case Finished(success, err) =>
          if !success {
            return W.Fail("Failed to create worktree: " + err);
          }
      }
      r := W.Pass;
    }

    /** `remove`: nothing to do when the path does not exist; otherwise
        the worktree is force-removed. */
    method Remove(taskId: string, run: GitRun) returns (r: W.Outcome)
      modifies this
      ensures var path := PathFor(taskId);
              path !in old(present) ==>
                r == W.Pass && present == old(present) && issued == old(issued)
      ensures var path := PathFor(taskId);
              path in old(present) ==>
                issued == old(issued) + [RemoveForce(path)] &&
                match run
                case SpawnFailed =>
                  r == W.Fail("Failed to execute git worktree remove") && present == old(present)
                case Finished(false, err) =>
                  r == W.Fail("Failed to remove worktree: " + err) && present == old(present)
                case Finished(true, _) =>
                  r == W.Pass && present == old(present) - {path}
      ensures r.Pass? ==> !Exists(taskId)
    {
      var path := PathFor(taskId);
      if path !in present {
        return W.Pass;
      }
      issued := issued + [RemoveForce(path)];
      match run {
        case SpawnFailed =>
          return W.Fail("Failed to execute git worktree remove");
        case Finished(success, err) =>
          if !success {
            return W.Fail("Failed to remove worktree: " + err);
          }
      }
      present := present - {path};
      r := W.Pass;
    }

    /** `merge`: merges the task's branch into the branch checked out in
        the main repository, with a merge commit; the target branch
        argument is not used. */
    method Merge(taskId: string, targetBranch: string, run: GitRun) returns (r: W.Outcome)
      modifies this
      ensures issued == old(issued) + [MergeNoFastForward(BranchName(taskId), "Merge " + taskId + " via Hive")]
      ensures present == old(present)
      ensures r == match run
                   case SpawnFailed => W.Fail("Failed to execute git merge")
                   case Finished(false, err) => W.Fail("Failed to merge: " + err)
                   case Finished(true, _) => W.Pass
    {
      issued := issued + [MergeNoFastForward(BranchName(taskId), "Merge " + taskId + " via Hive")];
      match run {
        case SpawnFailed =>
          return W.Fail("Failed to execute git merge");
        case Finished(success, err) =>
          if !success {
            return W.Fail("Failed to merge: " + err);
          }
      }
      r := W.Pass;
    }

    /** `get_diff`: what `git diff <base>` printed inside the worktree,
        whether or not git succeeded; `stdout` is that text, or the
        failure to start git. */
    method GetDiff(taskId: string, baseBranch: string, stdout: W.Result<string>) returns (r: W.Result<string>)
      modifies this
      ensures issued == old(issued) + [Diff(PathFor(taskId), baseBranch)]
      ensures present == old(present)
      ensures stdout.Err? ==> r == W.Err("Failed to execute git diff")
      ensures stdout.Ok? ==> r == stdout
    {
      issued := issued + [Diff(PathFor(taskId), baseBranch)];
      if stdout.Err? {
        return W.Err("Failed to execute git diff");
      }
      r := stdout;
    }
  }
}
