/** Repository checks run before a worktree is created and after an
    executor finishes (src/git/validator.rs).

    Every git query becomes an input: the text git printed, or whether
    it exited successfully, wrapped in a `Result` whose error is the
    failure to run git at all (which the source propagates with `?`). */
module Validator {
  import W = Wrappers
  import Text

  // ---------------------------------------------------------------------
  // ValidationResult
  // ---------------------------------------------------------------------

  datatype ValidationResult = ValidationResult(isValid: bool, warnings: seq<string>, errors: seq<string>)
  {
    /** The invariant the builders keep: valid exactly when no error. */
    predicate Consistent() {
      isValid <==> errors == []
    }

    /** `ValidationResult::ok`. */
    static function Ok(): (r: ValidationResult)
      ensures r.isValid && r.warnings == [] && r.errors == []
      ensures r.Consistent()
    {
      ValidationResult(true, [], [])
    }

    /** `with_warning`: one more warning; validity untouched. */
    function WithWarning(msg: string): (r: ValidationResult)
      ensures r.warnings == warnings + [msg]
      ensures r.isValid == isValid && r.errors == errors
      ensures Consistent() ==> r.Consistent()
    {
      this.(warnings := warnings + [msg])
    }

    /** `with_error`: one more error, and the result is invalid. */
    function WithError(msg: string): (r: ValidationResult)
      ensures !r.isValid && r.errors == errors + [msg]
      ensures r.warnings == warnings
      ensures r.Consistent()
    {
      this.(isValid := false, errors := errors + [msg])
    }

    /** `merge`: valid when both are; warnings and errors of `this`
        first, then those of `other`. */
    function Merge(other: ValidationResult): (r: ValidationResult)
      ensures r.isValid <==> isValid && other.isValid
      ensures r.warnings == warnings + other.warnings && r.errors == errors + other.errors
      ensures Consistent() && other.Consistent() ==> r.Consistent()
    {
      ValidationResult(isValid && other.isValid, warnings + other.warnings, errors + other.errors)
    }
  }

  /** `ok()` is a two-sided unit of `merge`. */
  lemma MergeUnit(v: ValidationResult)
    ensures ValidationResult.Ok().Merge(v) == v
    ensures v.Merge(ValidationResult.Ok()) == v
  {
    assert [] + v.warnings == v.warnings && v.warnings + [] == v.warnings;
    assert [] + v.errors == v.errors && v.errors + [] == v.errors;
  }

  /** `merge` is associative. */
  lemma MergeAssociative(a: ValidationResult, b: ValidationResult, c: ValidationResult)
    ensures a.Merge(b).Merge(c) == a.Merge(b.Merge(c))
  {
    assert (a.warnings + b.warnings) + c.warnings == a.warnings + (b.warnings + c.warnings);
    assert (a.errors + b.errors) + c.errors == a.errors + (b.errors + c.errors);
  }

  /** A result written with the builders only. */
  datatype Built =
    | OkB
    | WarningB(base: Built, msg: string)
    | ErrorB(base: Built, msg: string)
    | MergeB(left: Built, right: Built)

  function Eval(b: Built): ValidationResult {
    match b
    case OkB => ValidationResult.Ok()
    case WarningB(base, msg) => Eval(base).WithWarning(msg)
    case ErrorB(base, msg) => Eval(base).WithError(msg)
    case MergeB(left, right) => Eval(left).Merge(Eval(right))
  }

  /** How many errors a builder expression adds. */
  function ErrorCount(b: Built): nat {
    match b
    case OkB => 0
    case WarningB(base, _) => ErrorCount(base)
    case ErrorB(base, _) => ErrorCount(base) + 1
    case MergeB(left, right) => ErrorCount(left) + ErrorCount(right)
  }

  /** Any result built from `ok`, `with_warning`, `with_error` and
      `merge` is valid exactly when it holds no error, and it holds one
      error per `with_error` used. */
  lemma {:induction false} BuiltConsistent(b: Built)
    ensures Eval(b).Consistent()
    ensures |Eval(b).errors| == ErrorCount(b)
  {
    match b
    case OkB =>
    case WarningB(base, _) => BuiltConsistent(base);
    case ErrorB(base, _) => BuiltConsistent(base);
    case MergeB(left, right) => BuiltConsistent(left); BuiltConsistent(right);
  }

  // ---------------------------------------------------------------------
  // `git worktree list --porcelain`
  // ---------------------------------------------------------------------

  datatype WorktreeInfo = WorktreeInfo(path: string, branch: Option<string>)

  type Option<T> = W.Option<T>

  const WorktreeTag: string := "worktree "
  const BranchTag: string := "branch refs/heads/"

  /** The loop variables of `list_worktrees`: the entries pushed so far,
      and `current_path` / `current_branch`. */
  datatype ParseState = ParseState(done: seq<WorktreeInfo>, path: Option<string>, branch: Option<string>)

  /** The entries, with the one still open pushed last. */
  function Finish(st: ParseState): seq<WorktreeInfo> {
    if st.path.Some? then st.done + [WorktreeInfo(st.path.value, st.branch)] else st.done
  }

  /** One line of output: "worktree <p>" closes the open entry (taking
      its branch) and opens one for p; "branch refs/heads/<b>" records b;
      any other line is skipped. */
  function Step(st: ParseState, line: string): ParseState {
    match Text.StripPrefix(line, WorktreeTag)
    case Some(p) =>
      ParseState(Finish(st), W.Some(p), if st.path.Some? then W.None else st.branch)
    case None =>
      match Text.StripPrefix(line, BranchTag)
      case Some(b) => st.(branch := W.Some(b))
      case None => st
  }

  function Scan(lines: seq<string>): ParseState {
    if lines == [] then ParseState([], W.None, W.None)
    else Step(Scan(lines[..|lines| - 1]), lines[|lines| - 1])
  }

  function ParseWorktreeList(lines: seq<string>): seq<WorktreeInfo> {
    Finish(Scan(lines))
  }

  /** The parsing loop of `GitValidator::list_worktrees`. `stdout` is
      git's output, or the error of failing to run it. */
  method ListWorktrees(stdout: W.Result<string>) returns (r: W.Result<seq<WorktreeInfo>>)
    ensures stdout.Err? ==> r == W.Err(stdout.error)
    ensures stdout.Ok? ==> r == W.Ok(ParseWorktreeList(Text.Lines(stdout.value)))
  {
    if stdout.Err? {
      return W.Err(stdout.error);
    }
    var lines := Text.Lines(stdout.value);
    var worktrees: seq<WorktreeInfo> := [];
    var currentPath: Option<string> := W.None;
    var currentBranch: Option<string> := W.None;
    var i := 0;
    while i < |lines|
      invariant 0 <= i <= |lines|
      invariant ParseState(worktrees, currentPath, currentBranch) == Scan(lines[..i])
    {
      var line := lines[i];
      assert lines[..i + 1][..i] == lines[..i];
      var path := Text.StripPrefix(line, WorktreeTag);
      if path.Some? {
        if currentPath.Some? {
          worktrees := worktrees + [WorktreeInfo(currentPath.value, currentBranch)];
          currentBranch := W.None;
        }
        currentPath := path;
      } else {
        var branch := Text.StripPrefix(line, BranchTag);
        if branch.Some? {
          currentBranch := branch;
        }
      }
      i := i + 1;
    }
    if currentPath.Some? {
      worktrees := worktrees + [WorktreeInfo(currentPath.value, currentBranch)];
    }
    assert lines[..|lines|] == lines;
    r := W.Ok(worktrees);
  }

  predicate IsWorktreeLine(line: string) {
    Text.StartsWith(line, WorktreeTag)
  }

  /** The paths named by the "worktree " lines, in input order. */
  function WorktreePaths(lines: seq<string>): seq<string> {
    if lines == [] then []
    else
      var last := lines[|lines| - 1];
      WorktreePaths(lines[..|lines| - 1])
        + (if IsWorktreeLine(last) then [last[|WorktreeTag|..]] else [])
  }

  /** The branch named by the last "branch refs/heads/" line, if any. */
  function LastBranch(lines: seq<string>): Option<string> {
    if lines == [] then W.None
    else
      var last := lines[|lines| - 1];
      if Text.StartsWith(last, BranchTag) && !IsWorktreeLine(last) then W.Some(last[|BranchTag|..])
      else LastBranch(lines[..|lines| - 1])
  }

  function Paths(infos: seq<WorktreeInfo>): seq<string> {
    if infos == [] then [] else Paths(infos[..|infos| - 1]) + [infos[|infos| - 1].path]
  }

  lemma {:induction false} PathsAppend(a: seq<WorktreeInfo>, x: WorktreeInfo)
    ensures Paths(a + [x]) == Paths(a) + [x.path]
  {
    assert (a + [x])[..|a + [x]| - 1] == a;
  }

  /** Before the first "worktree " line nothing is open, and the branch
      carried is the last one seen. */
  lemma {:induction false} ScanBeforeFirst(lines: seq<string>)
    ensures Scan(lines).path.None? <==> WorktreePaths(lines) == []
    ensures Scan(lines).path.None? ==> Scan(lines).done == [] && Scan(lines).branch == LastBranch(lines)
  {
    if lines != [] {
      ScanBeforeFirst(lines[..|lines| - 1]);
    }
  }

  /** There is one entry per "worktree " line, in input order. */
  lemma {:induction false} ParsedPaths(lines: seq<string>)
    ensures Paths(ParseWorktreeList(lines)) == WorktreePaths(lines)
  {
    if lines != [] {
      var init, last := lines[..|lines| - 1], lines[|lines| - 1];
      var st := Scan(init);
      ParsedPaths(init);
      if IsWorktreeLine(last) {
        PathsAppend(Finish(st), WorktreeInfo(last[|WorktreeTag|..], if st.path.Some? then W.None else st.branch));
      } else if Text.StartsWith(last, BranchTag) {
        if st.path.Some? {
          PathsAppend(st.done, WorktreeInfo(st.path.value, st.branch));
          PathsAppend(st.done, WorktreeInfo(st.path.value, W.Some(last[|BranchTag|..])));
        }
      }
    }
  }

  /** Lines with no "worktree " line among them only update the branch
      of the open entry, and the last branch line wins. */
  lemma {:induction false} ScanBlock(prefix: seq<string>, block: seq<string>)
    requires forall k :: 0 <= k < |block| ==> !IsWorktreeLine(block[k])
    ensures Scan(prefix + block) ==
              Scan(prefix).(branch := if LastBranch(block).Some? then LastBranch(block) else Scan(prefix).branch)
    decreases |block|
  {
    if block != [] {
      var init := block[..|block| - 1];
      assert (prefix + block)[..|prefix + block| - 1] == prefix + init;
      ScanBlock(prefix, init);
    } else {
      assert prefix + block == prefix;
    }
  }

  /** Each entry's branch comes from the branch lines that follow its
      "worktree " line, the last of them winning, or is None when there
      are none; branch lines seen before the very first "worktree " line
      carry over to the first entry. */
  lemma EntryBranch(prefix: seq<string>, path: string, block: seq<string>)
    requires forall k :: 0 <= k < |block| ==> !IsWorktreeLine(block[k])
    ensures ParseWorktreeList(prefix + [WorktreeTag + path] + block)
            == ParseWorktreeList(prefix) + [WorktreeInfo(path,
                 if LastBranch(block).Some? then LastBranch(block)
                 else if WorktreePaths(prefix) == [] then LastBranch(prefix)
                 else W.None)]
  {
    var line := WorktreeTag + path;
    assert Text.StripPrefix(line, WorktreeTag) == W.Some(path);
    var head := prefix + [line];
    assert head[..|head| - 1] == prefix;
    ScanBeforeFirst(prefix);
    ScanBlock(head, block);
  }

  // ---------------------------------------------------------------------
  // Decisions of the validate_* functions
  // ---------------------------------------------------------------------

  const NotRepository: string := "Not a git repository"
  const UncommittedInMain: string :=
    "Main repository has uncommitted changes. They will not be reflected in the worktree."
  const StagedInMain: string := "There are staged changes. Committing first is recommended."
  const NoChanges: string := "No changes found. Implementation may not be complete."
  const UncommittedInWorktree: string := "There are uncommitted changes."

  function BranchExistsWarning(branch: string): string {
    "Branch '" + branch + "' already exists. Using the existing branch."
  }

  /** `has_uncommitted_changes` / `has_changes`: whether the trimmed
      output of `git status --porcelain` is non-empty. */
  function HasChanges(porcelain: W.Result<string>): (r: W.Result<bool>)
    ensures porcelain.Err? <==> r.Err?
    ensures r.Err? ==> r.error == porcelain.error
  {
    match porcelain
    case Err(e) => W.Err(e)
    case Ok(out) => W.Ok(Text.Trim(out) != [])
  }

  /** Changes are reported exactly when git printed something other than
      white space. */
  lemma HasChangesExactly(porcelain: W.Result<string>)
    requires porcelain.Ok?
    ensures HasChanges(porcelain).value <==>
              exists k :: 0 <= k < |porcelain.value| && !Text.IsWhitespace(porcelain.value[k])
  {
    TrimEmpty(porcelain.value);
  }

  lemma {:induction false} TrimEmpty(s: string)
    ensures Text.TrimStart(s) == [] <==> forall k :: 0 <= k < |s| ==> Text.IsWhitespace(s[k])
    ensures Text.Trim(s) == [] <==> Text.TrimStart(s) == []
    decreases |s|
  {
    if s != [] && Text.IsWhitespace(s[0]) {
      TrimEmpty(s[1..]);
      assert forall k :: 1 <= k < |s| ==> s[k] == s[1..][k - 1];
    }
    var t := Text.TrimStart(s);
    if t != [] {
      TrimEndKeepsHead(t);
    }
  }

  lemma {:induction false} TrimEndKeepsHead(t: string)
    requires t != [] && !Text.IsWhitespace(t[0])
    ensures Text.TrimEnd(t) != []
    decreases |t|
  {
    if Text.IsWhitespace(t[|t| - 1]) {
      TrimEndKeepsHead(t[..|t| - 1]);
    }
  }

  /** `has_staged_changes`: `git diff --cached --quiet` exits non-zero
      exactly when something is staged. */
  function HasStagedChanges(diffQuietSucceeded: W.Result<bool>): (r: W.Result<bool>)
    ensures diffQuietSucceeded.Err? <==> r.Err?
    ensures r.Ok? ==> r.value == !diffQuietSucceeded.value
  {
    match diffQuietSucceeded
    case Err(e) => W.Err(e)
    case Ok(success) => W.Ok(!success)
  }

  /** `has_new_commits`: the trimmed output of `git rev-list --count`
      read as an `i32`, an unreadable count counting as 0, is positive. */
  function HasNewCommits(revListCount: W.Result<string>): (r: W.Result<bool>)
    ensures revListCount.Err? <==> r.Err?
    ensures r.Ok? ==> (r.value <==> var n := Text.ParseI32(Text.Trim(revListCount.value)); n.Some? && n.value > 0)
  {
    match revListCount
    case Err(e) => W.Err(e)
    case Ok(out) =>
      var count := match Text.ParseI32(Text.Trim(out)) case Some(n) => n case None => 0;
      W.Ok(count > 0)
  }

  /** What git prints for a positive count is read back as new commits. */
  lemma CountLineHasNewCommits(n: int)
    requires 0 < n <= Text.I32Max
    ensures HasNewCommits(W.Ok(Text.IntToString(n) + "\n")) == W.Ok(true)
  {
    Text.TrimDigitLine(Text.IntToString(n));
    Text.ParseI32IntToString(n);
  }

  /** The warnings `validate_for_worktree_creation` gives in a
      repository: uncommitted changes first, then staged ones. */
  function CreationWarnings(statusPorcelain: W.Result<string>, diffCachedQuiet: W.Result<bool>): seq<string>
    requires statusPorcelain.Ok? && diffCachedQuiet.Ok?
  {
    (if HasChanges(statusPorcelain).value then [UncommittedInMain] else [])
    + (if HasStagedChanges(diffCachedQuiet).value then [StagedInMain] else [])
  }

  /** `GitValidator::validate_for_worktree_creation`. In a directory that
      is not a repository the answer is one error and nothing else is
      asked of git. */
  method ValidateForWorktreeCreation(isGitRepo: bool, statusPorcelain: W.Result<string>,
                                     diffCachedQuiet: W.Result<bool>)
    returns (r: W.Result<ValidationResult>)
    ensures !isGitRepo ==> r == W.Ok(ValidationResult(false, [], [NotRepository]))
    ensures isGitRepo && statusPorcelain.Err? ==> r == W.Err(statusPorcelain.error)
    ensures isGitRepo && statusPorcelain.Ok? && diffCachedQuiet.Err? ==> r == W.Err(diffCachedQuiet.error)
    ensures isGitRepo && statusPorcelain.Ok? && diffCachedQuiet.Ok? ==>
              r == W.Ok(ValidationResult(true, CreationWarnings(statusPorcelain, diffCachedQuiet), []))
    ensures r.Ok? ==> r.value.Consistent()
  {
    var result := ValidationResult.Ok();
    if !isGitRepo {
      assert [] + [NotRepository] == [NotRepository];
      return W.Ok(result.WithError(NotRepository));
    }
    var uncommitted := HasChanges(statusPorcelain);
    if uncommitted.Err? {
      return W.Err(uncommitted.error);
    }
    if uncommitted.value {
      result := result.WithWarning(UncommittedInMain);
      assert result.warnings == [] + [UncommittedInMain];
    }
    var first := result.warnings;
    var staged := HasStagedChanges(diffCachedQuiet);
    if staged.Err? {
      return W.Err(staged.error);
    }
    if staged.value {
      result := result.WithWarning(StagedInMain);
    } else {
      assert result.warnings == first + [];
    }
    assert result.warnings == CreationWarnings(statusPorcelain, diffCachedQuiet);
    assert result.isValid && result.errors == [];
    r := W.Ok(result);
  }

  /** The last step of `validate_for_task_start`: one more warning when
      the branch exists. */
  function WithBranchWarning(v: ValidationResult, branch: string, present: bool): (r: ValidationResult)
    ensures r.warnings == v.warnings + (if present then [BranchExistsWarning(branch)] else [])
    ensures r.isValid == v.isValid && r.errors == v.errors
  {
    if present then v.WithWarning(BranchExistsWarning(branch)) else assert v.warnings + [] == v.warnings; v
  }

  /** `GitValidator::validate_for_task_start`: the checks above, then one
      more warning when the branch "<prefix>/<task id>" exists;
      `branchExists` is what asking git about that branch gave. The
      branch is looked up even when the directory is not a repository. */
  method ValidateForTaskStart(isGitRepo: bool, statusPorcelain: W.Result<string>,
                              diffCachedQuiet: W.Result<bool>, taskId: string, branchPrefix: string,
                              branchExists: W.Result<bool>)
    returns (r: W.Result<ValidationResult>)
    ensures isGitRepo && statusPorcelain.Err? ==> r == W.Err(statusPorcelain.error)
    ensures isGitRepo && statusPorcelain.Ok? && diffCachedQuiet.Err? ==> r == W.Err(diffCachedQuiet.error)
    ensures (!isGitRepo || (statusPorcelain.Ok? && diffCachedQuiet.Ok?)) && branchExists.Ok? ==> r.Ok?
    ensures (!isGitRepo || (statusPorcelain.Ok? && diffCachedQuiet.Ok?)) && branchExists.Err? ==>
              r == W.Err(branchExists.error)
    ensures r.Ok? ==>
              branchExists.Ok? && r.value.Consistent() && (r.value.isValid <==> isGitRepo) &&
              r.value.errors == (if isGitRepo then [] else [NotRepository]) &&
              r.value.warnings ==
                (if isGitRepo then CreationWarnings(statusPorcelain, diffCachedQuiet) else [])
                + (if branchExists.value then [BranchExistsWarning(branchPrefix + "/" + taskId)] else [])
  {
    var created := ValidateForWorktreeCreation(isGitRepo, statusPorcelain, diffCachedQuiet);
    if created.Err? {
      return W.Err(created.error);
    }
    if branchExists.Err? {
      return W.Err(branchExists.error);
    }
    r := W.Ok(WithBranchWarning(created.value, branchPrefix + "/" + taskId, branchExists.value));
  }

  /** `WorktreeValidator::validate_implementation`: an error exactly when
      the worktree has neither new commits nor uncommitted changes, and a
      warning exactly when it has uncommitted changes. */
  method ValidateImplementation(revListCount: W.Result<string>, statusPorcelain: W.Result<string>)
    returns (r: W.Result<ValidationResult>)
    ensures revListCount.Err? ==> r == W.Err(revListCount.error)
    ensures revListCount.Ok? && statusPorcelain.Err? ==> r == W.Err(statusPorcelain.error)
    ensures revListCount.Ok? && statusPorcelain.Ok? ==>
              var commits := HasNewCommits(revListCount).value;
              var uncommitted := HasChanges(statusPorcelain).value;
              r.Ok? && r.value.Consistent() &&
              (r.value.errors == (if !commits && !uncommitted then [NoChanges] else [])) &&
              (r.value.warnings == (if uncommitted then [UncommittedInWorktree] else []))
  {
    var result := ValidationResult.Ok();
    var hasCommits := HasNewCommits(revListCount);
    if hasCommits.Err? {
      return W.Err(hasCommits.error);
    }
    var hasUncommitted := HasChanges(statusPorcelain);
    if hasUncommitted.Err? {
      return W.Err(hasUncommitted.error);
    }
    if !hasCommits.value && !hasUncommitted.value {
      return W.Ok(result.WithError(NoChanges));
    }
    if hasUncommitted.value {
      result := result.WithWarning(UncommittedInWorktree);
    }
    r := W.Ok(result);
  }
}
