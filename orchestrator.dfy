/** Agent roles and plan files (src/agent/orchestrator.rs): which agents
    may plan and which may execute, where a task's plan is kept, and the
    prompts handed to the planner and to the executor.

    The file system is a parameter: `files` maps each readable file's
    path to its contents. */
module Orchestrator {
  import opened Wrappers
  import Text
  import Runner

  datatype AgentSpec = AgentSpec(command: string, args: seq<string>, description: string)

  datatype OrchestratorConfig = OrchestratorConfig(
    defaultPlanner: string,
    defaultExecutor: string,
    planners: map<string, AgentSpec>,
    executors: map<string, AgentSpec>)

  /** `OrchestratorConfig::default`: Gemini and Codex plan, Claude
      executes; Gemini and Claude are the defaults. */
  function DefaultConfig(): (c: OrchestratorConfig)
    ensures c.planners.Keys == {"gemini", "codex"} && c.executors.Keys == {"claude"}
    ensures c.defaultPlanner in c.planners && c.defaultExecutor in c.executors
    ensures c.defaultPlanner == "gemini" && c.defaultExecutor == "claude"
  {
    OrchestratorConfig(
      "gemini",
      "claude",
      map["gemini" := AgentSpec("gemini", ["-y"], "Fast and cheap. Best for general tasks"),
          "codex" := AgentSpec("codex", [], "Strong reasoning. For complex architecture design")],
      map["claude" := AgentSpec("claude", ["-p", "--dangerously-skip-permissions"],
                                "High code quality. Best for implementation")])
  }

  /** Every agent of the default roles is launched the way the runner's
      own configuration of that name launches it. */
  lemma DefaultsAgreeWithRunner(name: string)
    requires name in DefaultConfig().planners || name in DefaultConfig().executors
    ensures Runner.FromName(name).Some?
    ensures var spec := if name in DefaultConfig().planners then DefaultConfig().planners[name]
                        else DefaultConfig().executors[name];
            spec.command == Runner.FromName(name).value.command &&
            spec.args == Runner.FromName(name).value.args
  {
  }

  /** What ".hive/config.json" holds, as far as loading it is concerned. */
  datatype ConfigFile =
    | Absent
    | Unreadable
    | NotJson
    | WithoutOrchestrator
    /** An "orchestrator" section, and what it deserialises to (None when
        it does not fit the configuration's shape). */
    | WithOrchestrator(section: Option<OrchestratorConfig>)

  /** `OrchestratorConfig::load`: the "orchestrator" section of the file
      if there is one, the defaults otherwise. */
  function LoadConfig(file: ConfigFile): (r: Result<OrchestratorConfig>)
    ensures file in {Absent, WithoutOrchestrator} ==> r == Ok(DefaultConfig())
    ensures file.WithOrchestrator? && file.section.Some? ==> r == Ok(file.section.value)
    ensures r.Err? <==> file in {Unreadable, NotJson} || (file.WithOrchestrator? && file.section.None?)
  {
    match file
    case Absent => Ok(DefaultConfig())
    case Unreadable => Err("Failed to read config.json")
    case NotJson => Err("Failed to parse config.json")
    case WithoutOrchestrator => Ok(DefaultConfig())
    case WithOrchestrator(section) =>
      match section
      case Some(c) => Ok(c)
      case None => Err("Failed to parse orchestrator config")
  }

  /** `get_planner`. */
  function GetPlanner(c: OrchestratorConfig, name: string): (r: Option<AgentSpec>)
    ensures r.Some? <==> name in c.planners
    ensures r.Some? ==> r.value == c.planners[name]
  {
    if name in c.planners then Some(c.planners[name]) else None
  }

  /** `get_executor`. */
  function GetExecutor(c: OrchestratorConfig, name: string): (r: Option<AgentSpec>)
    ensures r.Some? <==> name in c.executors
    ensures r.Some? ==> r.value == c.executors[name]
  {
    if name in c.executors then Some(c.executors[name]) else None
  }

  /** The keys of a role map, each once, in the map's iteration order
      (which the source leaves unspecified, and so does this model). */
  method Names(roles: map<string, AgentSpec>) returns (r: seq<string>)
    ensures |r| == |roles.Keys|
    ensures forall n :: n in r <==> n in roles
    ensures forall i, j :: 0 <= i < j < |r| ==> r[i] != r[j]
  {
    r := [];
    var pending := roles.Keys;
    while pending != {}
      invariant pending <= roles.Keys
      invariant forall n :: n in r <==> n in roles && n !in pending
      invariant forall i, j :: 0 <= i < j < |r| ==> r[i] != r[j]
      invariant |r| + |pending| == |roles.Keys|
      decreases |pending|
    {
      var n :| n in pending;
      r := r + [n];
      pending := pending - {n};
    }
  }

  /** `available_planners`. */
  method AvailablePlanners(c: OrchestratorConfig) returns (r: seq<string>)
    ensures forall n :: n in r <==> GetPlanner(c, n).Some?
    ensures forall i, j :: 0 <= i < j < |r| ==> r[i] != r[j]
  {
    r := Names(c.planners);
  }

  /** `available_executors`. */
  method AvailableExecutors(c: OrchestratorConfig) returns (r: seq<string>)
    ensures forall n :: n in r <==> GetExecutor(c, n).Some?
    ensures forall i, j :: 0 <= i < j < |r| ==> r[i] != r[j]
  {
    r := Names(c.executors);
  }

  // ---------------------------------------------------------------------
  // Plan files
  // ---------------------------------------------------------------------

  /** A relative task id names a relative plan file. */
  lemma RelativeFileName(taskId: string)
    ensures Text.StartsWith(taskId + ".md", "/") ==> Text.StartsWith(taskId, "/")
  {
    var f := taskId + ".md";
    assert f[..1] == [f[0]];
    if taskId == [] {
      assert f[0] == '.';
    } else {
      assert taskId[..1] == [taskId[0]];
      assert f[0] == taskId[0];
    }
  }

  datatype PlanManager = PlanManager(plansDir: string)
  {
    /** `plan_path`: "<plans dir>/<task id>.md". */
    function PlanPath(taskId: string): (r: string)
      ensures Text.StartsWith(r, plansDir) || Text.StartsWith(taskId, "/")
      ensures |taskId| + 3 <= |r| && r[|r| - |taskId| - 3..] == taskId + ".md"
    {
      RelativeFileName(taskId);
      Text.JoinPath(plansDir, taskId + ".md")
    }

    /** Distinct (relative) task ids have distinct plan files. */
    lemma PlanPathsDistinct(a: string, b: string)
      requires !Text.StartsWith(a, "/") && !Text.StartsWith(b, "/")
      requires PlanPath(a) == PlanPath(b)
      ensures a == b
    {
      RelativeFileName(a);
      RelativeFileName(b);
      Text.JoinPathInjective(plansDir, a + ".md", b + ".md");
      assert a == (a + ".md")[..|a|];
      assert b == (b + ".md")[..|b|];
    }

    /** `plan_file_exists`. */
    predicate PlanFileExists(files: map<string, string>, taskId: string) {
      PlanPath(taskId) in files
    }

    /** `load_plan`. */
    function LoadPlan(files: map<string, string>, taskId: string): (r: Result<string>)
      ensures r.Ok? <==> PlanFileExists(files, taskId)
      ensures r.Ok? ==> r.value == files[PlanPath(taskId)]
      ensures r.Err? ==> r.error == "Failed to read plan: " + PlanPath(taskId)
    {
      var path := PlanPath(taskId);
      if path in files then Ok(files[path]) else Err("Failed to read plan: " + path)
    }

    /** `save_plan`: the files afterwards, or the write error. */
    function SavePlan(files: map<string, string>, taskId: string, content: string, writeOk: bool)
      : (r: Result<map<string, string>>)
      ensures r.Ok? <==> writeOk
      ensures r.Ok? ==> r.value.Keys == files.Keys + {PlanPath(taskId)}
      ensures r.Err? ==> r.error == "Failed to write plan: " + PlanPath(taskId)
    {
      var path := PlanPath(taskId);
      if writeOk then Ok(files[path := content]) else Err("Failed to write plan: " + path)
    }

    /** `create_execution_prompt`: the task's plan wrapped in the
        execution instructions, or the error of reading it. */
    function ExecutionPromptFor(files: map<string, string>, taskId: string): (r: Result<string>)
      ensures r.Err? <==> !PlanFileExists(files, taskId)
      ensures r.Err? ==> r == Err("Failed to read plan: " + PlanPath(taskId))
      ensures r.Ok? ==> ExecutionPlan(r.value) == Some(files[PlanPath(taskId)])
    {
      match LoadPlan(files, taskId)
      case Err(e) => Err(e)
      case Ok(plan) =>
        ExecutionPlanRoundTrip(plan);
        Ok(ExecutionPrompt(plan))
    }
  }

  /** A saved plan is the plan loaded back, and other tasks' plans are
      untouched. */
  lemma LoadAfterSave(pm: PlanManager, files: map<string, string>, taskId: string, content: string, other: string)
    requires !Text.StartsWith(taskId, "/") && !Text.StartsWith(other, "/")
    ensures var saved := pm.SavePlan(files, taskId, content, true).value;
            pm.LoadPlan(saved, taskId) == Ok(content) &&
            (other != taskId ==> pm.LoadPlan(saved, other) == pm.LoadPlan(files, other))
  {
    if other != taskId && pm.PlanPath(other) == pm.PlanPath(taskId) {
      pm.PlanPathsDistinct(other, taskId);
    }
  }

  const PlanningHead: string :=
    "Please create an implementation plan for the following task.\n\n## Task\n**Title**: "
  const PlanningMiddle: string := "\n**Description**: "
  const PlanningTail: string :=
    "\n\n## Output Format\nPlease output in Markdown format as follows:\n\n```markdown\n"
    + "# Implementation Plan: [Task Title]\n\n## Overview\n[Task purpose and goals]\n\n"
    + "## Implementation Steps\n1. [Step 1]\n   - Details\n   - Affected files\n\n"
    + "2. [Step 2]\n   ...\n\n## Scope of Impact\n- New files:\n- Modified files:\n\n"
    + "## Test Strategy\n- [Test 1]\n- [Test 2]\n\n## Notes and Risks\n- [Note 1]\n```\n"

  /** `create_planning_prompt`: the title and the description, verbatim,
      at fixed places in the instructions. */
  function PlanningPrompt(title: string, description: string): (r: string)
    ensures Text.StartsWith(r, PlanningHead)
    ensures var d := |PlanningHead| + |title| + |PlanningMiddle|;
            d + |description| <= |r| &&
            r[|PlanningHead|..|PlanningHead| + |title|] == title &&
            r[d..d + |description|] == description
  {
    Slots(PlanningHead, title, PlanningMiddle, description, PlanningTail);
    PlanningHead + title + PlanningMiddle + description + PlanningTail
  }

  /** Where the two strings placed between fixed pieces sit. */
  lemma Slots(head: string, a: string, middle: string, b: string, tail: string)
    ensures var r := head + a + middle + b + tail;
            var d := |head| + |a| + |middle|;
            Text.StartsWith(r, head) && d + |b| <= |r| &&
            r[|head|..|head| + |a|] == a && r[d..d + |b|] == b
  {
    var r := head + a + middle + b + tail;
    assert r[..|head|] == head;
  }

  /** The planning prompt quotes both the title and the description. */
  lemma PlanningPromptQuotes(title: string, description: string)
    ensures Text.Contains(PlanningPrompt(title, description), title)
    ensures Text.Contains(PlanningPrompt(title, description), description)
  {
    Quotes(PlanningHead, title, PlanningMiddle, description, PlanningTail);
  }

  /** Both strings placed between the fixed pieces occur in the result. */
  lemma Quotes(head: string, a: string, middle: string, b: string, tail: string)
    ensures Text.Contains(head + a + middle + b + tail, a)
    ensures Text.Contains(head + a + middle + b + tail, b)
  {
    var r := head + a + middle + b + tail;
    assert r == head + a + (middle + b + tail);
    Text.ContainsInfix(head, a, middle + b + tail);
    assert r == (head + a + middle) + b + tail;
    Text.ContainsInfix(head + a + middle, b, tail);
  }

  const ExecutionHead: string :=
    "Please implement the code according to the following implementation plan.\n\n"
  const ExecutionTail: string :=
    "\n\n---\nFollow the plan and proceed with implementation step by step.\n"
    + "After completing each step, verify it works before proceeding to the next step.\n"

  /** The execution prompt around a plan. */
  function ExecutionPrompt(plan: string): (r: string)
    ensures Text.StartsWith(r, ExecutionHead)
    ensures |r| == |ExecutionHead| + |plan| + |ExecutionTail|
  {
    ExecutionHead + plan + ExecutionTail
  }

  /** The plan quoted by an execution prompt, read back from its text. */
  function ExecutionPlan(prompt: string): (r: Option<string>)
    ensures r.Some? ==> ExecutionPrompt(r.value) == prompt
  {
    match Between(prompt, ExecutionHead, ExecutionTail)
    case Some(plan) => Some(plan)
    case None => None
  }

  /** The text between a given head and tail, when `s` has both. */
  function Between(s: string, head: string, tail: string): (r: Option<string>)
    ensures r.Some? ==> head + r.value + tail == s
  {
    if |head| + |tail| <= |s| && Text.StartsWith(s, head) && s[|s| - |tail|..] == tail then
      var mid := s[|head|..|s| - |tail|];
      assert s == s[..|head|] + mid + s[|s| - |tail|..];
      Some(mid)
    else None
  }

  /** The execution prompt holds the plan verbatim, and exactly it. */
  lemma ExecutionPlanRoundTrip(plan: string)
    ensures ExecutionPlan(ExecutionPrompt(plan)) == Some(plan)
  {
    BetweenJoin(ExecutionHead, plan, ExecutionTail);
  }

  lemma BetweenJoin(head: string, mid: string, tail: string)
    ensures Between(head + mid + tail, head, tail) == Some(mid)
  {
    var s := head + mid + tail;
    assert s[..|head|] == head;
    assert s[|s| - |tail|..] == tail;
    assert s[|head|..|s| - |tail|] == mid;
  }
}
