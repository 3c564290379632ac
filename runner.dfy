/** The agent registry of src/agent/runner.rs: which command each agent
    name runs, and the map from task id to the agent working on it.

    Processes are not modelled. A child process is only the flag
    `hasChild`; what `try_wait` on it reports is an input (`TryWait`),
    and so is whether spawning or killing it succeeded. Every launch is
    recorded in `launched`, with the exact argument list. */
module Runner {
  import opened Wrappers
  import Text

  datatype AgentConfig = AgentConfig(name: string, command: string, args: seq<string>)

  /** `AgentConfig::claude`. */
  function Claude(): AgentConfig {
    AgentConfig("claude", "claude", ["-p", "--dangerously-skip-permissions"])
  }

  /** `AgentConfig::gemini`. */
  function Gemini(): AgentConfig {
    AgentConfig("gemini", "gemini", ["-y"])
  }

  /** `AgentConfig::codex`. */
  function Codex(): AgentConfig {
    AgentConfig("codex", "codex", [])
  }

  /** `AgentConfig::from_name`: a configuration exactly for the three
      known agents, named as asked and running the command of that name. */
  function FromName(name: string): (r: Option<AgentConfig>)
    ensures r.Some? <==> name in AvailableAgents()
    ensures r.Some? ==> r.value.name == name && r.value.command == name
  {
    if name == "claude" then Some(Claude())
    else if name == "gemini" then Some(Gemini())
    else if name == "codex" then Some(Codex())
    else None
  }

  /** `AgentConfig::available_agents`. */
  function AvailableAgents(): (r: seq<string>)
    ensures |r| == 3 && r[0] != r[1] && r[1] != r[2] && r[0] != r[2]
  {
    ["claude", "gemini", "codex"]
  }

  datatype AgentStatus = Idle | Running | Completed | Failed(message: string)

  /** What `Child::try_wait` reports: still running, exited (with its
      success and, unless killed by a signal, its exit code), or an I/O
      error, kept as its message. */
  datatype TryWait = StillRunning | Exited(success: bool, code: Option<int>) | WaitError(message: string)

  /** `RunningAgent`; `hasChild` says whether `child` is `Some`. */
  datatype RunningAgent = RunningAgent(
    taskId: string,
    config: AgentConfig,
    status: AgentStatus,
    outputLines: seq<string>,
    hasChild: bool)

  /** The `{:?}` form of `ExitStatus::code()`, as in "Exit code: Some(1)". */
  function ExitMessage(code: Option<int>): (r: string)
    ensures Text.StartsWith(r, "Exit code: ")
  {
    "Exit code: " + match code
                    case Some(c) => "Some(" + Text.IntToString(c) + ")"
                    case None => "None"
  }

  /** The per-agent step of `check_completion` and
      `check_task_completion`: only a Running agent that still owns its
      child is looked at; an exit or an error settles its status and
      drops the child, a process still running leaves it as it is. */
  function AfterProbe(a: RunningAgent, w: TryWait): (r: RunningAgent)
    ensures r.taskId == a.taskId && r.config == a.config && r.outputLines == a.outputLines
    ensures a.status != Running || !a.hasChild || w.StillRunning? ==> r == a
    ensures a.status == Running && a.hasChild && w.Exited? ==>
              !r.hasChild && r.status == (if w.success then Completed else Failed(ExitMessage(w.code)))
    ensures a.status == Running && a.hasChild && w.WaitError? ==>
              !r.hasChild && r.status == Failed(w.message)
  {
    if a.status == Running && a.hasChild then
      match w
      case StillRunning => a
      case Exited(success, code) =>
        a.(status := if success then Completed else Failed(ExitMessage(code)), hasChild := false)
      case WaitError(message) => a.(status := Failed(message), hasChild := false)
    else a
  }

  /** The probe step changes the status only by settling it: the new
      status is Completed or Failed, and the child is gone. */
  lemma ProbeSettles(a: RunningAgent, w: TryWait)
    requires AfterProbe(a, w).status != a.status
    ensures a.status == Running
    ensures AfterProbe(a, w).status.Completed? || AfterProbe(a, w).status.Failed?
    ensures !AfterProbe(a, w).hasChild
  {
  }

  /** An agent put through several completion checks in a row. */
  function AfterProbes(a: RunningAgent, ws: seq<TryWait>): RunningAgent
    decreases |ws|
  {
    if ws == [] then a else AfterProbes(AfterProbe(a, ws[0]), ws[1..])
  }

  /** Completed and Failed are final: no sequence of completion checks
      changes them. */
  lemma {:induction false} SettledIsFinal(a: RunningAgent, ws: seq<TryWait>)
    requires a.status.Completed? || a.status.Failed?
    ensures AfterProbes(a, ws) == a
    decreases |ws|
  {
    if ws != [] {
      SettledIsFinal(AfterProbe(a, ws[0]), ws[1..]);
    }
  }

  /** Task ids whose agent is Running. */
  function RunningIds(m: map<string, RunningAgent>): (r: set<string>)
    ensures r <= m.Keys
    ensures forall k :: k in r <==> k in m && m[k].status == Running
  {
    set k | k in m && m[k].status == Running
  }

  /** `running_count`. */
  function CountRunning(m: map<string, RunningAgent>): nat {
    |RunningIds(m)|
  }

  /** Replacing one entry changes the count by what that entry
      contributes before and after. */
  lemma CountRunningUpdate(m: map<string, RunningAgent>, k: string, a: RunningAgent)
    ensures CountRunning(m[k := a]) ==
              CountRunning(m) - (if k in m && m[k].status == Running then 1 else 0)
              + (if a.status == Running then 1 else 0)
  {
    var before, after := RunningIds(m), RunningIds(m[k := a]);
    var rest := before - {k};
    assert after == if a.status == Running then rest + {k} else rest;
    assert k in before ==> before == rest + {k};
  }

  lemma {:induction false} SubsetCardinality(a: set<string>, b: set<string>)
    requires a <= b
    ensures |a| <= |b|
    decreases |b|
  {
    if a != {} {
      var x :| x in a;
      SubsetCardinality(a - {x}, b - {x});
    }
  }

  /** The registry after one completion check of every agent, `probe`
      giving what each agent's child reports. */
  function ProbeAll(m: map<string, RunningAgent>, probe: string -> TryWait): (r: map<string, RunningAgent>)
    ensures r.Keys == m.Keys
  {
    map k | k in m :: AfterProbe(m[k], probe(k))
  }

  /** A round of completion checks never starts an agent: the Running
      agents afterwards are among those before. */
  lemma ProbeAllRunning(m: map<string, RunningAgent>, probe: string -> TryWait)
    ensures RunningIds(ProbeAll(m, probe)) <= RunningIds(m)
    ensures CountRunning(ProbeAll(m, probe)) <= CountRunning(m)
  {
    SubsetCardinality(RunningIds(ProbeAll(m, probe)), RunningIds(m));
  }

  /** The loop of `check_completion`: every entry put through its
      completion check, one at a time. */
  method ProbeEach(m: map<string, RunningAgent>, probe: string -> TryWait) returns (r: map<string, RunningAgent>)
    ensures r == ProbeAll(m, probe)
  {
    ghost var target := ProbeAll(m, probe);
    r := m;
    var pending := m.Keys;
    while pending != {}
      invariant r.Keys == m.Keys && pending <= m.Keys
      invariant forall k :: k in r ==> r[k] == if k in pending then m[k] else target[k]
      decreases |pending|
    {
      var k :| k in pending;
      r := r[k := AfterProbe(r[k], probe(k))];
      pending := pending - {k};
    }
  }

  /** One process launch: the command, its arguments, and the directory
      it runs in. */
  datatype Launch = Launch(command: string, args: seq<string>, workingDir: string)

  class AgentRunner {
    var agents: map<string, RunningAgent>
    const logDir: string
    /** Every spawn attempted, oldest first. */
    var launched: seq<Launch>

    /** `AgentRunner::new`: an empty registry logging to "<hive>/logs". */
    constructor (hiveDir: string)
      ensures agents == map[] && launched == []
      ensures logDir == Text.JoinPath(hiveDir, "logs")
    {
      agents := map[];
      logDir := Text.JoinPath(hiveDir, "logs");
      launched := [];
    }

    function RunningCount(): nat
      reads this
    {
      CountRunning(agents)
    }

    /** `get_status`. */
    function GetStatus(taskId: string): (r: Option<AgentStatus>)
      reads this
      ensures r.Some? <==> taskId in agents
      ensures r.Some? ==> r.value == agents[taskId].status
    {
      if taskId in agents then Some(agents[taskId].status) else None
    }

    /** `start`: runs the agent's command with the prompt appended as its
        last argument; if the process started (`spawned`), the task's
        entry is replaced by a fresh Running agent that owns the child. */
    method Start(taskId: string, config: AgentConfig, workingDir: string, prompt: string, spawned: bool)
      returns (r: Outcome)
      modifies this
      ensures launched == old(launched) + [Launch(config.command, config.args + [prompt], workingDir)]
      ensures !spawned ==> r == Fail("Failed to start " + config.name) && agents == old(agents)
      ensures spawned ==> r == Pass && agents == old(agents)[taskId := RunningAgent(taskId, config, Running, [], true)]
      ensures spawned ==>
                RunningCount() == old(RunningCount())
                  + (if taskId in old(agents) && old(agents)[taskId].status == Running then 0 else 1)
    {
      var args := config.args + [prompt];
      launched := launched + [Launch(config.command, args, workingDir)];
      if !spawned {
        return Fail("Failed to start " + config.name);
      }
      var running := RunningAgent(taskId, config, Running, [], true);
      CountRunningUpdate(agents, taskId, running);
      agents := agents[taskId := running];
      r := Pass;
    }

    /** `stop`: takes the child of the task's agent, if any, and kills
        it. A failed kill is reported, but the child has already been
        taken and the status is left as it was. An unknown task or an
        agent without a child is left alone. */
    method Stop(taskId: string, killOk: bool) returns (r: Outcome)
      modifies this
      ensures launched == old(launched)
      ensures taskId !in old(agents) || !old(agents)[taskId].hasChild ==> r == Pass && agents == old(agents)
      ensures taskId in old(agents) && old(agents)[taskId].hasChild ==>
                var a := old(agents)[taskId].(hasChild := false);
                if killOk then r == Pass && agents == old(agents)[taskId := a.(status := Failed("Stopped by user"))]
                else r == Fail("Failed to kill process") && agents == old(agents)[taskId := a]
      ensures RunningCount() <= old(RunningCount())
    {
      if taskId !in agents || !agents[taskId].hasChild {
        return Pass;
      }
      var agent := agents[taskId].(hasChild := false);
      CountRunningUpdate(agents, taskId, agent);
      agents := agents[taskId := agent];
      if !killOk {
        return Fail("Failed to kill process");
      }
      agent := agent.(status := Failed("Stopped by user"));
      CountRunningUpdate(agents, taskId, agent);
      agents := agents[taskId := agent];
      r := Pass;
    }

    /** `check_task_completion`: one completion check of the task's agent,
        whose child reports `w`; the status afterwards, or None for an
        unknown task. */
    method CheckTaskCompletion(taskId: string, w: TryWait) returns (r: Option<AgentStatus>)
      modifies this
      ensures launched == old(launched)
      ensures taskId !in old(agents) ==> r == None && agents == old(agents)
      ensures taskId in old(agents) ==>
                var a := AfterProbe(old(agents)[taskId], w);
                agents == old(agents)[taskId := a] && r == Some(a.status)
      ensures RunningCount() <= old(RunningCount())
    {
      if taskId !in agents {
        return None;
      }
      var agent := AfterProbe(agents[taskId], w);
      CountRunningUpdate(agents, taskId, agent);
      agents := agents[taskId := agent];
      r := Some(agent.status);
    }

    /** `check_completion`: the same check for every agent in turn. */
    method CheckCompletion(probe: string -> TryWait)
      modifies this
      ensures launched == old(launched)
      ensures agents == ProbeAll(old(agents), probe)
      ensures RunningCount() <= old(RunningCount())
    {
      var m := ProbeEach(agents, probe);
      agents := m;
      ProbeAllRunning(old(agents), probe);
    }
  }
}
