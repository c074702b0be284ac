/**
 * `deployment/ai_deployment_manager.py`: `main` runs the agent through the singleton
 * manager's `run_command` (which catches everything and reports a failed exit with its
 * code and both outputs), finds the post's path in the agent's output and makes its URL.
 * It then returns success without building or publishing.
 */
module AiDeployment {
  import opened Wrappers
  import opened Strings
  import opened Shell
  import opened AgentHandoff

  /** The agent script `main` runs. */
  function AgentScript(root: string): string {
    root + "/agent/main.py"
  }

  /**
   * `main(agent_type, agent_name, **kwargs)`: one agent command, then the handoff; the
   * result is `(True, "Deployment completed successfully")` exactly when the handoff
   * yields a URL, and no further command runs.
   */
  method Deploy(registry: Registry, shell: Shell, python: string, root: string, agentType: string, agentName: string,
              kwargs: seq<Kwarg>, existing: set<string>)
    returns (ok: bool, message: string)
    requires registry.Valid()
    modifies registry, registry.instance, shell`trace
    ensures registry.Valid() && registry.instance != null
    ensures var cmd := Call(AgentCommand(python, AgentScript(root), agentType, agentName) + Flags(kwargs), "");
      var reply := RunReply(Verbose, shell.world(old(shell.trace), cmd)).value;
      var before := if old(registry.instance) == null then None else old(registry.instance.filePath);
      var h := HandoffSpec((reply.ok, reply.output), before, existing);
      shell.trace == old(shell.trace) + [cmd]
      && registry.instance.filePath == h.filePath
      && ok == h.outcome.Ok?
      && message == (if ok then "Deployment completed successfully" else h.outcome.error)
  {
    var m := registry.Obtain();
    var argv := BuildAgentCommand(python, AgentScript(root), agentType, agentName, kwargs);
    var reply := shell.RunCommand(Verbose, Call(argv, ""));
    var r := reply.value;
    if !r.ok {
      return false, "AI agent execution failed: " + r.output;
    }
    m.ScanFilePath(r.output);
    if !Truthy(m.filePath) {
      return false, "Failed to get file path from AI agent output";
    }
    var url := PostUrlFor(m.filePath.value, existing);
    if url.Err? {
      return false, "Failed to process file: " + url.error;
    }
    return true, "Deployment completed successfully";
  }
}
