/**
 * `admin_panel/deployment/deploy_manager.py`: the admin panel's singleton manager. `main`
 * runs the agent, finds the post's path and URL as the AI manager does, then builds the
 * site and publishes it one step after the other: a failed build stops before git.
 * `run_command` catches every exception. The branch deployed is `hostinger-deploy`,
 * pushed to `hostinger-protoblog`.
 */
module AdminDeployment {
  import opened Wrappers
  import opened Strings
  import opened Shell
  import opened AgentHandoff

  const Branch := DeployBranch("hostinger-deploy", "hostinger-protoblog")

  /** The agent script `main` runs. */
  function AgentScript(root: string): string {
    root + "/ai_agents/main.py"
  }

  /** The result, message and commands of the build-and-publish steps of `main`. */
  function BuildPublishSpec(world: World, h: seq<Call>, root: string, stamp: string): (bool, string, seq<Call>) {
    var hugo := RunReply(CatchAll, world(h, HugoCall(root))).value;
    if !hugo.ok then (false, "Hugo build failed", [HugoCall(root)])
    else
      var g := GitSpec(world, h + [HugoCall(root)], CatchAll, root, stamp, Branch);
      if g.raised then (false, "Git operations failed", [HugoCall(root)] + g.issued)
      else (true, "Deployment completed successfully", [HugoCall(root)] + g.issued + [NotifyCall(false)])
  }

  /**
   * A build that does not succeed ends the run with "Hugo build failed" and no git
   * command; otherwise the run fails only when `git diff` cannot start.
   */
  lemma PublishOutcome(world: World, h: seq<Call>, root: string, stamp: string)
    ensures var (ok, message, issued) := BuildPublishSpec(world, h, root, stamp);
      var o := world(h, HugoCall(root));
      (!(o.Exited? && o.code == 0) ==> !ok && message == "Hugo build failed" && issued == [HugoCall(root)])
      && (o.Exited? && o.code == 0 ==>
            (ok <==> !world(h + [HugoCall(root), AddCall(root)], DiffCall(root)).LaunchError?))
  {
    var o := world(h, HugoCall(root));
    if o.Exited? && o.code == 0 {
      GitFailsOnlyOnException(world, h + [HugoCall(root)], CatchAll, root, stamp, Branch);
      assert h + [HugoCall(root)] + [AddCall(root)] == h + [HugoCall(root), AddCall(root)];
    }
  }

  /** The build and publish steps against the shell. */
  method BuildAndPublish(shell: Shell, root: string, stamp: string) returns (ok: bool, message: string)
    modifies shell`trace
    ensures var (res, msg, issued) := BuildPublishSpec(shell.world, old(shell.trace), root, stamp);
      ok == res && message == msg && shell.trace == old(shell.trace) + issued
  {
    ghost var h := shell.trace;
    var built := BuildHugo(shell, CatchAll, root);
    if !built.value {
      return false, "Hugo build failed";
    }
    ghost var h1 := shell.trace;
    ghost var g := GitSpec(shell.world, h1, CatchAll, root, stamp, Branch);
    var pushed := GitOperations(shell, CatchAll, root, stamp, Branch);
    assert shell.trace == h + ([HugoCall(root)] + g.issued);
    if !pushed {
      return false, "Git operations failed";
    }
    var _ := shell.Exec(NotifyCall(false));
    assert shell.trace == h + ([HugoCall(root)] + g.issued + [NotifyCall(false)]);
    return true, "Deployment completed successfully";
  }

  /**
   * `main(agent_type, agent_name, **kwargs)`: the agent command and the handoff; when the
   * handoff yields a URL, the build and publish steps decide the result.
   */
  method Deploy(registry: Registry, shell: Shell, python: string, root: string, agentType: string, agentName: string,
              kwargs: seq<Kwarg>, existing: set<string>, stamp: string)
    returns (ok: bool, message: string)
    requires registry.Valid()
    modifies registry, registry.instance, shell`trace
    ensures registry.Valid() && registry.instance != null
    ensures var cmd := Call(AgentCommand(python, AgentScript(root), agentType, agentName) + Flags(kwargs), "");
      var reply := RunReply(CatchAll, shell.world(old(shell.trace), cmd)).value;
      var before := if old(registry.instance) == null then None else old(registry.instance.filePath);
      var h := HandoffSpec((reply.ok, reply.output), before, existing);
      registry.instance.filePath == h.filePath
      && (h.outcome.Err? ==> !ok && message == h.outcome.error && shell.trace == old(shell.trace) + [cmd])
      && (h.outcome.Ok? ==>
            var (res, msg, issued) := BuildPublishSpec(shell.world, old(shell.trace) + [cmd], root, stamp);
            ok == res && message == msg && shell.trace == old(shell.trace) + [cmd] + issued)
  {
    var m := registry.Obtain();
    var argv := BuildAgentCommand(python, AgentScript(root), agentType, agentName, kwargs);
    var reply := shell.RunCommand(CatchAll, Call(argv, ""));
    var r := reply.value;
    if !r.ok {
      return false, "AI agent execution failed: " + r.output;
    }
    m.ScanFilePath(r.output);
    if !Truthy(m.filePath) {
      return false, "Failed to get file path from AI agent output";
    }
    var url := PostUrlFor(m.filePath.value, existing);
    if url.Err? {
      return false, "Failed to process file: " + url.error;
    }
    ok, message := BuildAndPublish(shell, root, stamp);
  }
}
