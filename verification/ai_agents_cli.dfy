/**
 * `ai_agents/main.py`: the older copy of the command line. It differs from `agent/main.py`
 * in two places: `validate_args` lets any agent type through (the agent's own validation
 * rejects it later), and `generate_and_save_content` unpacks the generator's result before
 * its `try`, so a failed generation raises into `main` instead of returning False.
 */
module AiAgentsCli {
  import opened Wrappers
  import opened AgentText
  import opened BlogAgents
  import opened AgentCli

  /** `validate_args` of this copy: only the artist's webhook URL and the researcher's topic are checked. */
  function ValidateArgs(a: Args): (r: Option<string>)
    ensures r.None? <==> (a.agentType == ArtistType ==> Truthy(a.webhookUrl))
                         && (a.agentType == ResearcherType ==> Truthy(a.topic))
    ensures r.Some? ==> AgentCli.ValidateArgs(a) == r
  {
    if a.agentType == ArtistType then
      if !Truthy(a.webhookUrl) then Some("--webhook_url is required for artist agent") else None
    else if a.agentType == ResearcherType then
      if !Truthy(a.topic) then Some("--topic is required for researcher agent") else None
    else None
  }

  /** Every command line the other copy accepts, this one accepts too; it also accepts unknown types. */
  lemma ValidationIsLaxer(a: Args)
    ensures AgentCli.ValidateArgs(a).None? ==> ValidateArgs(a).None?
    ensures ValidateArgs(a).None? && !AgentCli.ValidateArgs(a).None? <==>
            a.agentType != ResearcherType && a.agentType != ArtistType
  {
  }

  /**
   * `generate_and_save_content` of this copy: the failed generator's `(None, None, None)`
   * makes the unpack raise (`Err`); an empty file name or page gives False; otherwise the
   * post is saved and reported as in the other copy.
   */
  method GenerateAndSave(agent: BlogAgent, host: Host, env: Environment) returns (r: Result<bool, string>)
    modifies host`stampFile, host`aiPosts, host`stdout
    ensures var g := RunGenerator(agent.agentType, agent.topic, agent.imagePrompt, agent.paths,
                                  agent.Svc(env.files, env.model), agent.braveClient, env.world, old(host.stampFile));
      host.stampFile == g.1
      && (r.Err? <==> g.0.NoneTriple?)
      && (r == Ok(true) <==> g.0.Post? && g.0.filename != "" && g.0.page != "" && env.saveWritable)
      && (r == Ok(true) ==> host.aiPosts == old(host.aiPosts)[g.0.filename := g.0.page]
                            && host.stdout == old(host.stdout) + ["FILE_PATH=" + PathJoin(host.postsDir, g.0.filename),
                                                                  "GENERATED_FILE=" + g.0.filename])
      && (r != Ok(true) ==> host.aiPosts == old(host.aiPosts) && host.stdout == old(host.stdout))
  {
    ghost var g := RunGenerator(agent.agentType, agent.topic, agent.imagePrompt, agent.paths,
                                agent.Svc(env.files, env.model), agent.braveClient, env.world, host.stampFile);
    ghost var posts, out := host.aiPosts, host.stdout;
    var result := agent.GenerateBlogPost(host, env.files, env.model, env.world);
    assert result == g.0 && host.stampFile == g.1;
    if result.NoneTriple? {
      return Err("too many values to unpack (expected 2)");
    }
    if result.filename == "" || result.page == "" {
      return Ok(false);
    }
    var path := agent.SaveToContent(host, result.filename, result.page, env.saveWritable);
    if path.None? {
      assert host.aiPosts == posts && host.stdout == out;
      return Ok(false);
    }
    host.stdout := host.stdout + ["GENERATED_FILE=" + result.filename];
    assert host.stdout == out + ["FILE_PATH=" + PathJoin(host.postsDir, result.filename), "GENERATED_FILE=" + result.filename];
    r := Ok(true);
  }

  /**
   * `main` of this copy: 2 for a rejected command line, 0 exactly when every check passes,
   * the agent (which still rejects unknown types) starts, and a non-empty post is generated
   * and saved; 1 otherwise, including the raise of a failed generation, after which
   * cleanup has still run. Every session the agent opened is handed to cleanup exactly once.
   */
  method Run(host: Host, args: Args, env: Environment) returns (code: int, ghost agent: Option<BlogAgent>)
    modifies host
    ensures code == 0 || code == 1 || code == 2
    ensures code == 2 <==> env.depsOk && env.dirsOk && ValidateArgs(args).Some?
    ensures var g := Generation(args, env, old(host.stampFile));
      (code == 0 <==> ReachesAgent(args, env, ValidateArgs(args).None?) && AgentStarts(args, env)
                      && g.0.Post? && g.0.filename != "" && g.0.page != "" && env.saveWritable)
      && (code == 0 ==> host.stampFile == g.1
                        && host.aiPosts == old(host.aiPosts)[g.0.filename := g.0.page]
                        && host.stdout == old(host.stdout) + ["FILE_PATH=" + PathJoin(host.postsDir, g.0.filename),
                                                              "GENERATED_FILE=" + g.0.filename])
    ensures code != 0 ==> host.aiPosts == old(host.aiPosts) && host.stdout == old(host.stdout)
    ensures agent.Some? <==> ReachesAgent(args, env, ValidateArgs(args).None?) && Truthy(env.apiKey)
                             && (args.agentType == ResearcherType || args.agentType == ArtistType)
    ensures agent.Some? ==> agent.value.isClosed && agent.value.closeAttempts == Range(agent.value.created)
  {
    agent := None;
    if !env.depsOk || !env.dirsOk {
      return 1, agent;
    }
    if ValidateArgs(args).Some? {
      return 2, agent;
    }
    if !env.pathsOk {
      return 1, agent;
    }
    var imagePrompt := args.imagePrompt;
    if NeedsRandomPrompt(args) {
      if env.randomPrompt.None? {
        return 1, agent;
      }
      imagePrompt := env.randomPrompt;
    }
    if args.agentType == ArtistType && !env.imageServiceOk {
      return 1, agent;
    }
    var built := NewAgent(args.agentName, args.agentType, args.topic, imagePrompt, env.promptsBase, env.apiKey);
    if built.Err? {
      return 1, agent;
    }
    var a := built.value;
    agent := Some(a);
    var raised := a.InitializeServices(env.braveKey);
    if raised.Some? {
      return 1, agent;
    }
    var saved := GenerateAndSave(a, host, env);
    a.Cleanup();  // __aexit__, also when the unpack raised
    a.Cleanup();  // finally
    code := if saved == Ok(true) then 0 else 1;
  }
}
