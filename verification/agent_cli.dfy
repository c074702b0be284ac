/**
 * `agent/main.py`: the command line that builds a `BlogAgent`, generates a post, saves it
 * and reports `FILE_PATH=` / `GENERATED_FILE=`, with exit code 0 on success, 2 for a
 * rejected command line and 1 for everything else.
 */
module AgentCli {
  import opened Wrappers
  import opened Strings
  import opened AgentText
  import opened BlogAgents
  import AgentHandoff

  /** The parsed command line; options that were not given are `None`. */
  datatype Args = Args(agentName: string, agentType: string, topic: Option<string>,
                       imagePrompt: Option<string>, webhookUrl: Option<string>)

  /**
   * What `main` depends on outside the agent, given as the outcome of each step: the
   * dependency and directory checks, the path check, the generated image prompt (`None`
   * when the prompt service raises), whether building `ProcessImageService` succeeds, the
   * two API keys, and what the agent's generation and save see.
   */
  datatype Environment = Environment(
    depsOk: bool, dirsOk: bool, pathsOk: bool,
    randomPrompt: Option<string>, imageServiceOk: bool,
    apiKey: Option<string>, braveKey: Option<string>, promptsBase: string,
    files: map<string, string>, model: string -> string, world: World, saveWritable: bool)

  const AgentTypeMessage := "--agent_type must be one of: " + ResearcherType + ", " + ArtistType

  /**
   * `validate_args`: the message `parser.error` is called with, or `None`. The type must
   * be one of the two known types; the artist needs a webhook URL and the researcher a topic.
   */
  function ValidateArgs(a: Args): (r: Option<string>)
    ensures r.None? <==> (a.agentType == ResearcherType && Truthy(a.topic))
                         || (a.agentType == ArtistType && Truthy(a.webhookUrl))
    ensures a.agentType != ResearcherType && a.agentType != ArtistType ==> r == Some(AgentTypeMessage)
  {
    if a.agentType != ResearcherType && a.agentType != ArtistType then Some(AgentTypeMessage)
    else if a.agentType == ArtistType then
      if !Truthy(a.webhookUrl) then Some("--webhook_url is required for artist agent") else None
    else if !Truthy(a.topic) then Some("--topic is required for researcher agent")
    else None
  }

  /** An artist run without an image prompt asks the prompt service for one. */
  predicate NeedsRandomPrompt(a: Args) {
    a.agentType == ArtistType && !Truthy(a.imagePrompt)
  }

  /** The image prompt the agent is built with. */
  function AgentPrompt(a: Args, env: Environment): (p: Option<string>)
    ensures !NeedsRandomPrompt(a) ==> p == a.imagePrompt
    ensures NeedsRandomPrompt(a) ==> p == env.randomPrompt
  {
    if NeedsRandomPrompt(a) then env.randomPrompt else a.imagePrompt
  }

  /**
   * Whether `main` gets to build the agent: its dependency and folder checks pass, the prompt service (when
   * needed) answers, and for the artist the image service can be built.
   */
  predicate ReachesAgent(a: Args, env: Environment, validated: bool) {
    env.depsOk && env.dirsOk && validated && env.pathsOk
    && (NeedsRandomPrompt(a) ==> env.randomPrompt.Some?)
    && (a.agentType == ArtistType ==> env.imageServiceOk)
  }

  /** Whether the agent is built and its services set up: the API key is there and, for the researcher, the search key. */
  predicate AgentStarts(a: Args, env: Environment) {
    Truthy(env.apiKey) && (a.agentType == ResearcherType || a.agentType == ArtistType)
    && (a.agentType == ResearcherType ==> Truthy(env.braveKey))
  }

  /** The generation of a freshly set-up agent built from the command line, with the timestamp file afterwards. */
  function Generation(a: Args, env: Environment, stampFile: Option<string>): (Generated, Option<string>) {
    RunGenerator(a.agentType, a.topic, AgentPrompt(a, env), AgentPaths(env.promptsBase, a.agentName),
                 Services(env.files, env.model, true), a.agentType == ResearcherType, env.world, stampFile)
  }

  /**
   * `generate_and_save_content`: a generated post is saved and reported with
   * `GENERATED_FILE=`; the failed generator's `(None, None, None)` is truthy, so its
   * unpacking raises and is caught, and a failed save raises and is caught: both give False.
   */
  method GenerateAndSave(agent: BlogAgent, host: Host, env: Environment) returns (ok: bool)
    modifies host`stampFile, host`aiPosts, host`stdout
    ensures var g := RunGenerator(agent.agentType, agent.topic, agent.imagePrompt, agent.paths,
                                  agent.Svc(env.files, env.model), agent.braveClient, env.world, old(host.stampFile));
      host.stampFile == g.1
      && (ok <==> g.0.Post? && env.saveWritable)
      && (ok ==> host.aiPosts == old(host.aiPosts)[g.0.filename := g.0.page]
                 && host.stdout == old(host.stdout) + ["FILE_PATH=" + PathJoin(host.postsDir, g.0.filename),
                                                       "GENERATED_FILE=" + g.0.filename])
      && (!ok ==> host.aiPosts == old(host.aiPosts) && host.stdout == old(host.stdout))
  {
    ghost var g := RunGenerator(agent.agentType, agent.topic, agent.imagePrompt, agent.paths,
                                agent.Svc(env.files, env.model), agent.braveClient, env.world, host.stampFile);
    ghost var posts, out := host.aiPosts, host.stdout;
    var result := agent.GenerateBlogPost(host, env.files, env.model, env.world);
    assert result == g.0 && host.stampFile == g.1;
    if result.NoneTriple? {
      // the unpack of a 3-tuple into two names raises ValueError
      return false;
    }
    var path := agent.SaveToContent(host, result.filename, result.page, env.saveWritable);
    if path.None? {
      assert host.aiPosts == posts && host.stdout == out;
      return false;
    }
    host.stdout := host.stdout + ["GENERATED_FILE=" + result.filename];
    assert host.stdout == out + ["FILE_PATH=" + PathJoin(host.postsDir, result.filename), "GENERATED_FILE=" + result.filename];
    ok := true;
  }

  /**
   * `main`: the exit code, and (as `agent`) the agent when it was built. A rejected
   * command line exits with 2 (`parser.error`); a run exits with 0 exactly when every
   * check passes, the agent starts, the generator yields a post and the save succeeds,
   * and then the output ends with the `FILE_PATH=` and `GENERATED_FILE=` lines. Cleanup
   * runs from the context manager and again from `finally`; every session the agent
   * opened is handed to it exactly once.
   */
  method Run(host: Host, args: Args, env: Environment) returns (code: int, ghost agent: Option<BlogAgent>)
    modifies host
    ensures code == 0 || code == 1 || code == 2
    ensures code == 2 <==> env.depsOk && env.dirsOk && ValidateArgs(args).Some?
    ensures var g := Generation(args, env, old(host.stampFile));
      (code == 0 <==> ReachesAgent(args, env, ValidateArgs(args).None?) && AgentStarts(args, env)
                      && g.0.Post? && env.saveWritable)
      && (code == 0 ==> host.stampFile == g.1
                        && host.aiPosts == old(host.aiPosts)[g.0.filename := g.0.page]
                        && host.stdout == old(host.stdout) + ["FILE_PATH=" + PathJoin(host.postsDir, g.0.filename),
                                                              "GENERATED_FILE=" + g.0.filename])
    ensures code != 0 ==> host.aiPosts == old(host.aiPosts) && host.stdout == old(host.stdout)
    ensures agent.Some? <==> ReachesAgent(args, env, ValidateArgs(args).None?) && Truthy(env.apiKey)
    ensures agent.Some? ==> agent.value.isClosed && agent.value.closeAttempts == Range(agent.value.created)
  {
    agent := None;
    if !env.depsOk || !env.dirsOk {
      return 1, agent;
    }
    if ValidateArgs(args).Some? {
      return 2, agent;
    }
    if !env.pathsOk {
      return 1, agent;
    }
    var imagePrompt := args.imagePrompt;
    if NeedsRandomPrompt(args) {
      if env.randomPrompt.None? {
        return 1, agent;
      }
      imagePrompt := env.randomPrompt;
    }
    if args.agentType == ArtistType && !env.imageServiceOk {
      return 1, agent;
    }
    var built := NewAgent(args.agentName, args.agentType, args.topic, imagePrompt, env.promptsBase, env.apiKey);
    if built.Err? {
      return 1, agent;
    }
    var a := built.value;
    agent := Some(a);
    // `async with`: entering sets the services up; a raise there leaves `agent` unbound
    var raised := a.InitializeServices(env.braveKey);
    if raised.Some? {
      return 1, agent;
    }
    var ok := GenerateAndSave(a, host, env);
    a.Cleanup();  // __aexit__
    a.Cleanup();  // finally
    code := if ok then 0 else 1;
  }

  /** The text a process prints: each line followed by a newline. */
  function Printed(lines: seq<string>): string {
    Join(lines + [""], '\n')
  }

  /** Lines without the `FILE_PATH=` prefix in front of the output do not change what the scan finds. */
  lemma ScanSkipsPlainLines(before: seq<string>, rest: seq<string>)
    requires forall i :: 0 <= i < |before| ==> !StartsWith(before[i], AgentHandoff.FilePathPrefix)
    ensures AgentHandoff.FirstFilePath(before + rest) == AgentHandoff.FirstFilePath(rest)
  {
    var lines := before + rest;
    var k := AgentHandoff.PathLineIndex(rest);
    assert forall j :: |before| <= j < |lines| ==> lines[j] == rest[j - |before|];
    AgentHandoff.PathLineIndexIs(lines, |before| + k);
  }

  /** The printed text splits back into the printed lines, followed by the empty piece after the last newline. */
  lemma PrintedLines(lines: seq<string>)
    requires forall i :: 0 <= i < |lines| ==> '\n' !in lines[i]
    ensures Split(Printed(lines), '\n') == lines + [""]
  {
    SplitJoin(lines + [""], '\n');
  }

  /** A line made of a newline-free prefix and a newline-free value has no newline. */
  lemma NoNewline(prefix: string, value: string)
    requires '\n' !in prefix && '\n' !in value
    ensures '\n' !in prefix + value
  {
    var s := prefix + value;
    assert forall i :: 0 <= i < |s| ==> s[i] == (if i < |prefix| then prefix[i] else value[i - |prefix|]);
  }

  /** The scan of a `FILE_PATH=` line followed by anything finds that line's path. */
  lemma ScanFindsFirstLine(path: string, rest: seq<string>)
    requires Strip(path) == path
    ensures AgentHandoff.FirstFilePath(["FILE_PATH=" + path] + rest) == Some(path)
  {
    var line := "FILE_PATH=" + path;
    var lines := [line] + rest;
    assert lines[0] == line;
    assert line[..|AgentHandoff.FilePathPrefix|] == AgentHandoff.FilePathPrefix;
    AgentHandoff.AfterFirstOnPrefixed(line);
    assert line[|AgentHandoff.FilePathPrefix|..] == path;
  }

  /**
   * What a successful run hands to the deployment managers: when nothing printed before
   * starts with `FILE_PATH=`, the managers' scan of the printed text finds exactly the
   * saved post's path.
   */
  lemma SavedPathHandedOff(before: seq<string>, path: string, filename: string)
    requires forall i :: 0 <= i < |before| ==> '\n' !in before[i] && !StartsWith(before[i], AgentHandoff.FilePathPrefix)
    requires '\n' !in path && '\n' !in filename && Strip(path) == path
    ensures AgentHandoff.FirstFilePath(Split(Printed(before + ["FILE_PATH=" + path, "GENERATED_FILE=" + filename]), '\n'))
            == Some(path)
  {
    var rest := ["GENERATED_FILE=" + filename, ""];
    ReportLines(before, path, filename);
    ScanSkipsPlainLines(before, ["FILE_PATH=" + path] + rest);
    ScanFindsFirstLine(path, rest);
  }

  /** The lines of a successful run's printed text. */
  lemma ReportLines(before: seq<string>, path: string, filename: string)
    requires forall i :: 0 <= i < |before| ==> '\n' !in before[i]
    requires '\n' !in path && '\n' !in filename
    ensures Split(Printed(before + ["FILE_PATH=" + path, "GENERATED_FILE=" + filename]), '\n')
            == before + (["FILE_PATH=" + path] + ["GENERATED_FILE=" + filename, ""])
  {
    var out := before + ["FILE_PATH=" + path, "GENERATED_FILE=" + filename];
    NoNewline("FILE_PATH=", path);
    NoNewline("GENERATED_FILE=", filename);
    assert forall i :: 0 <= i < |out| ==> '\n' !in out[i] by {
      assert forall i :: 0 <= i < |before| ==> out[i] == before[i];
    }
    PrintedLines(out);
    assert out + [""] == before + (["FILE_PATH=" + path] + ["GENERATED_FILE=" + filename, ""]);
  }
}
