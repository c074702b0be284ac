/**
 * `BlogAgent` (`core/agent.py`) as an object: the sessions it opens while setting up its
 * services, the cleanup that closes them (safe to run twice), the generator it hands the
 * work to, and the save that prints the `FILE_PATH=` line the deployment managers scan for.
 */
module BlogAgents {
  import opened Wrappers
  import opened AgentText
  import ResearcherPost
  import ArtistPost

  /** `[0, 1, ..., n - 1]`: the identities of the first `n` sessions opened. */
  function Range(n: nat): (r: seq<nat>)
    ensures |r| == n && forall i :: 0 <= i < n ==> r[i] == i
  {
    if n == 0 then [] else Range(n - 1) + [n - 1]
  }

  /** The process around the agent: the AI posts folder, the timestamp file, and the lines printed so far. */
  class Host {
    const postsDir: string
    var aiPosts: map<string, string>
    var stampFile: Option<string>
    var stdout: seq<string>

    constructor(postsDir: string, aiPosts: map<string, string>, stampFile: Option<string>)
      ensures this.postsDir == postsDir && this.aiPosts == aiPosts && this.stampFile == stampFile && stdout == []
    {
      this.postsDir := postsDir;
      this.aiPosts := aiPosts;
      this.stampFile := stampFile;
      stdout := [];
    }
  }

  /** What a generation run depends on besides the agent: dates, search results, page texts, a writable temp folder. */
  datatype World = World(today: string, stamp: string, results: seq<ResearcherPost.SearchResult>,
                         pages: map<string, string>, tmpWritable: bool)

  /**
   * The generator an agent runs and what it yields, with the timestamp file afterwards: the
   * artist type runs `ArtistPostGenerator` (which records its timestamp), any other type the
   * researcher generator, which fails at the search when the agent has no search client.
   */
  function RunGenerator(agentType: string, topic: Option<string>, imagePrompt: Option<string>, paths: Paths,
                        s: Services, braveClient: bool, w: World, stampFile: Option<string>): (r: (Generated, Option<string>))
    ensures agentType != ArtistType ==> r.1 == stampFile
    ensures agentType != ArtistType && !braveClient ==> r.0 == NoneTriple
  {
    if agentType == ArtistType then
      ArtistPost.GenerateSpec(s, paths, imagePrompt, w.today, w.stamp, stampFile, w.tmpWritable)
    else if braveClient then
      (ResearcherPost.GenerateSpec(s, paths, topic, w.today, w.results, w.pages), stampFile)
    else (NoneTriple, stampFile)
  }

  class BlogAgent {
    const agentName: string
    const agentType: string
    const topic: Option<string>
    const imagePrompt: Option<string>
    const paths: Paths
    /** The open sessions, by the order they were opened in. */
    var sessions: seq<nat>
    /** How many sessions were ever opened; the next one is numbered `created`. */
    var created: nat
    /** The sessions cleanup has tried to close, in order. */
    var closeAttempts: seq<nat>
    var anthropic: bool
    var braveClient: bool
    var isClosed: bool

    /** Every session opened is either still open or was handed to cleanup once, in opening order. */
    predicate Valid()
      reads this
    {
      closeAttempts + sessions == Range(created) && (isClosed ==> sessions == [] && !anthropic && !braveClient)
    }

    constructor(agentName: string, agentType: string, topic: Option<string>, imagePrompt: Option<string>, promptsBase: string)
      ensures this.agentName == agentName && this.agentType == agentType && this.topic == topic
      ensures this.imagePrompt == imagePrompt && paths == AgentPaths(promptsBase, agentName)
      ensures sessions == [] && created == 0 && closeAttempts == [] && !anthropic && !braveClient && !isClosed
      ensures Valid()
    {
      this.agentName := agentName;
      this.agentType := agentType;
      this.topic := topic;
      this.imagePrompt := imagePrompt;
      paths := AgentPaths(promptsBase, agentName);
      sessions := [];
      created := 0;
      closeAttempts := [];
      anthropic := false;
      braveClient := false;
      isClosed := false;
    }

    /** `create_session`: opens a session and tracks it. */
    method CreateSession()
      requires Valid() && !isClosed
      modifies this`sessions, this`created
      ensures sessions == old(sessions) + [old(created)] && created == old(created) + 1
      ensures Valid()
    {
      sessions := sessions + [created];
      created := created + 1;
    }

    /**
     * `cleanup`: the first call tries to close every tracked session and then drops the
     * sessions and both services and marks the agent closed; later calls do nothing.
     */
    method Cleanup()
      requires Valid()
      modifies this`sessions, this`closeAttempts, this`anthropic, this`braveClient, this`isClosed
      ensures Valid() && isClosed
      ensures old(isClosed) ==> closeAttempts == old(closeAttempts) && sessions == old(sessions)
      ensures !old(isClosed) ==> closeAttempts == old(closeAttempts) + old(sessions) && sessions == []
      ensures !anthropic && !braveClient
    {
      if isClosed {
        return;
      }
      var open := sessions;
      for i := 0 to |open|
        invariant closeAttempts == old(closeAttempts) + open[..i]
        invariant sessions == open && created == old(created) && !isClosed
        invariant anthropic == old(anthropic) && braveClient == old(braveClient)
      {
        // a session that fails to close is logged; the loop goes on
        assert open[..i + 1] == open[..i] + [open[i]];
        closeAttempts := closeAttempts + [open[i]];
      }
      assert open[..|open|] == open;
      assert closeAttempts + [] == old(closeAttempts) + open == Range(created);
      isClosed := true;
      sessions := [];
      anthropic := false;
      braveClient := false;
    }

    /**
     * `initialize_services`: raises on a closed agent; otherwise opens the main session,
     * sets up the Anthropic service with its own session and, for the researcher, the
     * search client with its session. A search client without `BRAVE_API_KEY` raises,
     * after cleanup. `raised` is the exception's message.
     */
    method InitializeServices(braveKey: Option<string>) returns (raised: Option<string>)
      requires Valid()
      modifies this`sessions, this`created, this`closeAttempts, this`anthropic, this`braveClient, this`isClosed
      ensures Valid()
      ensures old(isClosed) ==> raised == Some("Agent has been closed") && created == old(created) && isClosed
      ensures !old(isClosed) && (agentType != ResearcherType || Truthy(braveKey)) ==>
        (raised.None? && !isClosed && anthropic && braveClient == (agentType == ResearcherType || old(braveClient))
         && sessions == old(sessions) + [old(created), old(created) + 1]
                        + (if agentType == ResearcherType then [old(created) + 2] else [])
         && created == old(created) + (if agentType == ResearcherType then 3 else 2))
      ensures !old(isClosed) && agentType == ResearcherType && !Truthy(braveKey) ==>
        (raised == Some("BRAVE_API_KEY not found in environment variables") && isClosed
         && created == old(created) + 2 && closeAttempts == old(closeAttempts) + old(sessions) + [old(created), old(created) + 1])
    {
      if isClosed {
        return Some("Agent has been closed");
      }
      ghost var c, open, closed := created, sessions, closeAttempts;
      CreateSession();
      anthropic := true;
      CreateSession();
      assert sessions == open + [c, c + 1] && created == c + 2 && closeAttempts == closed;
      if agentType == ResearcherType {
        if !Truthy(braveKey) {
          Cleanup();
          assert closeAttempts == closed + (open + [c, c + 1]);
          return Some("BRAVE_API_KEY not found in environment variables");
        }
        braveClient := true;
        CreateSession();
      }
      raised := None;
    }

    /** The agent's services as the generators see them: asking works only while the Anthropic service is set up. */
    function Svc(files: map<string, string>, model: string -> string): Services
      reads this
    {
      Services(files, model, anthropic)
    }

    /**
     * `generate_blog_post`: runs the generator for the agent's type; its `finally` calls
     * `close`, which does nothing because the agent never has a `client`.
     */
    method GenerateBlogPost(host: Host, files: map<string, string>, model: string -> string, w: World)
      returns (r: Generated)
      modifies host`stampFile
      ensures (r, host.stampFile) ==
        RunGenerator(agentType, topic, imagePrompt, paths, Svc(files, model), braveClient, w, old(host.stampFile))
    {
      if agentType == ArtistType {
        r, host.stampFile := ArtistPost.Generate(Svc(files, model), paths, imagePrompt, w.today, w.stamp, host.stampFile, w.tmpWritable);
      } else if braveClient {
        r := ResearcherPost.Generate(Svc(files, model), paths, topic, w.today, w.results, w.pages);
      } else {
        r := NoneTriple;
      }
    }

    /**
     * `save_to_content`: writes the post into the AI posts folder and prints
     * `FILE_PATH=<path>`; a failed write gives `None` and prints nothing.
     */
    method SaveToContent(host: Host, filename: string, content: string, writable: bool) returns (path: Option<string>)
      modifies host`aiPosts, host`stdout
      ensures writable ==>
        (path == Some(PathJoin(host.postsDir, filename))
         && host.aiPosts == old(host.aiPosts)[filename := content]
         && host.stdout == old(host.stdout) + ["FILE_PATH=" + path.value])
      ensures !writable ==> path.None? && host.aiPosts == old(host.aiPosts) && host.stdout == old(host.stdout)
    {
      if !writable {
        return None;
      }
      host.aiPosts := host.aiPosts[filename := content];
      path := Some(PathJoin(host.postsDir, filename));
      host.stdout := host.stdout + ["FILE_PATH=" + path.value];
    }

    /**
     * `process`: sets the services up, runs the generator and cleans up. A failed set-up
     * raises (`Err`), on a closed agent or with the agent cleaned up; either way every
     * session the agent opened has been handed to cleanup exactly once.
     */
    method Process(host: Host, files: map<string, string>, model: string -> string, w: World, braveKey: Option<string>)
      returns (r: Result<Generated, string>)
      requires Valid()
      modifies this`sessions, this`created, this`closeAttempts, this`anthropic, this`braveClient, this`isClosed, host`stampFile
      ensures Valid() && isClosed && closeAttempts == Range(created)
      ensures r.Err? <==> old(isClosed) || (agentType == ResearcherType && !Truthy(braveKey))
      ensures r.Ok? ==>
        (r.value, host.stampFile) == RunGenerator(agentType, topic, imagePrompt, paths, Services(files, model, true),
                                                  agentType == ResearcherType || old(braveClient), w, old(host.stampFile))
      ensures r.Err? ==> host.stampFile == old(host.stampFile)
    {
      var raised := InitializeServices(braveKey);
      if raised.Some? {
        return Err(raised.value);
      }
      var generated := GenerateBlogPost(host, files, model, w);
      Cleanup();
      r := Ok(generated);
    }
  }

  /**
   * `BlogAgent(...)`: the agent, or the `ValueError` its validation raises when
   * `ANTHROPIC_API_KEY` is unset or empty or the type is neither known type.
   */
  method NewAgent(agentName: string, agentType: string, topic: Option<string>, imagePrompt: Option<string>,
                  promptsBase: string, apiKey: Option<string>) returns (r: Result<BlogAgent, string>)
    ensures r.Ok? <==> Truthy(apiKey) && (agentType == ResearcherType || agentType == ArtistType)
    ensures !Truthy(apiKey) ==> r == Err("ANTHROPIC_API_KEY not found in environment variables")
    ensures Truthy(apiKey) && r.Err? ==> r == Err("Invalid agent_type: " + agentType)
    ensures r.Ok? ==>
      (fresh(r.value) && r.value.Valid() && !r.value.isClosed && r.value.created == 0
       && r.value.agentType == agentType && r.value.topic == topic && r.value.imagePrompt == imagePrompt
       && r.value.paths == AgentPaths(promptsBase, agentName))
  {
    var agent := new BlogAgent(agentName, agentType, topic, imagePrompt, promptsBase);
    if !Truthy(apiKey) {
      return Err("ANTHROPIC_API_KEY not found in environment variables");
    }
    if agentType != ResearcherType && agentType != ArtistType {
      return Err("Invalid agent_type: " + agentType);
    }
    r := Ok(agent);
  }
}
