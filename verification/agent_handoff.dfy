/**
 * The handoff between a deploy manager and the content agent it runs: the agent's command
 * line, the `FILE_PATH=` line the manager looks for in the agent's output, and the blog
 * URL made from that path.
 */
module AgentHandoff {
  import opened Strings
  import opened Wrappers

  /** A keyword argument of `main(agent_type, agent_name, **kwargs)`; `None` when not given. */
  datatype Kwarg = Kwarg(key: string, value: Option<string>)

  /** The two arguments a given keyword argument adds to the command. */
  function Flag(k: Kwarg): seq<string> {
    if k.value.Some? then ["--" + k.key, k.value.value] else []
  }

  /** The arguments for the keyword arguments, in their order, skipping those that are `None`. */
  function Flags(kwargs: seq<Kwarg>): (args: seq<string>)
    ensures |args| % 2 == 0
  {
    if |kwargs| == 0 then [] else Flags(kwargs[..|kwargs| - 1]) + Flag(kwargs[|kwargs| - 1])
  }

  /** The keyword arguments that were given, as (key, value) pairs in order. */
  function Given(kwargs: seq<Kwarg>): seq<(string, string)> {
    if |kwargs| == 0 then []
    else
      var k := kwargs[|kwargs| - 1];
      Given(kwargs[..|kwargs| - 1]) + (if k.value.Some? then [(k.key, k.value.value)] else [])
  }

  /** An option name without its leading `--`. */
  function OptionName(a: string): string {
    if StartsWith(a, "--") then a[2..] else a
  }

  /** Reads `--key value` pairs back, as the agent's argument parser does. */
  function ParseFlags(args: seq<string>): seq<(string, string)>
    decreases |args|
  {
    if |args| < 2 then [] else [(OptionName(args[0]), args[1])] + ParseFlags(args[2..])
  }

  lemma {:induction false} ParseFlagsAppend(args: seq<string>, x: string, y: string)
    requires |args| % 2 == 0
    ensures ParseFlags(args + [x, y]) == ParseFlags(args) + [(OptionName(x), y)]
    decreases |args|
  {
    if |args| == 0 {
      assert args + [x, y] == [x, y];
      assert [x, y][2..] == [];
    } else {
      assert (args + [x, y])[2..] == args[2..] + [x, y];
      ParseFlagsAppend(args[2..], x, y);
    }
  }

  /** Parsing the flags gives back exactly the keyword arguments that were given. */
  lemma {:induction false} FlagsRoundTrip(kwargs: seq<Kwarg>)
    ensures ParseFlags(Flags(kwargs)) == Given(kwargs)
    decreases |kwargs|
  {
    if |kwargs| > 0 {
      var init := kwargs[..|kwargs| - 1];
      var k := kwargs[|kwargs| - 1];
      FlagsRoundTrip(init);
      if k.value.Some? {
        ParseFlagsAppend(Flags(init), "--" + k.key, k.value.value);
        assert OptionName("--" + k.key) == k.key;
      } else {
        assert Flags(init) + [] == Flags(init);
      }
    }
  }

  /** The fixed start of the agent command. */
  function AgentCommand(python: string, script: string, agentType: string, agentName: string): seq<string> {
    [python, script, "--agent_type", agentType, "--agent_name", agentName]
  }

  /** Builds the agent command, extending it with the flags of each given keyword argument. */
  method BuildAgentCommand(python: string, script: string, agentType: string, agentName: string, kwargs: seq<Kwarg>)
    returns (cmd: seq<string>)
    ensures cmd == AgentCommand(python, script, agentType, agentName) + Flags(kwargs)
  {
    cmd := AgentCommand(python, script, agentType, agentName);
    for i := 0 to |kwargs|
      invariant cmd == AgentCommand(python, script, agentType, agentName) + Flags(kwargs[..i])
    {
      assert kwargs[..i + 1][..i] == kwargs[..i];
      if kwargs[i].value.Some? {
        cmd := cmd + ["--" + kwargs[i].key, kwargs[i].value.value];
      }
    }
    assert kwargs[..|kwargs|] == kwargs;
  }

  // ---------------------------------------------------------------------------------------
  // the FILE_PATH= line

  const FilePathPrefix := "FILE_PATH="

  /** `s.split(c, 1)[1]`: the text after the first `c`. */
  function AfterFirst(s: string, c: char): string
    requires c in s
  {
    if s[0] == c then s[1..] else AfterFirst(s[1..], c)
  }

  /** On a `FILE_PATH=` line the first `=` is the prefix's own. */
  lemma AfterFirstOnPrefixed(line: string)
    requires StartsWith(line, FilePathPrefix)
    ensures '=' in line && AfterFirst(line, '=') == line[|FilePathPrefix|..]
  {
    assert line[9] == '=';
    var s := line;
    assert forall i :: 0 <= i < 9 ==> line[i] != '=' by {
      assert line[..10] == FilePathPrefix;
    }
    var k := 0;
    while k < 9
      invariant 0 <= k <= 9
      invariant AfterFirst(line, '=') == AfterFirst(line[k..], '=')
    {
      assert line[k..][0] == line[k] && line[k..][1..] == line[k + 1..];
      k := k + 1;
    }
    assert line[9..][1..] == line[10..];
  }

  /** The index of the first line starting with `FILE_PATH=`, or the number of lines when none does. */
  function PathLineIndex(lines: seq<string>): (k: nat)
    ensures k <= |lines|
    ensures forall j :: 0 <= j < k ==> !StartsWith(lines[j], FilePathPrefix)
    ensures k < |lines| ==> StartsWith(lines[k], FilePathPrefix)
    decreases |lines|
  {
    if |lines| == 0 || StartsWith(lines[0], FilePathPrefix) then 0
    else
      var k := PathLineIndex(lines[1..]);
      assert forall j :: 1 <= j < k + 1 ==> lines[j] == lines[1..][j - 1];
      k + 1
  }

  /** A position with no `FILE_PATH=` line before it and one at it (or the end) is the first. */
  lemma PathLineIndexIs(lines: seq<string>, i: nat)
    requires i <= |lines|
    requires forall j :: 0 <= j < i ==> !StartsWith(lines[j], FilePathPrefix)
    requires i < |lines| ==> StartsWith(lines[i], FilePathPrefix)
    ensures PathLineIndex(lines) == i
  {
  }

  /**
   * The path the scan finds: after the first `=` of the first line starting with
   * `FILE_PATH=`, with whitespace stripped; `None` when no line starts that way.
   */
  function FirstFilePath(lines: seq<string>): (r: Option<string>)
    ensures var k := PathLineIndex(lines);
      (r.Some? <==> k < |lines|) && (r.Some? ==> r.value == Strip(lines[k][|FilePathPrefix|..]))
  {
    var k := PathLineIndex(lines);
    if k == |lines| then None
    else
      AfterFirstOnPrefixed(lines[k]);
      Some(Strip(AfterFirst(lines[k], '=')))
  }

  // ---------------------------------------------------------------------------------------
  // the blog URL

  const ProtoblogPosts := "https://protoblog.protomota.com/posts"

  /**
   * `get_latest_file` of the singleton managers: the post's URL on the AI blog when the
   * file exists, otherwise "Post file not found at <path>".
   */
  function PostUrlFor(path: string, existing: set<string>): (r: Result<string, string>)
    ensures r.Ok? <==> path in existing
    ensures r.Err? ==> r.error == "Post file not found at " + path
    ensures r.Ok? ==> StartsWith(r.value, ProtoblogPosts + "/") && EndsWith(r.value, "/")
  {
    if path !in existing then Err("Post file not found at " + path)
    else
      var url := ProtoblogPosts + "/" + Lower(Stem(path)) + "/";
      assert url[..|ProtoblogPosts + "/"|] == ProtoblogPosts + "/";
      assert url[|url| - 1..] == "/";
      Ok(url)
  }

  /** What the handoff yields: the manager's `file_path` afterwards, and the post URL or the error message. */
  datatype Handoff = Handoff(filePath: Option<string>, outcome: Result<string, string>)

  /**
   * The part of `main` after the agent ran: its failure, the path scan (a path found in an
   * earlier run stays when this output has none), the missing-path check and the URL.
   */
  function HandoffSpec(reply: (bool, string), before: Option<string>, existing: set<string>): Handoff {
    if !reply.0 then Handoff(before, Err("AI agent execution failed: " + reply.1))
    else
      var found := FirstFilePath(Split(reply.1, '\n'));
      var p := if found.Some? then found else before;
      if !Truthy(p) then Handoff(p, Err("Failed to get file path from AI agent output"))
      else
        var u := PostUrlFor(p.value, existing);
        if u.Err? then Handoff(p, Err("Failed to process file: " + u.error)) else Handoff(p, u)
  }

  /**
   * A handoff succeeds only after a successful agent run, and then with the URL of an
   * existing file whose path is non-empty.
   */
  lemma HandoffSucceeds(reply: (bool, string), before: Option<string>, existing: set<string>)
    ensures var h := HandoffSpec(reply, before, existing);
      h.outcome.Ok? <==> reply.0 && Truthy(h.filePath) && h.filePath.value in existing
  {
    if reply.0 {
      var found := FirstFilePath(Split(reply.1, '\n'));
      var p := if found.Some? then found else before;
      assert HandoffSpec(reply, before, existing).filePath == p;
      if Truthy(p) {
        var u := PostUrlFor(p.value, existing);
        assert u.Ok? <==> p.value in existing;
      }
    }
  }

  /**
   * Without a previous path, a successful handoff means the agent printed a `FILE_PATH=`
   * line, and the path is what that line names.
   */
  lemma FreshHandoffNeedsPathLine(reply: (bool, string), existing: set<string>)
    ensures var h := HandoffSpec(reply, None, existing);
      h.outcome.Ok? ==> (h.filePath == FirstFilePath(Split(reply.1, '\n'))
        && exists i :: 0 <= i < |Split(reply.1, '\n')| && StartsWith(Split(reply.1, '\n')[i], FilePathPrefix))
  {
  }

  /**
   * The singleton keeps `file_path` between runs: an agent run that prints no `FILE_PATH=`
   * line still succeeds, with the previous run's path and URL.
   */
  lemma PreviousPathReused(output: string, previous: string, existing: set<string>)
    requires forall line :: line in Split(output, '\n') ==> !StartsWith(line, FilePathPrefix)
    requires previous != "" && previous in existing
    ensures HandoffSpec((true, output), Some(previous), existing) ==
      Handoff(Some(previous), PostUrlFor(previous, existing))
  {
    var lines := Split(output, '\n');
    assert forall i :: 0 <= i < |lines| ==> !StartsWith(lines[i], FilePathPrefix) by {
      forall i | 0 <= i < |lines| ensures !StartsWith(lines[i], FilePathPrefix) {
        assert lines[i] in lines;
      }
    }
  }

  // ---------------------------------------------------------------------------------------
  // the singleton managers

  /**
   * The state of a singleton deploy manager (`AIDeployManager` and the admin panel's
   * `DeployManager`): whether `__init__` has run, and `file_path`.
   */
  class HandoffManager {
    var initialized: bool
    var filePath: Option<string>

    /** `__new__` on first use: a new object whose initialisation has not run yet. */
    constructor ()
      ensures !initialized && filePath == None
    {
      initialized := false;
      filePath := None;
    }

    /** `__init__`: the first call sets `file_path` to None; later calls return at once. */
    method Init()
      modifies this
      ensures initialized
      ensures filePath == if old(initialized) then old(filePath) else None
    {
      if initialized {
        return;
      }
      filePath := None;
      initialized := true;
    }

    /**
     * The scan of the agent's output: the path of the first `FILE_PATH=` line, or, when
     * there is none, `file_path` as it was.
     */
    method ScanFilePath(output: string)
      modifies this`filePath
      ensures var found := FirstFilePath(Split(output, '\n'));
        filePath == if found.Some? then found else old(filePath)
    {
      var lines := Split(output, '\n');
      var i := 0;
      while i < |lines|
        invariant 0 <= i <= |lines|
        invariant forall j :: 0 <= j < i ==> !StartsWith(lines[j], FilePathPrefix)
        invariant filePath == old(filePath)
      {
        if StartsWith(lines[i], FilePathPrefix) {
          PathLineIndexIs(lines, i);
          AfterFirstOnPrefixed(lines[i]);
          filePath := Some(Strip(AfterFirst(lines[i], '=')));
          return;
        }
        i := i + 1;
      }
      PathLineIndexIs(lines, i);
    }
  }

  /** The class attribute `_instance`: the one manager, once something constructed it. */
  class Registry {
    var instance: HandoffManager?

    constructor ()
      ensures instance == null
    {
      instance := null;
    }

    predicate Valid()
      reads this, instance
    {
      instance != null ==> instance.initialized
    }

    /**
     * Constructing the manager: every construction yields the same object, and its
     * `file_path` survives from one construction to the next.
     */
    method Obtain() returns (m: HandoffManager)
      requires Valid()
      modifies this, instance
      ensures Valid() && instance == m
      ensures old(instance) == null ==> fresh(m) && m.filePath == None
      ensures old(instance) != null ==> m == old(instance) && m.filePath == old(instance.filePath)
    {
      if instance == null {
        instance := new HandoffManager();
      }
      m := instance;
      m.Init();
    }
  }
}
