/**
 * The text-producing part of `BlogAgent` (`core/agent.py`): where its prompt files live,
 * and the title, five-word summary and tags it asks the language model for. The files it
 * can read and the model's replies are given as `Services`.
 */
module AgentText {
  import opened Wrappers
  import opened Strings
  import opened PyFormat

  const ResearcherType := "blog_researcher_ai_agent"
  const ArtistType := "blog_artist_ai_agent"
  const DefaultTitle := "Default Title Post Is Here"
  const DefaultTitleSummary := "Default-Title-Post-Is-Here"

  /** `os.path.join(a, b)` for a relative `b`. */
  function PathJoin(a: string, b: string): string {
    a + "/" + b
  }

  /** The prompt and template files of an agent. */
  datatype Paths = Paths(
    agentPrompt: string, enhancedPrompt: string, disclaimer: string, blogPageTemplate: string,
    frontmatter: string, tagsPrompt: string, titlePrompt: string, fiveWordsPrompt: string,
    summarizeContent: string)

  /** Per-agent files under `<base>/<agent name>`, shared ones under `<base>/_common`. */
  function AgentPaths(promptsBase: string, agentName: string): Paths {
    var agent := PathJoin(promptsBase, agentName);
    var common := PathJoin(promptsBase, "_common");
    Paths(PathJoin(agent, "agent-prompt.txt"), PathJoin(agent, "enhanced_prompt.txt"),
      PathJoin(agent, "disclaimer.txt"), PathJoin(agent, "blog_page_template.md"),
      PathJoin(common, "frontmatter.md"), PathJoin(common, "tags_prompt.txt"),
      PathJoin(common, "summarize_for_title.txt"), PathJoin(common, "five_word_summary.txt"),
      PathJoin(common, "summarize_content.txt"))
  }

  /**
   * What the agent's collaborators answer: the files that can be read, and the language
   * model's reply to each prompt (the Anthropic service answers "" when its call fails).
   * `askable` is false when the agent has no Anthropic service, so that asking raises.
   */
  datatype Services = Services(files: map<string, string>, model: string -> string, askable: bool)

  /** `read_file`: the contents, or `None` when the file cannot be read. */
  function ReadFile(s: Services, path: string): Option<string> {
    if path in s.files then Some(s.files[path]) else None
  }

  /** `self.anthropic.ask(prompt)`: the reply, or `None` when the call raises. */
  function Ask(s: Services, prompt: string): Option<string> {
    if s.askable then Some(s.model(prompt)) else None
  }

  /**
   * Reads a prompt file, formats it with `content=`, and asks the model: the reply, or
   * `None` when reading (a `None` prompt has no `format`), formatting or asking raises.
   */
  function AskWithPrompt(s: Services, path: string, content: Option<string>): Option<string> {
    var prompt := ReadFile(s, path);
    if prompt.None? then None
    else
      var formatted := Format(prompt.value, map["content" := Show(content)]);
      if formatted.Err? then None else Ask(s, formatted.value)
  }

  const Quotes: set<char> := {'"', '\''}

  /**
   * `inner` is `outer` with `a` characters cut from its front and the rest of the
   * difference from its back, every cut character being one of `cs`.
   */
  predicate Cut(outer: string, inner: string, cs: set<char>, a: int) {
    0 <= a <= |outer| - |inner| && inner == outer[a..a + |inner|]
    && (forall k :: 0 <= k < a ==> outer[k] in cs)
    && (forall k :: a + |inner| <= k < |outer| ==> outer[k] in cs)
  }

  /** `s.strip(cs)` cuts characters of `cs` from both ends of `s`. */
  lemma StripCut(s: string, cs: set<char>)
    ensures Cut(s, StripChars(s, cs), cs, |s| - |TrimLeft(s, cs)|)
  {
    var l := TrimLeft(s, cs);
    CutOfTrims(s, l, TrimRight(l, cs), cs);
  }

  /** `s.strip(cs)` leaves no character of `cs` at either end. */
  lemma StripEnds(s: string, cs: set<char>)
    ensures var t := StripChars(s, cs);
      t == "" || (t[0] !in cs && t[|t| - 1] !in cs)
  {
    var l := TrimLeft(s, cs);
    EndsClean(l, TrimRight(l, cs), cs);
  }

  /** A right trim of a text that starts outside `cs` starts and ends outside `cs`. */
  lemma EndsClean(l: string, t: string, cs: set<char>)
    requires l == [] || l[0] !in cs
    requires |t| <= |l| && t == l[..|t|] && (t == [] || t[|t| - 1] !in cs)
    ensures t == [] || (t[0] !in cs && t[|t| - 1] !in cs)
  {
  }

  /** A left trim followed by a right trim is a cut. */
  lemma CutOfTrims(s: string, l: string, t: string, cs: set<char>)
    requires |l| <= |s| && l == s[|s| - |l|..] && |t| <= |l| && t == l[..|t|]
    requires forall i :: 0 <= i < |s| - |l| ==> s[i] in cs
    requires forall i :: |t| <= i < |l| ==> l[i] in cs
    ensures Cut(s, t, cs, |s| - |l|)
  {
    var a := |s| - |l|;
    assert forall k :: a + |t| <= k < |s| ==> s[k] == l[k - a];
  }

  /** Two cuts in a row are one cut by the union of the two sets. */
  lemma CutTwice(r: string, m: string, t: string, c1: set<char>, c2: set<char>, a: int, b: int)
    requires Cut(r, m, c1, a) && Cut(m, t, c2, b)
    ensures Cut(r, t, c1 + c2, a + b)
  {
    assert forall k :: 0 <= k < |m| ==> m[k] == r[a + k];
  }

  /** The title made of a non-empty reply: whitespace and then quotes stripped from both ends. */
  function TitleOf(reply: string): string {
    StripChars(StripChars(reply, PyWhitespace), Quotes)
  }

  /** A title is the reply with only whitespace and quote characters cut from its two ends. */
  lemma TitleOfCut(reply: string)
    ensures exists a :: Cut(reply, TitleOf(reply), PyWhitespace + Quotes, a)
  {
    var stripped := StripChars(reply, PyWhitespace);
    StripCut(reply, PyWhitespace);
    StripCut(stripped, Quotes);
    CutTwice(reply, stripped, TitleOf(reply), PyWhitespace, Quotes,
      |reply| - |TrimLeft(reply, PyWhitespace)|, |stripped| - |TrimLeft(stripped, Quotes)|);
  }

  /** A title made of a reply neither starts nor ends with a quote. */
  lemma TitleOfUnquoted(reply: string)
    ensures var title := TitleOf(reply);
      title == "" || (title[0] !in Quotes && title[|title| - 1] !in Quotes)
  {
    var l := TrimLeft(StripChars(reply, PyWhitespace), Quotes);
    EndsClean(l, TrimRight(l, Quotes), Quotes);
  }

  /**
   * `generate_title`: the default title for empty content or when the reply is empty or
   * anything raises; otherwise the reply with surrounding whitespace and then surrounding
   * quotes removed.
   */
  function Title(s: Services, paths: Paths, content: Option<string>): (title: string)
    ensures !Truthy(content) || !Truthy(AskWithPrompt(s, paths.titlePrompt, content)) ==> title == DefaultTitle
    ensures Truthy(content) && Truthy(AskWithPrompt(s, paths.titlePrompt, content)) ==>
      title == TitleOf(AskWithPrompt(s, paths.titlePrompt, content).value)
  {
    if !Truthy(content) then DefaultTitle
    else
      var reply := AskWithPrompt(s, paths.titlePrompt, content);
      if !Truthy(reply) then DefaultTitle else TitleOf(reply.value)
  }

  /** `words[:5]` when there are more than five, otherwise the words padded with "Update" to five. */
  function FiveParts(words: seq<string>): (parts: seq<string>)
    ensures |parts| == 5
    ensures forall i :: 0 <= i < 5 ==> parts[i] == if i < |words| then words[i] else "Update"
  {
    if |words| > 5 then words[..5] else words + Repeat("Update", 5 - |words|)
  }

  /** Five dash-free words joined by dashes split back into the same five words. */
  lemma FivePartsSplit(words: seq<string>)
    requires forall i :: 0 <= i < |words| ==> '-' !in words[i]
    ensures Split(Join(FiveParts(words), '-'), '-') == FiveParts(words)
  {
    SplitJoin(FiveParts(words), '-');
  }

  /** The default summary has the five parts its words spell. */
  lemma DefaultSummaryParts()
    ensures Split(DefaultTitleSummary, '-') == ["Default", "Title", "Post", "Is", "Here"]
  {
    var parts := ["Default", "Title", "Post", "Is", "Here"];
    assert Join(parts[4..], '-') == "Here";
    assert Join(parts[3..], '-') == "Is-Here" by { assert parts[3..][1..] == parts[4..]; }
    assert Join(parts[2..], '-') == "Post-Is-Here" by { assert parts[2..][1..] == parts[3..]; }
    assert Join(parts[1..], '-') == "Title-Post-Is-Here" by { assert parts[1..][1..] == parts[2..]; }
    assert Join(parts, '-') == DefaultTitleSummary;
    SplitJoin(parts, '-');
  }

  /**
   * `generate_title_summary`: the reply, stripped, with spaces turned into dashes, cut into
   * dash-separated words and trimmed or padded to five; the default when the reply is empty
   * or anything raises. Either way the result has exactly five dash-separated parts.
   */
  function TitleSummary(s: Services, paths: Paths, content: Option<string>): (summary: string)
    ensures |Split(summary, '-')| == 5
    ensures !Truthy(AskWithPrompt(s, paths.fiveWordsPrompt, content)) ==> summary == DefaultTitleSummary
    ensures Truthy(AskWithPrompt(s, paths.fiveWordsPrompt, content)) ==>
      Split(summary, '-') == FiveParts(Split(ReplaceChar(Strip(AskWithPrompt(s, paths.fiveWordsPrompt, content).value), ' ', '-'), '-'))
  {
    var reply := AskWithPrompt(s, paths.fiveWordsPrompt, content);
    if !Truthy(reply) then
      DefaultSummaryParts();
      DefaultTitleSummary
    else
      var words := Split(ReplaceChar(Strip(reply.value), ' ', '-'), '-');
      FivePartsSplit(words);
      Join(FiveParts(words), '-')
  }

  /** `generate_tags`: the model's reply, or "[]" when reading, formatting or asking raises. */
  function Tags(s: Services, paths: Paths, content: Option<string>): (tags: string)
    ensures AskWithPrompt(s, paths.tagsPrompt, content).None? <==> tags == "[]" && AskWithPrompt(s, paths.tagsPrompt, content) != Some("[]")
    ensures AskWithPrompt(s, paths.tagsPrompt, content).Some? ==> tags == AskWithPrompt(s, paths.tagsPrompt, content).value
  {
    var reply := AskWithPrompt(s, paths.tagsPrompt, content);
    if reply.None? then "[]" else reply.value
  }

  /** The name a generated post is saved under: the date, a dash, the name and `.md`. */
  function PostFilename(date: string, name: string): string {
    date + "-" + name + ".md"
  }

  /** What `generate` returns: the file name and page, or the three `None`s of a failed run. */
  datatype Generated = Post(filename: string, page: string) | NoneTriple

  /** The metadata of a post: title, tags, five-word summary and date. */
  datatype Metadata = Metadata(title: string, tags: string, titleSummary: string, date: string)

  /** `_generate_metadata` of the researcher and post-artist generators. */
  function PostMetadata(s: Services, paths: Paths, content: Option<string>, today: string): (m: Metadata)
    ensures |Split(m.titleSummary, '-')| == 5 && m.date == today
  {
    Metadata(Title(s, paths, content), Tags(s, paths, content), TitleSummary(s, paths, content), today)
  }
}
