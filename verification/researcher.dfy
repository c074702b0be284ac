/**
 * `ResearcherPostGenerator` (`generators/researcher.py`): loads its templates, gathers
 * research from the first three search results, asks the model for the post, and builds
 * the file name and page. Search results, page texts and model replies are parameters.
 */
module ResearcherPost {
  import opened Wrappers
  import opened Strings
  import opened PyFormat
  import opened AgentText
  import opened Templates

  /** The templates the researcher loads, in the order it reads them. */
  function TemplateEntries(p: Paths): seq<(string, string)> {
    [("agent_prompt", p.agentPrompt), ("enhanced_prompt", p.enhancedPrompt), ("disclaimer", p.disclaimer),
     ("frontmatter", p.frontmatter), ("blog_template", p.blogPageTemplate), ("summarize_content", p.summarizeContent)]
  }

  /** A loaded set of templates has every name of the list. */
  lemma TemplatesLoaded(s: Services, p: Paths)
    requires LoadSpec(s, TemplateEntries(p)).Ok?
    ensures var t := LoadSpec(s, TemplateEntries(p)).value;
      "agent_prompt" in t && "enhanced_prompt" in t && "disclaimer" in t && "frontmatter" in t
      && "blog_template" in t && "summarize_content" in t
  {
    var e := TemplateEntries(p);
    LoadContents(s, e);
    assert e[0].0 == "agent_prompt" && e[1].0 == "enhanced_prompt" && e[2].0 == "disclaimer";
    assert e[3].0 == "frontmatter" && e[4].0 == "blog_template" && e[5].0 == "summarize_content";
  }

  // ---------------------------------------------------------------------------------------
  // research

  /** A search hit's `title`, `url` and `description` members, each possibly absent. */
  datatype SearchResult = SearchResult(title: Option<string>, url: Option<string>, description: Option<string>)

  /** One kept source: its title, URL, description and the model's summary of its page. */
  datatype Research = Research(title: string, url: string, description: string, summary: string)

  /** `result.get(key, '')` */
  function Get(o: Option<string>): string {
    if o.Some? then o.value else ""
  }

  /** The results `_gather_research` looks at: the first three. */
  function Top3(results: seq<SearchResult>): (top: seq<SearchResult>)
    ensures |top| <= 3 && |top| <= |results| && top == results[..|top|]
    ensures |results| >= 3 ==> |top| == 3
  {
    if |results| <= 3 then results else results[..3]
  }

  /**
   * The research gathered from `results` in order: a result whose page yields no text is
   * skipped, the others are kept with the model's summary. `pages` maps a URL to the text
   * fetched from it (a URL missing from it could not be fetched); `summarize` is the
   * summarising template. A result without `url` raises `KeyError`, and so does asking
   * without a model.
   */
  function GatherSpec(s: Services, summarize: string, pages: map<string, string>, results: seq<SearchResult>)
    : Result<seq<Research>, string>
    decreases |results|
  {
    if |results| == 0 then Ok([])
    else
      var prev := GatherSpec(s, summarize, pages, results[..|results| - 1]);
      var r := results[|results| - 1];
      if prev.Err? then prev
      else if r.url.None? then Err("'url'")
      else if r.url.value !in pages || pages[r.url.value] == "" then prev
      else
        var summary := Ask(s, summarize + "\n\n" + pages[r.url.value]);
        if summary.None? then Err("'NoneType' object has no attribute 'ask'")
        else Ok(prev.value + [Research(Get(r.title), r.url.value, Get(r.description), summary.value)])
  }

  /** A result whose URL yielded page text: the ones `_gather_research` keeps. */
  predicate Fetched(pages: map<string, string>, r: SearchResult) {
    r.url.Some? && r.url.value in pages && pages[r.url.value] != ""
  }

  /** The results whose page yielded text, in their order. */
  function FetchedResults(pages: map<string, string>, results: seq<SearchResult>): (kept: seq<SearchResult>)
    ensures |kept| <= |results|
    ensures forall r :: r in kept <==> r in results && Fetched(pages, r)
    decreases |results|
  {
    if |results| == 0 then []
    else
      var last := results[|results| - 1];
      FetchedResults(pages, results[..|results| - 1]) + (if Fetched(pages, last) then [last] else [])
  }

  /**
   * The gathered research is exactly the results whose page yielded text, in their order,
   * each with the result's own URL, title and description.
   */
  lemma {:induction false} GatherKeepsFetched(s: Services, summarize: string, pages: map<string, string>, results: seq<SearchResult>)
    requires GatherSpec(s, summarize, pages, results).Ok?
    ensures var data := GatherSpec(s, summarize, pages, results).value;
      var kept := FetchedResults(pages, results);
      |data| == |kept|
      && forall i :: 0 <= i < |data| ==>
        Some(data[i].url) == kept[i].url && data[i].title == Get(kept[i].title)
        && data[i].description == Get(kept[i].description)
    decreases |results|
  {
    if |results| > 0 {
      var init := results[..|results| - 1];
      GatherKeepsFetched(s, summarize, pages, init);
    }
  }

  /** Once a prefix of the results raises, gathering all of them raises the same way. */
  lemma {:induction false} GatherStopsAtError(s: Services, summarize: string, pages: map<string, string>, results: seq<SearchResult>, n: nat)
    requires n <= |results| && GatherSpec(s, summarize, pages, results[..n]).Err?
    ensures GatherSpec(s, summarize, pages, results) == GatherSpec(s, summarize, pages, results[..n])
    decreases |results| - n
  {
    if n < |results| {
      assert results[..n + 1][..n] == results[..n];
      GatherStopsAtError(s, summarize, pages, results, n + 1);
    } else {
      assert results[..n] == results;
    }
  }

  /** `_gather_research`, with the search results given: at most three sources, in order. */
  method GatherResearch(s: Services, summarize: string, pages: map<string, string>, results: seq<SearchResult>)
    returns (r: Result<seq<Research>, string>)
    ensures r == GatherSpec(s, summarize, pages, Top3(results))
    ensures r.Ok? ==> |r.value| <= 3
  {
    var top := Top3(results);
    var data := [];
    for i := 0 to |top|
      invariant GatherSpec(s, summarize, pages, top[..i]) == Ok(data)
    {
      assert top[..i + 1][..i] == top[..i];
      var result := top[i];
      if result.url.None? {
        GatherStopsAtError(s, summarize, pages, top, i + 1);
        return Err("'url'");
      }
      var url := result.url.value;
      if url in pages && pages[url] != "" {
        var summary := Ask(s, summarize + "\n\n" + pages[url]);
        if summary.None? {
          GatherStopsAtError(s, summarize, pages, top, i + 1);
          return Err("'NoneType' object has no attribute 'ask'");
        }
        data := data + [Research(Get(result.title), url, Get(result.description), summary.value)];
      }
    }
    assert top[..|top|] == top;
    r := Ok(data);
    GatherKeepsFetched(s, summarize, pages, top);
  }

  /** One source's block in the research summary; an empty summary reads "No summary available.". */
  function Block(d: Research): string {
    "Source: " + d.title + "\nURL: " + d.url + "\n\nDescription:\n" + d.description
      + "\n\nDetailed Summary:\n" + (if d.summary == "" then "No summary available." else d.summary)
  }

  /** `_format_research_summary`: the blocks joined by blank lines; "" for no research. */
  function ResearchSummary(data: seq<Research>): (text: string)
    ensures text == "" <==> |data| == 0
    ensures |data| > 0 ==> StartsWith(text, "Source: ")
    ensures |data| > 0 ==> EndsWith(text, Block(data[|data| - 1]))
  {
    if |data| == 0 then ""
    else if |data| == 1 then Block(data[0])
    else
      var prev := ResearchSummary(data[..|data| - 1]);
      assert (prev + "\n\n" + Block(data[|data| - 1]))[..8] == prev[..8];
      prev + "\n\n" + Block(data[|data| - 1])
  }

  // ---------------------------------------------------------------------------------------
  // prompt, pages, file name

  /** `_format_prompt`: the formatted agent prompt, a blank line, then the formatted enhanced prompt. */
  function FormatPrompt(t: map<string, string>, topic: Option<string>, today: string, summary: string)
    : (r: Result<string, string>)
    requires "agent_prompt" in t && "enhanced_prompt" in t && "disclaimer" in t
    ensures var agent := Format(t["agent_prompt"], map["topic" := Show(topic), "today" := today, "disclaimer" := t["disclaimer"]]);
      var enhanced := Format(t["enhanced_prompt"], map["research_summary" := summary, "topic" := Show(topic)]);
      (r.Ok? <==> agent.Ok? && enhanced.Ok?)
      && (r.Ok? ==> r.value == agent.value + "\n\n" + enhanced.value)
  {
    var agent := Format(t["agent_prompt"], map["topic" := Show(topic), "today" := today, "disclaimer" := t["disclaimer"]]);
    var enhanced := Format(t["enhanced_prompt"], map["research_summary" := summary, "topic" := Show(topic)]);
    if agent.Err? then agent
    else if enhanced.Err? then enhanced
    else Ok(agent.value + "\n\n" + enhanced.value)
  }

  /** `_format_pages`: the front matter, then the page built around it. */
  function FormatPage(t: map<string, string>, m: Metadata, content: string, author: string): Result<string, string>
    requires "frontmatter" in t && "blog_template" in t && "disclaimer" in t
  {
    var front := Format(t["frontmatter"], map["title" := m.title, "tags" := m.tags, "date" := m.date, "author" := author]);
    if front.Err? then front
    else Format(t["blog_template"], map["frontmatter" := front.value, "disclaimer" := t["disclaimer"], "content" := content])
  }

  /**
   * `generate` with the search call going to the client's `search` method: the file name
   * and page, or `NoneTriple` when a template is empty, gathering or formatting raises, or
   * the model returns no content.
   */
  function GenerateSpec(s: Services, paths: Paths, topic: Option<string>, today: string,
                        results: seq<SearchResult>, pages: map<string, string>): (r: Generated)
    ensures LoadSpec(s, TemplateEntries(paths)).Err? ==> r == NoneTriple
    ensures r.Post? ==>
      var name := r.filename;
      |name| >= |today| + 4 && name[..|today| + 1] == today + "-" && EndsWith(name, ".md")
      && |Split(name[|today| + 1..|name| - 3], '-')| == 5
  {
    var loaded := LoadSpec(s, TemplateEntries(paths));
    if loaded.Err? then NoneTriple
    else
      var t := loaded.value;
      TemplatesLoaded(s, paths);
      var data := GatherSpec(s, t["summarize_content"], pages, Top3(results));
      if data.Err? then NoneTriple
      else
        var prompt := FormatPrompt(t, topic, today, ResearchSummary(data.value));
        if prompt.Err? then NoneTriple
        else
          var content := Ask(s, prompt.value);
          if !Truthy(content) then NoneTriple
          else
            var m := PostMetadata(s, paths, content, today);
            var page := FormatPage(t, m, content.value, "AI Agent Researcher");
            if page.Err? then NoneTriple
            else
              var name := PostFilename(today, m.titleSummary);
              assert name[|today| + 1..|name| - 3] == m.titleSummary;
              Post(name, page.value)
  }

  /** A model that returns no content for the post prompt makes the run return `NoneTriple`. */
  lemma NoContentNoPost(s: Services, paths: Paths, topic: Option<string>, today: string,
                        results: seq<SearchResult>, pages: map<string, string>)
    requires !s.askable
    ensures GenerateSpec(s, paths, topic, today, results, pages) == NoneTriple
  {
  }

  /** `generate`, as specified by `GenerateSpec`. */
  method Generate(s: Services, paths: Paths, topic: Option<string>, today: string,
                  results: seq<SearchResult>, pages: map<string, string>) returns (r: Generated)
    ensures r == GenerateSpec(s, paths, topic, today, results, pages)
  {
    var loaded := LoadTemplates(s, TemplateEntries(paths));
    if loaded.Err? {
      return NoneTriple;
    }
    var t := loaded.value;
    TemplatesLoaded(s, paths);
    var data := GatherResearch(s, t["summarize_content"], pages, results);
    if data.Err? {
      return NoneTriple;
    }
    var prompt := FormatPrompt(t, topic, today, ResearchSummary(data.value));
    if prompt.Err? {
      return NoneTriple;
    }
    var content := Ask(s, prompt.value);
    if !Truthy(content) {
      return NoneTriple;
    }
    var m := PostMetadata(s, paths, content, today);
    var page := FormatPage(t, m, content.value, "AI Agent Researcher");
    if page.Err? {
      return NoneTriple;
    }
    r := Post(PostFilename(today, m.titleSummary), page.value);
  }

  /**
   * `generate` as written: `_gather_research` calls `search_topic`, which the search client
   * does not define, so every run that gets past the templates raises `AttributeError`
   * and returns `NoneTriple`.
   */
  method GenerateAsWritten(s: Services, paths: Paths) returns (r: Generated)
    ensures r == NoneTriple
  {
    var loaded := LoadTemplates(s, TemplateEntries(paths));
    if loaded.Err? {
      return NoneTriple;
    }
    // `self.agent.brave_client.search_topic(...)` raises AttributeError here
    r := NoneTriple;
  }

  /**
   * A run that the search-method name breaks: every template present, no search results,
   * and a model that answers. The corrected generator produces a post; as written, it
   * returns `NoneTriple` (`GenerateAsWritten`).
   */
  lemma SearchTopicBreaksRun()
    ensures var paths := AgentPaths("prompts", "topic_researcher");
      var e := TemplateEntries(paths);
      var s := Services(map[e[0].1 := "x", e[1].1 := "x", e[2].1 := "x", e[3].1 := "x", e[4].1 := "x", e[5].1 := "x"],
                        (q: string) => "text", true);
      GenerateSpec(s, paths, Some("AI"), "2024-01-01", [], map[]).Post?
  {
    var paths := AgentPaths("prompts", "topic_researcher");
    var e := TemplateEntries(paths);
    var s := Services(map[e[0].1 := "x", e[1].1 := "x", e[2].1 := "x", e[3].1 := "x", e[4].1 := "x", e[5].1 := "x"],
                      (q: string) => "text", true);
    LoadOkIff(s, e);
    TemplatesLoaded(s, paths);
    LoadContents(s, e);
    var t := LoadSpec(s, e).value;
    assert forall k :: k in t ==> t[k] == "x";
    forall args: map<string, string> ensures Format("x", args) == Ok("x") {
      FormatLiteral("x", args);
    }
  }
}
