/**
 * `ArtistPostGenerator` (`generators/artist_post.py`), the artist generator the agent
 * uses: it fixes one image timestamp, records it in `tmp/current_image_timestamp.txt` for
 * the image pipeline, builds the gallery of the four quadrant images, asks the model for
 * the post and builds the file name and page.
 */
module ArtistPost {
  import opened Wrappers
  import opened Strings
  import opened PyFormat
  import opened AgentText
  import opened Templates
  import MidjourneyWebhook

  /** The templates the artist generators load, in the order they read them. */
  function TemplateEntries(p: Paths): seq<(string, string)> {
    [("agent_prompt", p.agentPrompt), ("enhanced_prompt", p.enhancedPrompt), ("disclaimer", p.disclaimer),
     ("frontmatter", p.frontmatter), ("blog_template", p.blogPageTemplate)]
  }

  /** A loaded set of templates has every name of the list. */
  lemma TemplatesLoaded(s: Services, p: Paths)
    requires LoadSpec(s, TemplateEntries(p)).Ok?
    ensures var t := LoadSpec(s, TemplateEntries(p)).value;
      "agent_prompt" in t && "enhanced_prompt" in t && "disclaimer" in t && "frontmatter" in t && "blog_template" in t
  {
    var e := TemplateEntries(p);
    LoadContents(s, e);
    assert e[0].0 == "agent_prompt" && e[1].0 == "enhanced_prompt" && e[2].0 == "disclaimer";
    assert e[3].0 == "frontmatter" && e[4].0 == "blog_template";
  }

  /**
   * `_generate_images`: the site paths of the four quadrants for one timestamp, in the
   * order top left, top right, bottom left, bottom right. Each is the name the quadrant
   * slicer gives quadrant `i` of the image `openmid_<stamp>`, under `/images/openmid/`.
   */
  function ImagePaths(stamp: string): (paths: seq<string>)
    ensures |paths| == 4
    ensures forall i :: 0 <= i < 4 ==> paths[i] == "/images/openmid/" + MidjourneyWebhook.FullName("openmid_" + stamp, i)
  {
    seq(4, i requires 0 <= i < 4 => "/images/openmid/openmid_" + stamp + "_" + MidjourneyWebhook.Positions[i] + ".png")
  }

  const GalleryOpen := "{{< gallery images=\""
  const GalleryClose := "\" >}}"

  /** `_create_gallery_code`: the gallery shortcode with the paths, comma-separated, as its `images`. */
  function Gallery(paths: seq<string>): string {
    GalleryOpen + Join(paths, ',') + GalleryClose
  }

  /**
   * The gallery's `images` list reads back as the four paths, in order, as long as the
   * timestamp holds no comma.
   */
  lemma GalleryListsImages(stamp: string)
    requires ',' !in stamp
    ensures var g := Gallery(ImagePaths(stamp));
      StartsWith(g, GalleryOpen) && EndsWith(g, GalleryClose)
      && Split(g[|GalleryOpen|..|g| - |GalleryClose|], ',') == ImagePaths(stamp)
  {
    var paths := ImagePaths(stamp);
    forall i | 0 <= i < 4 ensures ',' !in paths[i] {
      var p := MidjourneyWebhook.Positions[i];
      assert paths[i] == "/images/openmid/openmid_" + stamp + "_" + p + ".png";
      assert ',' !in p;
    }
    SplitJoin(paths, ',');
    var g := Gallery(paths);
    assert g[|GalleryOpen|..|g| - |GalleryClose|] == Join(paths, ',');
  }

  /** `_format_prompt`: the agent prompt formatted with the image prompt, a blank line, then the enhanced prompt as it is. */
  function FormatPrompt(t: map<string, string>, imagePrompt: Option<string>): (r: Result<string, string>)
    requires "agent_prompt" in t && "enhanced_prompt" in t
    ensures var agent := Format(t["agent_prompt"], map["image_prompt" := Show(imagePrompt)]);
      (r.Ok? <==> agent.Ok?) && (r.Ok? ==> r.value == agent.value + "\n\n" + t["enhanced_prompt"])
  {
    var agent := Format(t["agent_prompt"], map["image_prompt" := Show(imagePrompt)]);
    if agent.Err? then agent else Ok(agent.value + "\n\n" + t["enhanced_prompt"])
  }

  /** `_format_pages`: the front matter, then the page with the prompt, content and gallery. */
  function FormatPage(t: map<string, string>, m: Metadata, imagePrompt: Option<string>, content: string, gallery: string)
    : Result<string, string>
    requires "frontmatter" in t && "blog_template" in t && "disclaimer" in t
  {
    var front := Format(t["frontmatter"], map["title" := m.title, "tags" := m.tags, "date" := m.date, "author" := "AI Agent Dali"]);
    if front.Err? then front
    else Format(t["blog_template"], map["frontmatter" := front.value, "disclaimer" := t["disclaimer"],
      "prompt" := Show(imagePrompt), "content" := content, "gallery" := gallery])
  }

  /**
   * `generate`: the result and the new contents of the timestamp file (`stampFile` before).
   * `stamp` is the current time as `%Y%m%d%H%M%S`, `today` as `%Y-%m-%d`; `tmpWritable`
   * is whether the timestamp file can be written.
   */
  function GenerateSpec(s: Services, paths: Paths, imagePrompt: Option<string>, today: string, stamp: string,
                        stampFile: Option<string>, tmpWritable: bool): (r: (Generated, Option<string>))
    ensures LoadSpec(s, TemplateEntries(paths)).Err? || !tmpWritable ==> r == (NoneTriple, stampFile)
    ensures LoadSpec(s, TemplateEntries(paths)).Ok? && tmpWritable ==> r.1 == Some(stamp)
    ensures r.0.Post? ==> r.1 == Some(stamp) && r.0.filename == PostFilename(today, TitleSummary(s, paths, imagePrompt))
  {
    var loaded := LoadSpec(s, TemplateEntries(paths));
    if loaded.Err? || !tmpWritable then (NoneTriple, stampFile)
    else
      var t := loaded.value;
      TemplatesLoaded(s, paths);
      var gallery := Gallery(ImagePaths(stamp));
      var prompt := FormatPrompt(t, imagePrompt);
      if prompt.Err? then (NoneTriple, Some(stamp))
      else
        var content := Ask(s, prompt.value);
        if !Truthy(content) then (NoneTriple, Some(stamp))
        else
          var m := PostMetadata(s, paths, imagePrompt, today);
          var page := FormatPage(t, m, imagePrompt, content.value, gallery);
          if page.Err? then (NoneTriple, Some(stamp))
          else (Post(PostFilename(today, m.titleSummary), page.value), Some(stamp))
  }

  /** `generate`, as specified by `GenerateSpec`; the timestamp is written before the paths are used. */
  method Generate(s: Services, paths: Paths, imagePrompt: Option<string>, today: string, stamp: string,
                  stampFile: Option<string>, tmpWritable: bool) returns (r: Generated, newStampFile: Option<string>)
    ensures (r, newStampFile) == GenerateSpec(s, paths, imagePrompt, today, stamp, stampFile, tmpWritable)
  {
    newStampFile := stampFile;
    var loaded := LoadTemplates(s, TemplateEntries(paths));
    if loaded.Err? || !tmpWritable {
      return NoneTriple, newStampFile;
    }
    var t := loaded.value;
    TemplatesLoaded(s, paths);
    newStampFile := Some(stamp);
    var images := ImagePaths(stamp);
    var gallery := Gallery(images);
    var prompt := FormatPrompt(t, imagePrompt);
    if prompt.Err? {
      return NoneTriple, newStampFile;
    }
    var content := Ask(s, prompt.value);
    if !Truthy(content) {
      return NoneTriple, newStampFile;
    }
    var m := PostMetadata(s, paths, imagePrompt, today);
    var page := FormatPage(t, m, imagePrompt, content.value, gallery);
    if page.Err? {
      return NoneTriple, newStampFile;
    }
    r := Post(PostFilename(today, m.titleSummary), page.value);
  }
}
