/**
 * The older `ArtistPostGenerator` of `generators/artist.py` (the agent does not use it).
 * It publishes its image timestamp through the `IMAGE_TIMESTAMP` environment variable and
 * answers every failure with a placeholder pair instead of `None`s. Its metadata step asks
 * the agent for `generate_filename`, which `BlogAgent` does not define, so a run that gets
 * content ends in its error pair: it never produces a dated post.
 */
module ArtistGenerator {
  import opened Wrappers
  import opened PyFormat
  import opened AgentText
  import opened Templates
  import ArtistPost
  import MidjourneyWebhook

  /**
   * `_generate_image_file_paths`: the four relative image paths for one timestamp, and the
   * environment with `IMAGE_TIMESTAMP` set to it (the `breakpoint()` is a pause, nothing more).
   */
  function ImageFilePaths(stamp: string, env: map<string, string>): (r: (seq<string>, map<string, string>))
    ensures |r.0| == 4
    ensures forall i :: 0 <= i < 4 ==> r.0[i] == "images/" + MidjourneyWebhook.FullName(stamp, i)
    ensures r.1 == env["IMAGE_TIMESTAMP" := stamp]
  {
    (seq(4, i requires 0 <= i < 4 => "images/" + stamp + "_" + MidjourneyWebhook.Positions[i] + ".png"),
     env["IMAGE_TIMESTAMP" := stamp])
  }

  /** The `except` branch: the error pair naming the exception, with the environment as it stands. */
  function Failed(message: string, env: map<string, string>): (string, string, map<string, string>) {
    ("error.md", "Error generating post: " + message, env)
  }

  const MissingGenerateFilename := "'BlogAgent' object has no attribute 'generate_filename'"

  /** The message of looking up `ask` on an agent without a model service. */
  const NoModelService := "'NoneType' object has no attribute 'ask'"

  /**
   * `generate_blog_post`: the file name and page, and the environment afterwards. The
   * templates failing gives the error pair; then the image paths set the environment.
   * Python looks up `self.agent.anthropic.ask` before it evaluates the formatted prompt,
   * so a missing model service gives its error pair even where formatting would raise;
   * otherwise formatting raising gives the error pair, an empty reply gives
   * `("default.md", "Failed to generate content")`, and a reply reaches the missing
   * `generate_filename` and gives the error pair naming it.
   */
  function GenerateSpec(s: Services, paths: Paths, imagePrompt: Option<string>, stamp: string, env: map<string, string>)
    : (r: (string, string, map<string, string>))
    ensures r.0 == "error.md" || r.0 == "default.md"
    ensures LoadSpec(s, ArtistPost.TemplateEntries(paths)).Err? ==>
      r == Failed(LoadSpec(s, ArtistPost.TemplateEntries(paths)).error, env)
    ensures LoadSpec(s, ArtistPost.TemplateEntries(paths)).Ok? ==> r.2 == env["IMAGE_TIMESTAMP" := stamp]
    ensures LoadSpec(s, ArtistPost.TemplateEntries(paths)).Ok? && !s.askable ==>
      r == Failed(NoModelService, env["IMAGE_TIMESTAMP" := stamp])
    ensures r.0 == "default.md" ==> s.askable && r.1 == "Failed to generate content"
  {
    var loaded := LoadSpec(s, ArtistPost.TemplateEntries(paths));
    if loaded.Err? then Failed(loaded.error, env)
    else
      ArtistPost.TemplatesLoaded(s, paths);
      var (images, env2) := ImageFilePaths(stamp, env);
      if !s.askable then Failed(NoModelService, env2)
      else
        var prompt := ArtistPost.FormatPrompt(loaded.value, imagePrompt);
        if prompt.Err? then Failed(prompt.error, env2)
        else
          var content := s.model(prompt.value);
          if content == "" then ("default.md", "Failed to generate content", env2)
          else Failed(MissingGenerateFilename, env2)
  }

  /** `generate_blog_post`, as specified by `GenerateSpec`. */
  method GenerateBlogPost(s: Services, paths: Paths, imagePrompt: Option<string>, stamp: string, env: map<string, string>)
    returns (filename: string, page: string, newEnv: map<string, string>)
    ensures (filename, page, newEnv) == GenerateSpec(s, paths, imagePrompt, stamp, env)
  {
    newEnv := env;
    var loaded := LoadTemplates(s, ArtistPost.TemplateEntries(paths));
    if loaded.Err? {
      var (f, pg, e) := Failed(loaded.error, env);
      return f, pg, e;
    }
    ArtistPost.TemplatesLoaded(s, paths);
    var (images, env2) := ImageFilePaths(stamp, env);
    newEnv := env2;
    var gallery := ArtistPost.Gallery(images);
    if !s.askable {
      var (f, pg, e) := Failed(NoModelService, newEnv);
      return f, pg, e;
    }
    var prompt := ArtistPost.FormatPrompt(loaded.value, imagePrompt);
    if prompt.Err? {
      var (f, pg, e) := Failed(prompt.error, newEnv);
      return f, pg, e;
    }
    var content := Ask(s, prompt.value);
    if content.value == "" {
      return "default.md", "Failed to generate content", newEnv;
    }
    // `_generate_metadata` asks for the title and the tags, then `self.agent.generate_filename` raises
    var (f, pg, e) := Failed(MissingGenerateFilename, newEnv);
    return f, pg, e;
  }
}
