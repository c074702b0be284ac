# autoblog in Dafny

A Dafny model of the core of autoblog, a pipeline that turns notes and AI-generated posts
into Hugo sites and publishes them with git. It covers five parts:

- **Notes-to-site sync and publish pipeline, in its five variants.**
  - `core/deployment.py`, `deployment/deployment_manager.py`,
    `deployment/human_deployment_manager.py`, `obsidian_notes_deployment/main.py` and
    `deployment/base_deployment_manager.py`.
  - Legacy `[[name.png]]` links are rewritten to Markdown image links, and vault images
    are renamed.
  - Content is synced under an always-rewrite policy or an only-when-stale policy.
  - Linked images and AI images are copied or mirrored.
  - Hugo is built, then a git commit, a push and a subtree-split branch deployment follow.
- **Deploy handoff** (`deployment/ai_deployment_manager.py`,
  `admin_panel/deployment/deploy_manager.py`). A singleton manager runs the content agent
  and scans its output for `FILE_PATH=`. It turns that path into the post URL, and the
  admin variant then builds and publishes.
- **Midjourney webhook** (`utils/midjourney_webhook_server.py`). The route decides what
  to do with a callback. The handler saves the prompt, downloads the image, slices it
  into four quadrants with quarter-size thumbnails, and remembers the URLs it has
  processed.
- **The agent** (`core/agent.py`). It covers:
  - where the agent's prompt files live;
  - the title, five-word summary and tags it asks the model for;
  - its session lifecycle: set-up, and a cleanup that is safe to run twice;
  - the dispatch to a generator;
  - the save that prints `FILE_PATH=`.
- **Generators and command lines.**
  - The researcher and the two artist generators in `generators/`.
  - The two command lines, `agent/main.py` and `ai_agents/main.py`, with their exit codes.

### Structure

Each core source file has its own module. Shared modules hold the rest:
- `Strings`: Python `str` and `pathlib` operations, with Python's edge cases.
- `Wrappers`: `Option`, `Result` and Python truthiness.
- `PyFormat`: the subset of `str.format` the prompts use.
- `Folders`: directories as maps from name to contents and modification time.
- `ImageLinks`: the two link regular expressions and the rewriter.
- `Shell`: subprocess results given as an outcome oracle, with a trace of the commands
  issued.
- `SiteSync`: the site's folders as a class that the sync methods update in place.
- `LatestPost`: the post URL lookup.
- `AgentHandoff`: the agent command line and the `FILE_PATH=` scan.
- `Templates`: the generators' template loading.

### Imperative code

Code that changes state is modelled as classes with methods, proved against
specification functions of the old state:
- the site folders;
- the shell trace;
- the singleton managers;
- the webhook handler with its processed URLs and AI image folder;
- the agent with its sessions;
- the host with its AI posts folder, timestamp file and printed lines.

Loops that the source has become `for` or `while` loops with invariants.

### Outside inputs

I/O outcomes, clocks, the model's replies, search results, fetched pages and the
environment are parameters.

### Where the code was followed

Where the code behaves differently from what a reader of its docstrings would expect,
the model follows the code:
- `core/deployment.py` `main` evaluates both syncs before testing them, because
  `all([...])` builds its list first. It also runs the git step after a failed build.
- `deployment/human_deployment_manager.py` `main` returns before its build and publish
  steps.
- `BlogAgent.generate_blog_post` calls `close`, which does nothing.

## Model

| member | source | states |
|---|---|---|
| Folders.MdNames | core/deployment.py:167 | the names `glob('*.md')` lists are exactly the folder's names ending in `.md` |
| Folders.Ensure | core/deployment.py:165 | creating a folder keeps whatever it held and makes it present |
| Folders.Write | core/deployment.py:181-184 | a write replaces exactly the written name, with the new text and time |
| Folders.Underscore | core/deployment.py:206 | the site name of an image has the same length, no space, and `_` exactly where the name had a space |
| Folders.UnderscoreFixed | core/deployment.py:206-210 | a rename target equals the name exactly when the name has no space, so only spaced names are ever renamed |
| Folders.RenameImage | core/deployment.py:208-213 | a rename keeps the folder present or absent as it was |
| Folders.RenameKeepsPlainNames | core/deployment.py:208-213 | a name without spaces that is present stays present through every rename |
| Folders.RenameNeverCreatesSpaced | core/deployment.py:208-213 | renames never create a name with a space |
| Folders.RenameAllEffect | core/deployment.py:204-213 | after the vault renames every found image that existed has its underscored name in the vault and no spaced found name is left |
| Folders.CopyStale | core/deployment.py:106-117 | copying a wanted image happens exactly when the source has it and the destination lacks it or holds an older one; nothing is removed |
| Folders.StaleAfterCopy | core/deployment.py:106-117 | after copying some names, a name is stale exactly when it was stale and was not copied |
| Folders.CopyStaleSettles | core/deployment.py:106-117 | a second copying pass finds nothing stale and changes nothing |
| Folders.Mirror | core/deployment.py:138-153 | the mirrored AI folder has exactly the source's names, each replaced only by a newer source copy |
| Folders.MirrorSettles | core/deployment.py:138-153 | mirroring again from the same source copies and deletes nothing |
| ImageLinks.FindLegacy | core/deployment.py:202 | the names found are those of the `[[...png]]` links, in order |
| ImageLinks.FindMarkdownImages | core/deployment.py:103 | the names found are those of the `![..](/images/...)` links, in order |
| ImageLinks.MarkdownFindsLink | core/deployment.py:215 | the site scanner recognises the image link the rewriter writes, with the underscored name |
| ImageLinks.ParseRender | core/deployment.py:202 | any note reads back as its pieces: the scanner's matches are its legacy pieces, and no match starts at any other character |
| ImageLinks.FindLegacyRender | core/deployment.py:202 | on a note of plain characters and links in which no match starts at a plain character, the scanner finds exactly the legacy links |
| ImageLinks.ReplaceRender | core/deployment.py:216 | replacing one legacy link text converts exactly the links with that name |
| ImageLinks.NoNewMatch | core/deployment.py:216 | turning a legacy link into a site link never makes a legacy match start earlier in the note |
| ImageLinks.ConvertNameWellFormed | core/deployment.py:216 | converting one name leaves a well-formed note whose legacy names are the old ones without that name |
| ImageLinks.RewriteWithRender | core/deployment.py:204-216 | the rewriter's loop converts the links with the found names and leaves every other piece alone |
| ImageLinks.RewriteIdempotent | core/deployment.py:200-218 | for any note whose found names hold no `[`, rewriting the rewritten note finds no legacy link, changes nothing and renames nothing |
| Shell.RunReply | core/deployment.py:57-69 | `run_command` answers success with stdout for exit 0, failure with stderr otherwise, or lets the launch exception escape, per variant |
| Shell.Shell.RunCommand | obsidian_notes_deployment/main.py:46-60 | the call is appended to the trace and the reply is the variant's answer for its outcome |
| Shell.GitCommitsOnlyOnChanges | core/deployment.py:230-240 | a commit is issued exactly when `git diff --cached --quiet` exits with 1; otherwise only add and diff run |
| Shell.GitFailsOnlyOnException | core/deployment.py:229-245 | the git step returns False only when one of its commands raises |
| Shell.GitFullPublish | core/deployment.py:230-240 | with changes and nothing failing to start, add, diff, commit, push and the four branch commands run in order |
| Shell.GitOperations | core/deployment.py:227-245 | the git step's result and issued commands are those of its specification |
| Shell.Publish | core/deployment.py:236-240 | the commit, push and branch steps give the result and commands of their specification |
| Shell.HandleBranchDeployment | core/deployment.py:247-264 | delete, split, force-push and delete run in order, stopping at a raise, which gives False |
| Shell.BuildHugo | core/deployment.py:220-225 | `hugo` runs in the site and the result is its success, or the exception escapes |
| Publish.FinishWithoutChanges | core/deployment.py:291-294 | without changes nothing is built or pushed and the run succeeds after the "no changes" dialog |
| Publish.GitRunsAfterFailedBuild | core/deployment.py:285-288 | a build that fails still has `git add` issued right after it, and the run fails |
| Publish.FinishSucceeds | core/deployment.py:284-290 | with changes the run succeeds exactly when the build succeeds and the git step raises nothing |
| Publish.PublishChanges | core/deployment.py:285-290 | the build, then the git step unless the build raised, as specified |
| Publish.AfterBuild | core/deployment.py:285-290 | the git step runs whatever the build returned, and the notification follows only when both succeeded |
| Publish.Finish | core/deployment.py:284-296 | the tail of `main` returns and issues what its specification says |
| SiteSync.Site.ProcessImagePaths | core/deployment.py:200-218 | the returned text is the rewrite of the content, the vault images are renamed in order, and the flag is set exactly when a rename happened |
| SiteSync.AlwaysFoldWrites | core/deployment.py:171-186 | every listed post holds its rewritten text in the vault and on the site; other posts and site images are untouched |
| SiteSync.Site.SyncContentAlways | core/deployment.py:162-198 | the always policy writes every post's rewrite to both sides, sets the flag when a post was processed, and fails on an unreadable post |
| SiteSync.Site.AlwaysPass | core/deployment.py:171-186 | the loop stops at the first unreadable post, and otherwise leaves the folders as the always policy over the posts read so far |
| SiteSync.Site.SyncAlwaysPost | core/deployment.py:173-184 | one post's rewrite written to the vault and the site |
| SiteSync.CopyMissingFlag | obsidian_notes_deployment/main.py:164-173 | a post misses images exactly when the site lacks the underscored name of one of its references |
| SiteSync.CopyMissing | obsidian_notes_deployment/main.py:164-186 | site images are only added, and a post that got a copy is marked as missing images |
| SiteSync.StaleStepCounts | obsidian_notes_deployment/main.py:188-197 | a post is processed exactly when its site copy is absent or older or an image is missing; site images are only added |
| SiteSync.StaleStepSettles | obsidian_notes_deployment/main.py:188-235 | after its step a post's site copy exists and is not older than the vault post |
| SiteSync.StaleAbsentImage | obsidian_notes_deployment/main.py:164-193 | a post referring to an image found nowhere is processed on every run |
| SiteSync.StaleFoldCounts | obsidian_notes_deployment/main.py:238-239 | a run that processed a post sets `changes_made` |
| SiteSync.StaleStepCurrent | obsidian_notes_deployment/main.py:160-197 | a post whose site copy is current and whose images are all there is skipped, and nothing changes |
| SiteSync.StaleFoldCurrent | obsidian_notes_deployment/main.py:146-239 | a run over current posts changes nothing and processes nothing |
| SiteSync.Site.SyncStalePost | obsidian_notes_deployment/main.py:145-235 | one post of the stale policy: copies, skip decision and rewrite as specified |
| SiteSync.Site.SyncContentIfStale | obsidian_notes_deployment/main.py:134-248 | the stale policy over every post, with the result and folders of its specification |
| SiteSync.Site.StalePass | obsidian_notes_deployment/main.py:145-236 | the loop stops at the first unreadable post, and otherwise leaves the folders and count as the stale policy over the posts read so far |
| SiteSync.ListNames | core/deployment.py:167 | the listed posts are the folder's posts, each once |
| SiteSync.Site.CopyMissingImages | obsidian_notes_deployment/main.py:164-186 | missing site images are copied from the vault under their original names, marking the post |
| SiteSync.Site.VerifyImages | obsidian_notes_deployment/main.py:81-132 | fails exactly when a folder is missing or a site post cannot be read; the posts are read in some order up to the first unreadable one; copies nothing; sets the flag exactly when a post read links an absent image |
| SiteSync.ReadOrderOk | obsidian_notes_deployment/main.py:101-105 | a pass that reads posts until the first unreadable one succeeds exactly when none is unreadable, and then it has read them all |
| SiteSync.Site.CopyReferencedImages | core/deployment.py:78-121 | fails exactly when a folder is missing or a site post cannot be read; with the folders present, every image linked from the posts read before the failure (all posts on success) that the vault has replaces a missing or older site copy, and the flag is set exactly when one was copied; with a folder missing nothing changes |
| SiteSync.Site.CopyLinked | core/deployment.py:106-117 | the copies for one post handle exactly its links and set the flag when one was stale |
| SiteSync.Site.CopyOne | core/deployment.py:111-116 | one image is copied when stale, and the flag is set exactly for a stale image not handled before |
| SiteSync.Site.MirrorAiImages | core/deployment.py:128-155 | the site AI folder becomes the mirror of the vault's, the flag set for each copy and deletion |
| SiteSync.Site.CopyAiImages | core/deployment.py:138-145 | every vault AI image replaces a missing or older site copy |
| SiteSync.Site.DeleteOrphanAiImages | core/deployment.py:147-153 | every site AI image the vault lacks is deleted |
| SiteSync.MirrorFromCopy | core/deployment.py:138-153 | after the copy loop the names outside the source are exactly the destination's own |
| SiteSync.Site.SyncImagesWithAi | core/deployment.py:71-160 | the copying pass, keeping its copies when a site post cannot be read, then the AI mirror, whose folders are checked only after the first pass succeeded; the flag is set exactly by a copy or a mirror change |
| LatestPost.GetLatestFile | obsidian_notes_deployment/main.py:62-79 | the URL of a newest post, or "No markdown files found" exactly when there is none |
| LatestPost.PostUrlMatchesBlogUrl | obsidian_notes_deployment/main.py:199 | the logged URL equals the latest-post URL under `/posts` exactly for names without spaces |
| CoreDeployment.Deploy | core/deployment.py:274-296 | both syncs run, and the tail runs only when both succeeded; `changes_made`, which decides whether hugo and git run, is set exactly by a vault rename, a non-empty vault, a stale image linked from a site post read before any unreadable one, or an AI mirror change; an unreadable site post fails the image sync |
| BlogTypeDeployment.NewManager | deployment/deployment_manager.py:41-54 | "human" selects the configured folders; any other type raises "Unsupported blog type: ..." |
| BlogTypeDeployment.Deploy | deployment/deployment_manager.py:231-253 | always-policy sync and image check, then the tail only when both succeeded; an unreadable vault or site post fails its sync; `changes_made` is set exactly by a vault rename, a non-empty vault or a site post read before any unreadable one linking an absent image |
| ObsidianDeployment.Deploy | obsidian_notes_deployment/main.py:316-340 | stale-policy sync and image check, then the tail only when both succeeded; a failed launch is a failed step; an unreadable vault or site post fails its sync; `changes_made` is set exactly by a copy, a rename, a processed post or an absent image linked from a site post read before any unreadable one; an up-to-date, readable vault and site returns True with only the "no changes" notification |
| HumanDeployment.ExitCode | deployment/human_deployment_manager.py:354-355 | the exit status is 0 exactly when `main` returned True |
| HumanDeployment.SyncContentAsWritten | deployment/human_deployment_manager.py:142-146 | the content sync as written always fails before touching a file |
| HumanDeployment.DeployAsWritten | deployment/human_deployment_manager.py:324-337 | as written every run fails with exit 1 and leaves the folders unchanged; the flag is set exactly when a site post read links an absent image |
| HumanDeployment.Deploy | deployment/human_deployment_manager.py:324-337 | with `dest_path` set, the run succeeds exactly when every vault post and every site post is readable and the image folders exist; `changes_made` is set exactly by a copy, a rename, a processed post or an absent image linked from a site post read; nothing is built |
| BaseDeployment.BaseDeployManager.constructor | deployment/base_deployment_manager.py:11-21 | a fresh manager has no changes, no URL base and no post path |
| BaseDeployment.BaseDeployManager.RunCommand | deployment/base_deployment_manager.py:23-42 | without `check` every started command is a success with its stdout; only a launch failure fails |
| BaseDeployment.BaseDeployManager.BuildHugo | deployment/base_deployment_manager.py:44-49 | passing `cwd=` raises `TypeError` before anything runs |
| BaseDeployment.BaseDeployManager.GitOperations | deployment/base_deployment_manager.py:51-75 | the `TypeError` of the first call is caught; no git command runs and the step fails |
| BaseDeployment.BaseDeployManager.HandleBranchDeployment | deployment/base_deployment_manager.py:77-100 | only the bare branch delete runs, then the step fails |
| BaseDeployment.BaseDeployManager.GetLatestFile | deployment/base_deployment_manager.py:110-130 | an unset URL base, a missing path and a missing file are errors in that order; otherwise the post URL |
| BaseDeployment.FreshLookupFails | deployment/base_deployment_manager.py:19-21 | a fresh manager's lookup always fails |
| AgentHandoff.Flags | deployment/ai_deployment_manager.py:154-156 | the keyword arguments add an even number of command arguments |
| AgentHandoff.FlagsRoundTrip | deployment/ai_deployment_manager.py:151-156 | parsing the added flags gives back exactly the given keyword arguments, in order |
| AgentHandoff.BuildAgentCommand | deployment/ai_deployment_manager.py:150-156 | the command is the fixed agent command followed by the flags of the given arguments |
| AgentHandoff.PathLineIndex | deployment/ai_deployment_manager.py:167-169 | the scan stops at the first line starting with `FILE_PATH=`: no line before it does, and it does unless it is the end |
| AgentHandoff.FirstFilePath | deployment/ai_deployment_manager.py:167-170 | the path after the first `FILE_PATH=` line, stripped, or None exactly when no line has the prefix |
| AgentHandoff.PostUrlFor | deployment/ai_deployment_manager.py:61-78 | the protoblog URL of an existing file, or "Post file not found at ..." |
| AgentHandoff.HandoffSucceeds | deployment/ai_deployment_manager.py:158-186 | the handoff succeeds exactly after a successful run with a non-empty path to an existing file |
| AgentHandoff.FreshHandoffNeedsPathLine | deployment/ai_deployment_manager.py:164-175 | without an earlier path, success needs a `FILE_PATH=` line and uses its path |
| AgentHandoff.PreviousPathReused | deployment/ai_deployment_manager.py:164-175 | an output without `FILE_PATH=` reuses the singleton's earlier path and URL |
| AgentHandoff.HandoffManager.Init | deployment/ai_deployment_manager.py:19-35 | the first `__init__` clears `file_path`; later ones keep it |
| AgentHandoff.HandoffManager.ScanFilePath | deployment/ai_deployment_manager.py:167-170 | the manager's path becomes the first `FILE_PATH=` path, or stays when there is none |
| AgentHandoff.Registry.Obtain | deployment/ai_deployment_manager.py:13-17 | every construction returns the same manager, and its path survives |
| AiDeployment.Deploy | deployment/ai_deployment_manager.py:145-186 | one agent command, then the handoff; success exactly when the handoff yields a URL, and no further command |
| AdminDeployment.PublishOutcome | admin_panel/deployment/deploy_manager.py:174-179 | a failed build ends with "Hugo build failed" and no git command; otherwise only a diff that cannot start fails |
| AdminDeployment.BuildAndPublish | admin_panel/deployment/deploy_manager.py:174-182 | the build and publish steps give the result and commands of their specification |
| AdminDeployment.Deploy | admin_panel/deployment/deploy_manager.py:135-182 | the agent command and handoff, then build and publish decide the result |
| Wrappers.OrElse | utils/midjourney_webhook_server.py:156-158 | `a or default` is `a` when it is a non-empty string and the default otherwise |
| MidjourneyWebhook.Quadrants | utils/midjourney_webhook_server.py:46-57 | four boxes split at `w // 2` and `h // 2` |
| MidjourneyWebhook.QuadrantsTile | utils/midjourney_webhook_server.py:49-57 | every pixel lies in exactly one box and no box reaches outside the image |
| MidjourneyWebhook.QuadrantSizes | utils/midjourney_webhook_server.py:49-57 | left and top parts are `w // 2` and `h // 2` wide, right and bottom take the rest |
| MidjourneyWebhook.Thumb | utils/midjourney_webhook_server.py:73 | a thumbnail is a quarter of the quadrant, rounded down, in each dimension |
| MidjourneyWebhook.OutputNamesDistinct | utils/midjourney_webhook_server.py:59-76 | the eight output names and the original's are pairwise different, so deleting the original keeps the outputs |
| MidjourneyWebhook.OutputsQuadrants | utils/midjourney_webhook_server.py:62-71 | every quadrant whose save did not fail is written with its size |
| MidjourneyWebhook.OutputsThumbs | utils/midjourney_webhook_server.py:72-77 | every thumbnail whose quadrant and own save succeeded is written with its size |
| MidjourneyWebhook.OutputsOnlyOutputs | utils/midjourney_webhook_server.py:62-77 | the loop writes only its output names and none whose save failed |
| MidjourneyWebhook.SliceSaves | utils/midjourney_webhook_server.py:40-86 | after slicing the original is gone, the outputs are there with their sizes, everything else is unchanged |
| MidjourneyWebhook.WebhookHandler.SliceAndSaveImages | utils/midjourney_webhook_server.py:40-89 | the AI folder becomes the slice specification of the old folder |
| MidjourneyWebhook.WebhookHandler.SavePromptToFile | utils/midjourney_webhook_server.py:91-99 | the prompt text is written unless the write fails, which changes nothing |
| MidjourneyWebhook.WebhookHandler.DownloadImage | utils/midjourney_webhook_server.py:100-110 | the downloaded bytes are written, or the method raises and writes nothing |
| MidjourneyWebhook.SavePromptFirst | utils/midjourney_webhook_server.py:112-135 | the prompt file is written before the download, and stays when the download fails |
| MidjourneyWebhook.WebhookHandler.SaveImageAndPrompt | utils/midjourney_webhook_server.py:112-135 | the raise flag and the new folder are those of the save specification |
| MidjourneyWebhook.WebhookHandler.MarkAsProcessed | utils/midjourney_webhook_server.py:141-143 | the URL joins the processed set |
| MidjourneyWebhook.Dispatch | utils/midjourney_webhook_server.py:147-184 | a save is chosen exactly for a "done" callback with a non-null result and a new URL; otherwise the answer is 200, 400 or 500 |
| MidjourneyWebhook.ReplayAnswered | utils/midjourney_webhook_server.py:160-170 | a callback replayed after its URL was marked is answered "Already processed" |
| MidjourneyWebhook.DispatchIgnoresProcessed | utils/midjourney_webhook_server.py:152-180 | only "done" callbacks with a URL depend on the processed set |
| MidjourneyWebhook.WebhookHandler.HandleWebhook | utils/midjourney_webhook_server.py:147-184 | a raised save answers 500 and leaves the URL unmarked; a completed one answers 200 with the URL and marks it |
| PyFormat.FormatLiteral | core/agent.py:190 | a prompt without braces formats to itself |
| PyFormat.FormatField | core/agent.py:190 | a field naming an argument is replaced by it and formatting continues |
| PyFormat.FormatMissingField | core/agent.py:189-194 | a field naming no argument makes the whole format raise |
| PyFormat.FormatTrailingOpen | generators/artist.py:80-81 | a template ending in a lone `{` raises "Single '{' encountered in format string" |
| PyFormat.FormatUnclosedField | generators/artist.py:80-81 | a field that is never closed raises "expected '}' before end of string" |
| PyFormat.FormatOpenInField | generators/artist.py:80-81 | a `{` inside a field name raises "unexpected '{' in field name", closed or not |
| AgentText.TitleOfCut | core/agent.py:191 | the title is the reply cut, at both ends, by whitespace and quote characters only |
| AgentText.TitleOfUnquoted | core/agent.py:191 | a title never starts or ends with a quote |
| AgentText.StripCut | core/agent.py:191 | stripping cuts only characters of the set from the two ends |
| AgentText.StripEnds | core/agent.py:191 | stripping leaves no character of the set at either end |
| AgentText.Title | core/agent.py:182-194 | the default title for empty content, an empty reply or a raise; otherwise the stripped reply |
| AgentText.FivePartsSplit | core/agent.py:203-205 | five dash-free words joined by dashes split back into themselves |
| AgentText.DefaultSummaryParts | core/agent.py:198 | the default summary splits into its five words |
| AgentText.TitleSummary | core/agent.py:196-209 | the summary always splits into five dash parts, the default's or the reply's words padded or cut |
| AgentText.Tags | core/agent.py:211-218 | the reply, or "[]" when reading, formatting or asking fails |
| AgentText.PostMetadata | generators/researcher.py:95-101 | the summary always has five dash parts and the date is the day given |
| Templates.LoadOkIff | generators/researcher.py:12-29 | loading succeeds exactly when every template reads back non-empty |
| Templates.LoadContents | generators/researcher.py:24-28 | a successful load maps each name to its file's contents |
| Templates.LoadErrorNamesFirst | generators/researcher.py:24-27 | a failed load names the first empty or unreadable template |
| Templates.LoadStopsAtError | generators/researcher.py:24-27 | once a template fails, loading the rest changes nothing |
| Templates.LoadTemplates | generators/researcher.py:12-29 | the loop's result is the load specification |
| ResearcherPost.Top3 | generators/researcher.py:59 | the first three results, or all when fewer |
| ResearcherPost.TemplatesLoaded | generators/researcher.py:12-29 | a successful load has every template the generator formats |
| ResearcherPost.FetchedResults | generators/researcher.py:59-61 | a result is kept exactly when it is one of the results and its URL yielded page text |
| ResearcherPost.GatherKeepsFetched | generators/researcher.py:59-70 | the sources are exactly the fetched results, in order, each with its own URL, title and description |
| ResearcherPost.GatherStopsAtError | generators/researcher.py:59-70 | a raise on one result ends gathering with that raise |
| ResearcherPost.GatherResearch | generators/researcher.py:55-72 | the loop gathers as specified, at most three sources |
| ResearcherPost.ResearchSummary | generators/researcher.py:74-81 | empty exactly for no research; otherwise starts with "Source: " and ends with the last source's block |
| ResearcherPost.FormatPrompt | generators/researcher.py:83-93 | the formatted agent prompt, a blank line, the formatted enhanced prompt |
| ResearcherPost.GenerateSpec | generators/researcher.py:31-53 | a template error gives the failure triple; a post is named date, dash, five dash parts, `.md` |
| ResearcherPost.NoContentNoPost | generators/researcher.py:31-53 | a generator whose model cannot be asked yields the failure triple |
| ResearcherPost.Generate | generators/researcher.py:31-53 | the generator's result is its specification |
| ResearcherPost.GenerateAsWritten | generators/researcher.py:56 | as written every run ends in the failure triple |
| ResearcherPost.SearchTopicBreaksRun | generators/researcher.py:56 | an input for which the corrected generator posts and the written one does not |
| ArtistPost.ImagePaths | generators/artist_post.py:56-65 | the four site paths are the names the webhook's slicer gives the quadrants of the stamped image |
| ArtistPost.TemplatesLoaded | generators/artist_post.py:14-30 | a successful load has every template the generator formats |
| ArtistPost.GalleryListsImages | generators/artist_post.py:73-74 | the gallery's list reads back as the four paths in order |
| ArtistPost.FormatPrompt | generators/artist_post.py:76-78 | the agent prompt formatted with the image prompt, a blank line, the enhanced prompt unformatted |
| ArtistPost.GenerateSpec | generators/artist_post.py:32-54 | a template error or unwritable stamp file gives the failure triple; a post records the stamp and is named by the date and summary |
| ArtistPost.Generate | generators/artist_post.py:32-54 | the generator's result and stamp file are its specification |
| ArtistGenerator.ImageFilePaths | generators/artist.py:61-75 | four `images/` paths named by the slicer, and `IMAGE_TIMESTAMP` set to the stamp |
| ArtistGenerator.GenerateSpec | generators/artist.py:32-59 | the file is "error.md" or "default.md"; a template error leaves the environment unchanged; after a load, `IMAGE_TIMESTAMP` is the stamp, and without a model service the result is the `NoneType` error pair whatever formatting would do; "default.md" only comes from an empty reply |
| ArtistGenerator.GenerateBlogPost | generators/artist.py:32-59 | the generator's result and environment are its specification |
| BlogAgents.RunGenerator | core/agent.py:172-180 | the researcher without a search client yields no post and only the artist touches the stamp file |
| BlogAgents.NewAgent | core/agent.py:23-72 | an agent exactly for a set API key and a known type; otherwise the matching `ValueError` message |
| BlogAgents.BlogAgent.CreateSession | core/agent.py:83-87 | the new session is tracked, and every session is still open or handed to cleanup once |
| BlogAgents.BlogAgent.InitializeServices | core/agent.py:89-109 | a closed agent raises; otherwise two or three sessions open, and a missing search key cleans up and raises |
| BlogAgents.BlogAgent.Cleanup | core/agent.py:111-145 | the first call hands every open session to close and drops them; later calls change nothing |
| BlogAgents.BlogAgent.GenerateBlogPost | core/agent.py:172-180 | the result and stamp file are those of the agent's generator |
| BlogAgents.BlogAgent.SaveToContent | core/agent.py:220-235 | the post is written and `FILE_PATH=<path>` printed, or None with nothing written |
| BlogAgents.BlogAgent.Process | core/agent.py:147-161 | set-up, generation and cleanup; it raises exactly on a closed agent or a missing search key; every session ends handed to cleanup once |
| AgentCli.ValidateArgs | agent/main.py:38-50 | arguments pass exactly for the researcher with a topic or the artist with a webhook URL |
| AgentCli.AgentPrompt | agent/main.py:89-92 | an artist without an image prompt gets the generated one |
| AgentCli.GenerateAndSave | agent/main.py:52-69 | True exactly when a post was generated and saved, with the two lines printed; the failure triple is False |
| AgentCli.Run | agent/main.py:71-124 | exit 2 for a rejected command line, 0 exactly for a full success, 1 otherwise; the agent ends closed with every session closed once |
| AgentCli.ScanSkipsPlainLines | deployment/ai_deployment_manager.py:167-170 | lines without the prefix in front do not change what the scan finds |
| AgentCli.ScanFindsFirstLine | deployment/ai_deployment_manager.py:168-169 | a scan starting with a `FILE_PATH=` line of a stripped path finds that path |
| AgentCli.SavedPathHandedOff | core/agent.py:231 | the path a successful run prints is exactly what the deployment managers' scan finds |
| AiAgentsCli.ValidateArgs | ai_agents/main.py:35-41 | arguments pass unless the artist lacks a webhook URL or the researcher a topic |
| AiAgentsCli.ValidationIsLaxer | ai_agents/main.py:35-41 | it accepts all that the other copy accepts, and additionally exactly the unknown types |
| AiAgentsCli.GenerateAndSave | ai_agents/main.py:43-59 | the failure triple raises; an empty name or page is False; success saves and prints |
| AiAgentsCli.Run | ai_agents/main.py:61-114 | exit 2 for a rejected command line, 0 exactly for a non-empty saved post, 1 otherwise, cleanup having run |

## Left out

- Signature checking (`verify_signature`, HMAC-SHA256) is foreign cryptography and is not called by the route.
- Image decoding, cropping and resampling: a picture is its width and height.
- Flask, HTTP and JSON parsing: the route takes the parsed body and the query argument.
- The Anthropic, Brave Search, web page, Midjourney and OpenAI clients: their answers are parameters (a model function, search results, a URL-to-text map, an optional prompt).
- `subprocess`, git, hugo and osascript: an oracle of outcomes with a trace of the commands issued; the notification's outcome is ignored.
- Logging, clocks and time formatting: stamps and dates are parameters.
- `async`/`await`, `asynccontextmanager` and aiohttp sessions: sequential methods, with sessions as numbers.
- `argparse` itself: the command lines take parsed arguments. A missing required flag exits with 2 inside the parser, before `validate_args`.
- `KeyboardInterrupt` handling in the command lines.
- `str.format` beyond `{name}` fields and `{{`/`}}` escapes: no format specs, conversions, positional or attribute fields. The error messages are CPython 3.12's; other versions word some of them differently.
- `str.lower` is modelled for ASCII letters only; `os.path.join` only for relative second parts.
- Directory listing order is left arbitrary: loops pick any remaining file.
- The configuration modules: folders and URLs are parameters.
- `ProcessImageService` construction is an outcome parameter. In `services/process_image_service.py` a second, argument-less `__init__` replaces the first, so the call in `agent/main.py` raises `TypeError` there. That service is not part of this model.
- The random prompt service is an outcome parameter. `services/openai_random_image_prompt_service.py` defines `generate_random_prompt`, not the `generate_random_image_prompt` that `agent/main.py` calls, so that call raises there.
- `ai_agents/core/agent.py` is not part of this model: `ai_agents/main.py` is run against the `core/agent.py` agent.
- `generators/artist.py` calls `agent.generate_filename`, which the agent does not define: every run that gets content ends in the error pair, as modelled.
- `BlogAgent.run` catches generator exceptions. The generators are modelled without raising, since each catches its own.
- `core/agent.py` imports `ResearcherPostGenerator` from `generators/researcher_post.py`, which is not part of this model. The agent is modelled as running the corrected generator of `generators/researcher.py` (`ResearcherPost.GenerateSpec`, with the call going to `search`). So for the researcher type, `BlogAgents.RunGenerator`, `BlogAgents.BlogAgent.Process`, `AgentCli.Run` and `AiAgentsCli.Run` model the intended behaviour, not the code as written, which returns the failure triple on every run that gets past the templates (`ResearcherPost.GenerateAsWritten`, the second finding below).
- MidjourneyWebhook.ThumbPicture: Pillow refuses to resize to a zero width or height, so a quadrant narrower or shorter than 4 pixels gets no thumbnail (the error is caught and logged). The model writes a zero-sized picture unless that thumbnail's name is in `failing`; callers model such quadrants by putting their thumbnail names there.
- BaseDeployment.BaseDeployManager.GetLatestFile: the text of the `TypeError` that `Path(None)` raises depends on the Python version; the model uses one wording.
- SiteSync.Site.SyncContentAlways: only a post that cannot be read is a failure; a failing image rename or file write (core/deployment.py:181-184, 211; deployment/deployment_manager.py:138-141, 168) is not modelled. In the source it also ends the sync with False and keeps what was done, possibly with the vault post rewritten and its site copy not.
- SiteSync.Site.SyncContentIfStale: only a post that cannot be read is a failure; a failing image copy, rename or file write (obsidian_notes_deployment/main.py:182, 220, 229-235; deployment/human_deployment_manager.py:190, 228, 237-243) is not modelled. In the source it also ends the sync with False and keeps what was done.
- SiteSync.Site.CopyReferencedImages: only a site post that cannot be read is a failure; a failing `shutil.copy2` (core/deployment.py:115) is not modelled. In the source it also ends the pass with False and keeps the earlier copies.
- SiteSync.Site.MirrorAiImages: a failing `shutil.copy2` or `unlink` (core/deployment.py:143, 152) is not modelled. In the source it ends the image sync with False and keeps the earlier copies and deletions.
- SiteSync.Site.SyncImagesWithAi: inherits the gaps above; its contract assumes every file write, image copy, rename and delete succeeds.
- CoreDeployment.Deploy: inherits the gaps above; its contract assumes every file write, image copy, rename and delete succeeds.
- BlogTypeDeployment.Deploy: inherits the gaps above; its contract assumes every file write, image copy, rename and delete succeeds.
- ObsidianDeployment.Deploy: inherits the gaps above; its contract assumes every file write, image copy, rename and delete succeeds.
- HumanDeployment.Deploy: inherits the gaps above; its contract assumes every file write, image copy, rename and delete succeeds.
- BlogAgents.BlogAgent.Cleanup: a session that fails to close is still counted as handed to cleanup. The logged error messages are not modelled.

## Findings

| source | as written | input that shows it | evidently intended | confidence | as-written member | corrected member |
|---|---|---|---|---|---|---|
| deployment/human_deployment_manager.py:146 | `sync_content` uses `self.dest_path`, which `__init__` never assigns, so it raises `AttributeError` and returns False | any run, whatever the folders hold: `main` returns False and the process exits 1 | `dest_path` set to the site's posts folder, which the sync writes to | not executed | HumanDeployment.DeployAsWritten | HumanDeployment.Deploy |
| generators/researcher.py:56 | `_gather_research` calls `brave_client.search_topic`, but the client defines only `search` | all templates present, no search results, a model that answers (`ResearcherPost.SearchTopicBreaksRun`): the written generator returns the failure triple | the call goes to `search` | not executed | ResearcherPost.GenerateAsWritten | ResearcherPost.Generate |
