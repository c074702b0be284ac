/**
 * `utils/midjourney_webhook_server.py`: the webhook handler that receives Midjourney's
 * status callbacks. A "done" callback saves the prompt, downloads the four-panel image,
 * slices it into quadrants with thumbnails and deletes the original; processed URLs are
 * remembered so that a repeated callback saves nothing.
 */
module MidjourneyWebhook {
  import opened Strings
  import opened Wrappers

  // ---------------------------------------------------------------------------------------
  // quadrant geometry

  /** A crop box: left, top, right and bottom edges; the box holds `left <= x < right`, `top <= y < bottom`. */
  datatype Box = Box(left: int, top: int, right: int, bottom: int)

  predicate InBox(b: Box, x: int, y: int) {
    b.left <= x < b.right && b.top <= y < b.bottom
  }

  /** The four boxes for an image of `w` by `h`, split at `w // 2` and `h // 2`: top left, top right, bottom left, bottom right. */
  function Quadrants(w: nat, h: nat): (boxes: seq<Box>)
    ensures |boxes| == 4
  {
    var qw := w / 2;
    var qh := h / 2;
    [Box(0, 0, qw, qh), Box(qw, 0, w, qh), Box(0, qh, qw, h), Box(qw, qh, w, h)]
  }

  /** The quadrant a pixel belongs to, by comparing it with the split lines. */
  function QuadrantOf(w: nat, h: nat, x: int, y: int): (i: nat)
    ensures i < 4
  {
    (if x < w / 2 then 0 else 1) + (if y < h / 2 then 0 else 2)
  }

  /**
   * The four boxes tile the image: every pixel lies in its own quadrant and in no other,
   * and no box reaches outside the image.
   */
  lemma QuadrantsTile(w: nat, h: nat, x: int, y: int)
    ensures var boxes := Quadrants(w, h);
      (0 <= x < w && 0 <= y < h ==> InBox(boxes[QuadrantOf(w, h, x, y)], x, y))
      && (forall i :: 0 <= i < 4 && InBox(boxes[i], x, y) ==> i == QuadrantOf(w, h, x, y) && 0 <= x < w && 0 <= y < h)
  {
  }

  /** The left and top parts are `w // 2` and `h // 2`; the right and bottom parts take the rest. */
  lemma QuadrantSizes(w: nat, h: nat)
    ensures var boxes := Quadrants(w, h);
      forall i :: 0 <= i < 4 ==>
        Width(boxes[i]) == (if i % 2 == 0 then w / 2 else w - w / 2)
        && Height(boxes[i]) == (if i < 2 then h / 2 else h - h / 2)
  {
  }

  function Width(b: Box): int { b.right - b.left }
  function Height(b: Box): int { b.bottom - b.top }

  /** The thumbnail of a quadrant: a quarter of its width and height, rounded down. */
  function Thumb(b: Box): (size: (int, int))
    requires 0 <= Width(b) && 0 <= Height(b)
    ensures 0 <= 4 * size.0 <= Width(b) < 4 * size.0 + 4
    ensures 0 <= 4 * size.1 <= Height(b) < 4 * size.1 + 4
  {
    (Width(b) / 4, Height(b) / 4)
  }

  // ---------------------------------------------------------------------------------------
  // files

  /** A file in the vault's AI images folder: an image with its size, or text. */
  datatype AiFile = Picture(width: nat, height: nat) | Text(content: string)

  const Positions: seq<string> := ["top_left", "top_right", "bottom_left", "bottom_right"]

  function FullName(stem: string, i: nat): string
    requires i < 4
  {
    stem + "_" + Positions[i] + ".png"
  }

  function ThumbName(stem: string, i: nat): string
    requires i < 4
  {
    stem + "_" + Positions[i] + "_thumb.png"
  }

  /** The eight output names and the original's name are all different, so deleting the original keeps every output. */
  lemma OutputNamesDistinct(stem: string)
    ensures forall i, j :: 0 <= i < 4 && 0 <= j < 4 && i != j ==> FullName(stem, i) != FullName(stem, j)
    ensures forall i, j :: 0 <= i < 4 && 0 <= j < 4 && i != j ==> ThumbName(stem, i) != ThumbName(stem, j)
    ensures forall i, j :: 0 <= i < 4 && 0 <= j < 4 ==> FullName(stem, i) != ThumbName(stem, j)
    ensures forall i :: 0 <= i < 4 ==> FullName(stem, i) != stem + ".png" && ThumbName(stem, i) != stem + ".png"
  {
    assert |Positions[0]| == 8 && |Positions[1]| == 9 && |Positions[2]| == 11 && |Positions[3]| == 12;
  }

  /** The saved quadrant `i` of a `w` by `h` image. */
  function QuadrantPicture(w: nat, h: nat, i: nat): AiFile
    requires i < 4
  {
    var b := Quadrants(w, h)[i];
    Picture(Width(b), Height(b))
  }

  /** The saved thumbnail of quadrant `i` of a `w` by `h` image. */
  function ThumbPicture(w: nat, h: nat, i: nat): AiFile
    requires i < 4
  {
    var b := Quadrants(w, h)[i];
    Picture(Thumb(b).0, Thumb(b).1)
  }

  /**
   * What one pass of the slicing loop writes: the quadrant unless its save fails, and then
   * the thumbnail unless that save fails (a failed quadrant save skips its thumbnail).
   */
  function Saved(stem: string, w: nat, h: nat, i: nat, failing: set<string>): map<string, AiFile>
    requires i < 4
  {
    var full := map[FullName(stem, i) := QuadrantPicture(w, h, i)];
    if FullName(stem, i) in failing then map[]
    else if ThumbName(stem, i) in failing then full
    else full[ThumbName(stem, i) := ThumbPicture(w, h, i)]
  }

  /** What the first `n` passes of the slicing loop write. */
  function Outputs(stem: string, w: nat, h: nat, n: nat, failing: set<string>): map<string, AiFile>
    requires n <= 4
  {
    if n == 0 then map[] else Outputs(stem, w, h, n - 1, failing) + Saved(stem, w, h, n - 1, failing)
  }

  /** Map union is associative, so the loop's writes add up to the outputs. */
  lemma UnionAssociative<K, V>(a: map<K, V>, b: map<K, V>, c: map<K, V>)
    ensures (a + b) + c == a + (b + c)
  {
  }

  /** A pass's writes, one update at a time, are the union with `Saved`. */
  lemma SavedByUpdates(m: map<string, AiFile>, stem: string, w: nat, h: nat, i: nat, failing: set<string>)
    requires i < 4
    ensures var full := FullName(stem, i);
      var thumb := ThumbName(stem, i);
      var one := m[full := QuadrantPicture(w, h, i)];
      m + Saved(stem, w, h, i, failing) ==
        if full in failing then m
        else if thumb in failing then one
        else one[thumb := ThumbPicture(w, h, i)]
  {
  }

  /**
   * `slice_and_save_images` on the file `name`: when it is an image, the quadrants and
   * thumbnails are saved and then the original is deleted; when it is missing or not an
   * image, opening it fails and nothing changes.
   */
  function SliceSpec(files: map<string, AiFile>, name: string, failing: set<string>): map<string, AiFile> {
    if name !in files || !files[name].Picture? then files
    else
      var p := files[name];
      (files + Outputs(Stem(name), p.width, p.height, 4, failing)) - {name}
  }

  /** Whether `k` is one of the names pass `i` writes to. */
  predicate OutputOf(stem: string, k: string, i: nat)
    requires i < 4
  {
    k == FullName(stem, i) || k == ThumbName(stem, i)
  }

  /** Every quadrant whose save did not fail is among the outputs of the passes that reached it. */
  lemma {:induction false} OutputsQuadrants(stem: string, w: nat, h: nat, n: nat, failing: set<string>)
    requires n <= 4
    ensures var o := Outputs(stem, w, h, n, failing);
      forall i :: 0 <= i < n && FullName(stem, i) !in failing ==>
        FullName(stem, i) in o && o[FullName(stem, i)] == QuadrantPicture(w, h, i)
    decreases n
  {
    if n > 0 {
      OutputNamesDistinct(stem);
      OutputsQuadrants(stem, w, h, n - 1, failing);
    }
  }

  /** Every thumbnail whose quadrant and own save did not fail is among the outputs. */
  lemma {:induction false} OutputsThumbs(stem: string, w: nat, h: nat, n: nat, failing: set<string>)
    requires n <= 4
    ensures var o := Outputs(stem, w, h, n, failing);
      forall i :: 0 <= i < n && FullName(stem, i) !in failing && ThumbName(stem, i) !in failing ==>
        ThumbName(stem, i) in o && o[ThumbName(stem, i)] == ThumbPicture(w, h, i)
    decreases n
  {
    if n > 0 {
      OutputNamesDistinct(stem);
      OutputsThumbs(stem, w, h, n - 1, failing);
    }
  }

  /** The passes write nothing but their own output names, and never one whose save fails. */
  lemma {:induction false} OutputsOnlyOutputs(stem: string, w: nat, h: nat, n: nat, failing: set<string>)
    requires n <= 4
    ensures var o := Outputs(stem, w, h, n, failing);
      forall k :: k in o ==> k !in failing && exists i :: 0 <= i < n && OutputOf(stem, k, i)
    decreases n
  {
    if n > 0 {
      OutputsOnlyOutputs(stem, w, h, n - 1, failing);
      var s := Saved(stem, w, h, n - 1, failing);
      assert forall k :: k in s ==> k !in failing && OutputOf(stem, k, n - 1);
    }
  }

  /**
   * After slicing an image, the original is gone; every quadrant whose save did not fail is
   * there with its size, and its thumbnail too unless that save failed; every other file
   * is as it was.
   */
  lemma SliceSaves(files: map<string, AiFile>, name: string, failing: set<string>)
    requires name in files && files[name].Picture?
    ensures var r := SliceSpec(files, name, failing);
      var stem := Stem(name);
      var p := files[name];
      name !in r
      && (forall i :: 0 <= i < 4 && FullName(stem, i) !in failing && FullName(stem, i) != name ==>
        FullName(stem, i) in r && r[FullName(stem, i)] == QuadrantPicture(p.width, p.height, i))
      && (forall i :: 0 <= i < 4 && FullName(stem, i) !in failing && ThumbName(stem, i) !in failing && ThumbName(stem, i) != name ==>
        ThumbName(stem, i) in r && r[ThumbName(stem, i)] == ThumbPicture(p.width, p.height, i))
      && (forall k :: k != name && (forall i :: 0 <= i < 4 ==> !OutputOf(stem, k, i)) ==>
        (k in r <==> k in files) && (k in r ==> r[k] == files[k]))
  {
    var p := files[name];
    OutputsQuadrants(Stem(name), p.width, p.height, 4, failing);
    OutputsThumbs(Stem(name), p.width, p.height, 4, failing);
    OutputsOnlyOutputs(Stem(name), p.width, p.height, 4, failing);
  }

  // ---------------------------------------------------------------------------------------
  // saving a finished image

  const NoPrompt := "No prompt available"

  function PromptName(stamp: string): string { "midjourney_" + stamp + ".md" }
  function ImageName(stamp: string): string { "midjourney_" + stamp + ".png" }

  /**
   * `save_image_and_prompt`: the prompt file is written first (a failed write is only
   * logged), then the download is written as the image (a failed request or write raises,
   * leaving the prompt behind), then the image is sliced. `fetched` is what the request
   * returns, `None` when it fails; `failing` are the names whose writes fail.
   * The result is whether it raised and the new folder.
   */
  function SaveSpec(files: map<string, AiFile>, prompt: string, stamp: string,
                    fetched: Option<AiFile>, failing: set<string>): (bool, map<string, AiFile>)
  {
    var withPrompt := if PromptName(stamp) in failing then files else files[PromptName(stamp) := Text(prompt)];
    if fetched.None? || ImageName(stamp) in failing then (true, withPrompt)
    else (false, SliceSpec(withPrompt[ImageName(stamp) := fetched.value], ImageName(stamp), failing))
  }

  /**
   * The prompt is saved before the image: when the download fails the prompt file is
   * there all the same and the image name is untouched; when it succeeds, the prompt file
   * is still there and the downloaded image is gone, sliced or (when it is no picture) kept.
   */
  lemma SavePromptFirst(files: map<string, AiFile>, prompt: string, stamp: string,
                        fetched: Option<AiFile>, failing: set<string>)
    requires PromptName(stamp) !in failing
    ensures var (raised, r) := SaveSpec(files, prompt, stamp, fetched, failing);
      (raised <==> fetched.None? || ImageName(stamp) in failing)
      && (raised ==> r == files[PromptName(stamp) := Text(prompt)])
      && (!raised && fetched.value.Picture? ==> ImageName(stamp) !in r)
      && (!raised && !fetched.value.Picture? ==> ImageName(stamp) in r && r[ImageName(stamp)] == fetched.value)
  {
  }

  // ---------------------------------------------------------------------------------------
  // the webhook route

  /** The `result` member of a callback: absent, JSON null, or an object with optional `url` and `prompt`. */
  datatype ResultField = NoResult | NullResult | ResultObject(url: Option<string>, prompt: Option<string>)

  /** A callback body's members that the route reads. */
  datatype Payload = Payload(status: Option<string>, result: ResultField, prompt: Option<string>, statusReason: Option<string>)

  /** A JSON response: status code and the members of the body, in order. */
  datatype Response = Response(code: int, body: seq<(string, string)>)

  /** What the route does with a callback: answer at once, or save an image and then answer. */
  datatype Action = Answer(response: Response) | Save(url: string, prompt: string, stamp: string)

  const InternalError := Response(500, [("error", "Internal server error")])
  const AlreadyProcessed := Response(200, [("status", "success"), ("message", "Already processed")])

  function Saved200(url: string): Response {
    Response(200, [("status", "success"), ("image_url", url)])
  }

  /** `data.get('result', {}).get(key)`; a null result has no `get` and raises. */
  function ResultUrl(r: ResultField): Option<string> {
    if r.ResultObject? then r.url else None
  }

  function ResultPrompt(r: ResultField): Option<string> {
    if r.ResultObject? then r.prompt else None
  }

  /**
   * The route's decision for a callback: `data` is the parsed body (`None` when it is not
   * JSON), `stampArg` the `image_timestamp` query argument, `processed` the URLs handled
   * so far.
   */
  function Dispatch(data: Option<Payload>, stampArg: Option<string>, processed: set<string>): (a: Action)
    ensures a.Save? <==>
      (data.Some? && data.value.status == Some("done") && !data.value.result.NullResult?
       && Truthy(ResultUrl(data.value.result)) && ResultUrl(data.value.result).value !in processed)
    ensures a.Save? ==> a.url == ResultUrl(data.value.result).value && a.prompt != "" && a.stamp != ""
    ensures a.Answer? ==> a.response.code in {200, 400, 500}
  {
    if data.None? then Answer(InternalError)
    else
      var p := data.value;
      if p.status == Some("done") then
        if p.result.NullResult? then Answer(InternalError)
        else
          var url := ResultUrl(p.result);
          if !Truthy(url) then Answer(Response(400, [("status", "error"), ("message", "Image URL not found")]))
          else if url.value in processed then Answer(AlreadyProcessed)
          else Save(url.value, OrElse(p.prompt, OrElse(ResultPrompt(p.result), NoPrompt)), OrElse(stampArg, "0000000000"))
      else if p.status == Some("failed") then
        Answer(Response(400, [("status", "error"), ("message", OrElse(p.statusReason, "Unknown error"))]))
      else Answer(Response(200, [("status", "received")]))
  }

  /**
   * A callback that led to a save is, once its URL is marked, answered "Already processed"
   * when it arrives again: a repeated callback never saves twice.
   */
  lemma ReplayAnswered(data: Option<Payload>, stampArg: Option<string>, processed: set<string>)
    requires Dispatch(data, stampArg, processed).Save?
    ensures Dispatch(data, stampArg, processed + {Dispatch(data, stampArg, processed).url}) == Answer(AlreadyProcessed)
  {
  }

  /** Only "done" callbacks with a URL ever depend on the processed set. */
  lemma DispatchIgnoresProcessed(data: Option<Payload>, stampArg: Option<string>, p1: set<string>, p2: set<string>)
    requires data.None? || data.value.status != Some("done") || !Truthy(ResultUrl(data.value.result))
    ensures Dispatch(data, stampArg, p1) == Dispatch(data, stampArg, p2)
  {
  }

  /** `MidjourneyWebhookHandler`: the URLs handled so far, and the vault's AI images folder it writes to. */
  class WebhookHandler {
    var processedUrls: set<string>
    var aiImages: map<string, AiFile>

    constructor(aiImages: map<string, AiFile>)
      ensures this.processedUrls == {} && this.aiImages == aiImages
    {
      this.processedUrls := {};
      this.aiImages := aiImages;
    }

    predicate HasBeenProcessed(url: string)
      reads this
    {
      url in processedUrls
    }

    method MarkAsProcessed(url: string)
      modifies this`processedUrls
      ensures processedUrls == old(processedUrls) + {url}
      ensures HasBeenProcessed(url)
    {
      processedUrls := processedUrls + {url};
    }

    /** Writes the prompt text; a failing write is logged and leaves the folder as it was. */
    method SavePromptToFile(prompt: string, name: string, failing: set<string>)
      modifies this`aiImages
      ensures aiImages == if name in failing then old(aiImages) else old(aiImages)[name := Text(prompt)]
    {
      if name !in failing {
        aiImages := aiImages[name := Text(prompt)];
      }
    }

    /** Writes the downloaded bytes; a failed request or write raises (`ok` false). */
    method DownloadImage(name: string, fetched: Option<AiFile>, failing: set<string>) returns (ok: bool)
      modifies this`aiImages
      ensures ok <==> fetched.Some? && name !in failing
      ensures aiImages == if ok then old(aiImages)[name := fetched.value] else old(aiImages)
    {
      if fetched.None? || name in failing {
        return false;
      }
      aiImages := aiImages[name := fetched.value];
      ok := true;
    }

    /** Slices the image `name` into quadrants and thumbnails and deletes it. */
    method SliceAndSaveImages(name: string, failing: set<string>)
      modifies this`aiImages
      ensures aiImages == SliceSpec(old(aiImages), name, failing)
    {
      if name !in aiImages || !aiImages[name].Picture? {
        return;
      }
      var p := aiImages[name];
      var stem := Stem(name);
      ghost var start := aiImages;
      for i := 0 to 4
        invariant aiImages == start + Outputs(stem, p.width, p.height, i, failing)
      {
        var full := FullName(stem, i);
        var thumb := ThumbName(stem, i);
        ghost var before := aiImages;
        if full !in failing {
          aiImages := aiImages[full := QuadrantPicture(p.width, p.height, i)];
          if thumb !in failing {
            aiImages := aiImages[thumb := ThumbPicture(p.width, p.height, i)];
          }
        }
        SavedByUpdates(before, stem, p.width, p.height, i, failing);
        UnionAssociative(start, Outputs(stem, p.width, p.height, i, failing), Saved(stem, p.width, p.height, i, failing));
      }
      aiImages := aiImages - {name};
    }

    /** `save_image_and_prompt`; `raised` tells whether it raised to the route. */
    method SaveImageAndPrompt(prompt: string, stamp: string, fetched: Option<AiFile>, failing: set<string>)
      returns (raised: bool)
      modifies this`aiImages
      ensures (raised, aiImages) == SaveSpec(old(aiImages), prompt, stamp, fetched, failing)
    {
      SavePromptToFile(prompt, PromptName(stamp), failing);
      var ok := DownloadImage(ImageName(stamp), fetched, failing);
      if !ok {
        return true;
      }
      SliceAndSaveImages(ImageName(stamp), failing);
      raised := false;
    }

    /**
     * The webhook route. A save that raises is answered with 500 and leaves the URL
     * unmarked, so the callback can be retried; a save that completes marks the URL.
     */
    method HandleWebhook(data: Option<Payload>, stampArg: Option<string>, fetched: Option<AiFile>, failing: set<string>)
      returns (response: Response)
      modifies this
      ensures var a := Dispatch(data, stampArg, old(processedUrls));
        (a.Answer? ==> response == a.response && processedUrls == old(processedUrls) && aiImages == old(aiImages))
        && (a.Save? ==>
          var (raised, files) := SaveSpec(old(aiImages), a.prompt, a.stamp, fetched, failing);
          aiImages == files
          && (raised ==> response == InternalError && processedUrls == old(processedUrls))
          && (!raised ==> response == Saved200(a.url) && processedUrls == old(processedUrls) + {a.url}))
    {
      var a := Dispatch(data, stampArg, processedUrls);
      if a.Answer? {
        return a.response;
      }
      var raised := SaveImageAndPrompt(a.prompt, a.stamp, fetched, failing);
      if raised {
        return InternalError;
      }
      MarkAsProcessed(a.url);
      response := Saved200(a.url);
    }
  }
}
