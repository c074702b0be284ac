/**
 * The state every deployment manager works on: the vault's posts and images, the site's
 * posts and images, the AI image folders, and the `changes_made` flag. The methods of
 * `Site` are the managers' sync loops; each is specified by a fold over the files in the
 * order the directory listing happened to yield them, and the folds' properties are
 * proved for every order.
 */
module SiteSync {
  import opened Strings
  import opened Wrappers
  import opened Folders
  import opened ImageLinks

  /** No name occurs twice. */
  predicate Distinct(names: seq<string>) {
    forall i, j :: 0 <= i < j < |names| ==> names[i] != names[j]
  }

  /**
   * `order` is the order in which a pass over the posts `names` read them, stopping at
   * the first one that cannot be read: distinct posts of `names`, all of them when the
   * pass succeeded, ending with an unreadable post when it failed, every earlier one read.
   */
  predicate ReadOrder(names: set<string>, unreadable: set<string>, order: seq<string>, ok: bool) {
    Distinct(order) && (forall n :: n in order ==> n in names)
    && (ok ==> forall n :: n in names ==> n in order)
    && (!ok ==> |order| > 0 && order[|order| - 1] in unreadable)
    && (forall i :: 0 <= i < |order| - (if ok then 0 else 1) ==> order[i] !in unreadable)
  }

  /** The posts a pass read: its whole order when it succeeded, all but the failing last post otherwise. */
  function ReadPosts(order: seq<string>, ok: bool): set<string> {
    set i | 0 <= i < |order| - (if ok then 0 else 1) :: order[i]
  }

  /** A pass succeeds exactly when no post of `names` is unreadable. */
  lemma ReadOrderOk(names: set<string>, unreadable: set<string>, order: seq<string>, ok: bool)
    requires ReadOrder(names, unreadable, order, ok)
    ensures ok <==> names !! unreadable
    ensures ok ==> ReadPosts(order, ok) == names
  {
    if ok {
      forall n | n in names ensures n !in unreadable && n in ReadPosts(order, ok) {
        var i :| 0 <= i < |order| && order[i] == n;
      }
    } else {
      assert order[|order| - 1] in names;
    }
  }

  /** The four folders a content sync touches, and the `changes_made` flag. */
  datatype Store = Store(posts: Folder, sitePosts: Folder, vaultImages: Folder, siteImages: Folder, changes: bool)

  /** The text of a post in a folder (only asked of names the folder holds). */
  function Text(f: Folder, name: string): string {
    if name in Files(f) then Files(f)[name].content else ""
  }

  // ---------------------------------------------------------------------------------------
  // content sync, always policy

  /**
   * One file of the always-rewrite policy: the post is rewritten with `!`-links, its
   * legacy images are renamed in the vault, and the rewritten text is written to the
   * vault post and to the same-named site post.
   */
  function AlwaysStep(st: Store, name: string, now: int): Store {
    var content := Text(st.posts, name);
    var text := Rewrite(content, true);
    var images := FindLegacy(content);
    Store(Write(st.posts, name, text, now), Write(st.sitePosts, name, text, now),
          RenameAll(st.vaultImages, images), st.siteImages,
          st.changes || AnyRenames(st.vaultImages, images))
  }

  /** The always policy over the files in the order they were listed. */
  function AlwaysFold(st: Store, names: seq<string>, now: int): Store
    decreases |names|
  {
    if |names| == 0 then st
    else AlwaysStep(AlwaysFold(st, names[..|names| - 1], now), names[|names| - 1], now)
  }

  /**
   * After the always policy, every listed file holds, in the vault and on the site, the
   * rewrite of its original text, stamped with the time of the run; every other post is
   * untouched and the site images are unchanged.
   */
  lemma {:induction false} AlwaysFoldWrites(st: Store, names: seq<string>, now: int)
    requires Distinct(names)
    ensures var r := AlwaysFold(st, names, now);
      (forall n :: n in names ==>
        n in Files(r.posts) && n in Files(r.sitePosts) &&
        Files(r.posts)[n] == FileEntry(Rewrite(Text(st.posts, n), true), now) &&
        Files(r.sitePosts)[n] == Files(r.posts)[n])
      && (forall n :: n !in names && n in Files(st.posts) ==> n in Files(r.posts) && Files(r.posts)[n] == Files(st.posts)[n])
      && (forall n :: n !in names && n in Files(st.sitePosts) ==> n in Files(r.sitePosts) && Files(r.sitePosts)[n] == Files(st.sitePosts)[n])
      && (forall n :: n in Files(r.posts) ==> n in Files(st.posts) || n in names)
      && r.siteImages == st.siteImages
    decreases |names|
  {
    if |names| > 0 {
      var init := names[..|names| - 1];
      var last := names[|names| - 1];
      assert Distinct(init);
      AlwaysFoldWrites(st, init, now);
      var m := AlwaysFold(st, init, now);
      assert last !in init;
      assert Text(m.posts, last) == Text(st.posts, last);
      forall n | n in names
        ensures n == last || n in init
      {
        var i :| 0 <= i < |names| && names[i] == n;
        if i < |names| - 1 {
          assert init[i] == n;
        }
      }
    }
  }

  // ---------------------------------------------------------------------------------------
  // the site-image copies of the stale policy

  /** What the missing-image check of one file leaves: the site images, and whether an image was missing or copied. */
  datatype Copied = Copied(site: Folder, missing: bool, copied: bool)

  /**
   * The missing-image check of the stale policy over a file's references, in order: an
   * image whose underscored name the site lacks marks the file as missing images, and is
   * copied there from the vault under its original name when the vault has it.
   */
  function CopyMissing(site: Folder, vault: Folder, images: seq<string>): (c: Copied)
    ensures forall k :: k in Files(site) ==> k in Files(c.site) && Files(c.site)[k] == Files(site)[k]
    ensures forall k :: k in Files(c.site) && k !in Files(site) ==>
      exists i :: 0 <= i < |images| && k == Underscore(images[i]) && Has(vault, images[i]) && Files(c.site)[k] == vault.files[images[i]]
    ensures c.copied ==> c.missing
    ensures site.Present? ==> c.site.Present?
    decreases |images|
  {
    if |images| == 0 then Copied(site, false, false)
    else
      var c := CopyMissing(site, vault, images[..|images| - 1]);
      var x := images[|images| - 1];
      var dest := Underscore(x);
      if Has(c.site, dest) then c
      else if Has(vault, x) then Copied(Present(Files(c.site)[dest := vault.files[x]]), true, true)
      else Copied(c.site, true, c.copied)
  }

  /** A file misses images exactly when the site lacked the underscored name of one of its references. */
  lemma {:induction false} CopyMissingFlag(site: Folder, vault: Folder, images: seq<string>)
    ensures CopyMissing(site, vault, images).missing <==>
      exists i :: 0 <= i < |images| && !Has(site, Underscore(images[i]))
    decreases |images|
  {
    if |images| > 0 {
      var init := images[..|images| - 1];
      CopyMissingFlag(site, vault, init);
      var c := CopyMissing(site, vault, init);
      var x := images[|images| - 1];
      var dest := Underscore(x);
      if exists i :: 0 <= i < |init| && !Has(site, Underscore(init[i])) {
        var i :| 0 <= i < |init| && !Has(site, Underscore(init[i]));
        assert images[i] == init[i];
      } else if !Has(site, dest) {
        // no earlier reference was missing, so no earlier copy can have added `dest`
        forall i | 0 <= i < |init| ensures Underscore(init[i]) != dest {
          assert Has(site, Underscore(init[i]));
        }
        assert dest !in Files(site);
      } else {
        assert dest in Files(site);
        assert Has(c.site, dest);
        forall i | 0 <= i < |images| ensures Has(site, Underscore(images[i])) {
          if i < |init| {
            assert images[i] == init[i];
          }
        }
      }
    }
  }

  // ---------------------------------------------------------------------------------------
  // content sync, stale policy

  /** The images a post refers to: its legacy links, then its site links. */
  function References(content: string): seq<string> {
    FindLegacy(content) + FindMarkdownImages(content)
  }

  /** The stale policy skips a file whose site copy exists, is not older, and misses no image. */
  predicate Skips(st: Store, name: string, missing: bool) {
    name in Files(st.sitePosts) && name in Files(st.posts) &&
    Files(st.sitePosts)[name].mtime >= Files(st.posts)[name].mtime && !missing
  }

  /**
   * One file of the stale policy: the missing-image check and copies, then, unless the
   * file is skipped, the rewrite with plain links, the vault renames and both writes.
   * The flag says whether the file was counted as processed.
   */
  function StaleStep(st: Store, name: string, now: int): (Store, bool) {
    var c := CopyMissing(st.siteImages, st.vaultImages, References(Text(st.posts, name)));
    var checked := st.(siteImages := c.site, changes := st.changes || c.copied);
    if Skips(st, name, c.missing) then (checked, false)
    else (Process(checked, name, now), true)
  }

  /** The rewrite with plain links, the vault renames and both writes of a processed file. */
  function Process(st: Store, name: string, now: int): Store {
    var content := Text(st.posts, name);
    var images := FindLegacy(content);
    var text := Rewrite(content, false);
    Store(Write(st.posts, name, text, now), Write(st.sitePosts, name, text, now),
          RenameAll(st.vaultImages, images), st.siteImages,
          st.changes || AnyRenames(st.vaultImages, images))
  }

  /** The state after a run of the stale policy, and the number of files it processed. */
  datatype Pass = Pass(store: Store, processed: nat)

  /** The stale policy over the files in the order they were listed. */
  function StaleFold(st: Store, names: seq<string>, now: int): Pass
    decreases |names|
  {
    if |names| == 0 then Pass(st, 0)
    else
      var p := StaleFold(st, names[..|names| - 1], now);
      var (r, counted) := StaleStep(p.store, names[|names| - 1], now);
      Pass(r, if counted then p.processed + 1 else p.processed)
  }

  /** A run in which some file was processed reports a positive count (which sets `changes_made`). */
  lemma {:induction false} StaleFoldCounts(st: Store, names: seq<string>, now: int, i: nat)
    requires i < |names|
    requires StaleStep(StaleFold(st, names[..i], now).store, names[i], now).1
    ensures StaleFold(st, names, now).processed > 0
    decreases |names|
  {
    if i < |names| - 1 {
      assert names[..|names| - 1][..i] == names[..i];
      StaleFoldCounts(st, names[..|names| - 1], now, i);
    } else {
      assert names[..i] == names[..|names| - 1];
    }
  }

  /**
   * A file is processed exactly when its site copy is absent or older than the vault
   * post, or the site lacks the underscored name of one of its references. Site images
   * are only ever added.
   */
  lemma StaleStepCounts(st: Store, name: string, now: int)
    requires name in Files(st.posts)
    ensures var refs := References(Files(st.posts)[name].content);
      StaleStep(st, name, now).1 <==>
        name !in Files(st.sitePosts) || Files(st.sitePosts)[name].mtime < Files(st.posts)[name].mtime ||
        exists i :: 0 <= i < |refs| && !Has(st.siteImages, Underscore(refs[i]))
    ensures var r := StaleStep(st, name, now).0;
      forall k :: k in Files(st.siteImages) ==> k in Files(r.siteImages) && Files(r.siteImages)[k] == Files(st.siteImages)[k]
  {
    var refs := References(Files(st.posts)[name].content);
    var c := CopyMissing(st.siteImages, st.vaultImages, refs);
    CopyMissingFlag(st.siteImages, st.vaultImages, refs);
    assert StaleStep(st, name, now).1 == !Skips(st, name, c.missing);
  }

  /**
   * After its step a file is settled: the site copy exists and is not older than the
   * vault post. So a later run skips it unless one of its images is missing then.
   */
  lemma StaleStepSettles(st: Store, name: string, now: int, later: int)
    requires name in Files(st.posts)
    ensures var r := StaleStep(st, name, now).0;
      name in Files(r.posts) && name in Files(r.sitePosts) &&
      Files(r.sitePosts)[name].mtime >= Files(r.posts)[name].mtime &&
      (StaleStep(r, name, later).1 <==>
        var refs := References(Files(r.posts)[name].content);
        exists i :: 0 <= i < |refs| && !Has(r.siteImages, Underscore(refs[i])))
  {
    var r := StaleStep(st, name, now).0;
    var refs := References(Files(r.posts)[name].content);
    CopyMissingFlag(r.siteImages, r.vaultImages, refs);
  }

  /**
   * A file referring to an image that neither the site (under its underscored name) nor
   * the vault (under any reference with that underscored name) holds is processed, and
   * the image is still absent afterwards: so every later run that still sees the
   * reference processes the file again.
   */
  lemma StaleAbsentImage(st: Store, name: string, now: int, x: string)
    requires name in Files(st.posts)
    requires x in References(Files(st.posts)[name].content)
    requires !Has(st.siteImages, Underscore(x))
    requires forall y :: y in References(Files(st.posts)[name].content) && Underscore(y) == Underscore(x) ==> !Has(st.vaultImages, y)
    ensures var (r, counted) := StaleStep(st, name, now);
      counted && !Has(r.siteImages, Underscore(x))
  {
    var refs := References(Files(st.posts)[name].content);
    var i :| 0 <= i < |refs| && refs[i] == x;
    StaleStepCounts(st, name, now);
    var c := CopyMissing(st.siteImages, st.vaultImages, refs);
    assert !Has(st.siteImages, Underscore(refs[i]));
    assert StaleStep(st, name, now).0.siteImages == c.site;
    forall j | 0 <= j < |refs| ensures Underscore(refs[j]) != Underscore(x) || !Has(st.vaultImages, refs[j]) {
      assert refs[j] in refs;
    }
    assert Underscore(x) !in Files(st.siteImages);
    assert Underscore(x) !in Files(c.site);
  }

  /** A file with nothing missing leaves the site images as they are and copies nothing. */
  lemma {:induction false} CopyMissingNone(site: Folder, vault: Folder, images: seq<string>)
    requires forall i :: 0 <= i < |images| ==> Has(site, Underscore(images[i]))
    ensures CopyMissing(site, vault, images) == Copied(site, false, false)
    decreases |images|
  {
    if |images| > 0 {
      CopyMissingNone(site, vault, images[..|images| - 1]);
    }
  }

  /**
   * A vault post the stale policy has nothing to do for: its site copy exists and is not
   * older, and the site holds the underscored name of every image it refers to.
   */
  predicate PostCurrent(st: Store, name: string) {
    name in Files(st.posts) && name in Files(st.sitePosts) &&
    Files(st.sitePosts)[name].mtime >= Files(st.posts)[name].mtime &&
    forall x :: x in References(Files(st.posts)[name].content) ==> Has(st.siteImages, Underscore(x))
  }

  /** The stale policy leaves a current post and everything else alone, and does not count it. */
  lemma StaleStepCurrent(st: Store, name: string, now: int)
    requires PostCurrent(st, name)
    ensures StaleStep(st, name, now) == (st, false)
  {
    var refs := References(Text(st.posts, name));
    forall i | 0 <= i < |refs| ensures Has(st.siteImages, Underscore(refs[i])) {
      assert refs[i] in refs;
    }
    CopyMissingNone(st.siteImages, st.vaultImages, refs);
  }

  /** A run of the stale policy over current posts changes nothing and processes nothing. */
  lemma {:induction false} StaleFoldCurrent(st: Store, names: seq<string>, now: int)
    requires forall n :: n in names ==> PostCurrent(st, n)
    ensures StaleFold(st, names, now) == Pass(st, 0)
    decreases |names|
  {
    if |names| > 0 {
      var init := names[..|names| - 1];
      assert forall n :: n in init ==> n in names;
      StaleFoldCurrent(st, init, now);
      StaleStepCurrent(st, names[|names| - 1], now);
    }
  }

  /** A step of the stale policy keeps every vault post. */
  lemma StaleStepKeepsPosts(st: Store, name: string, now: int)
    ensures Files(st.posts).Keys <= Files(StaleStep(st, name, now).0.posts).Keys
  {
  }

  /** A step of the always policy keeps every vault post. */
  lemma AlwaysStepKeepsPosts(st: Store, name: string, now: int)
    ensures Files(st.posts).Keys <= Files(AlwaysStep(st, name, now).posts).Keys
  {
  }

  /** A run of the stale policy over one more listed file is the run followed by that file's step. */
  lemma StaleFoldStep(st: Store, names: seq<string>, i: nat, now: int,
                      before: Store, processed: nat, after: Store, counted: bool)
    requires i < |names|
    requires StaleFold(st, names[..i], now) == Pass(before, processed)
    requires (after, counted) == StaleStep(before, names[i], now)
    ensures StaleFold(st, names[..i + 1], now) == Pass(after, if counted then processed + 1 else processed)
  {
    assert names[..i + 1][..i] == names[..i];
  }

  /** A run of the always policy over no file changes nothing. */
  lemma AlwaysFoldEmpty(st: Store, now: int)
    ensures AlwaysFold(st, [], now) == st
  {
  }

  /** A run of the always policy over one more listed file is the run followed by that file's step. */
  lemma AlwaysFoldStep(st: Store, names: seq<string>, i: nat, now: int, before: Store, after: Store)
    requires i < |names|
    requires AlwaysFold(st, names[..i], now) == before
    requires after == AlwaysStep(before, names[i], now)
    ensures AlwaysFold(st, names[..i + 1], now) == after
  {
    assert names[..i + 1][..i] == names[..i];
  }

  // ---------------------------------------------------------------------------------------
  // image sync

  /** The site links of a site post. */
  function Links(sitePosts: Folder, name: string): seq<string> {
    FindMarkdownImages(Text(sitePosts, name))
  }

  /** A site post links an image the site images lack. */
  predicate MissesImage(sitePosts: Folder, siteImages: Folder, name: string) {
    exists j :: 0 <= j < |Links(sitePosts, name)| && !Has(siteImages, Links(sitePosts, name)[j])
  }

  /** Some post among `names` links an image the site images lack. */
  predicate AnyMissing(sitePosts: Folder, siteImages: Folder, names: set<string>) {
    exists n :: n in names && MissesImage(sitePosts, siteImages, n)
  }

  /** Every image linked from the posts in `names`. */
  function RefsOf(sitePosts: Folder, names: set<string>): set<string> {
    set n, x | n in names && x in Links(sitePosts, n) :: x
  }

  /** Every image linked from a site post. */
  function Refs(sitePosts: Folder): set<string> {
    RefsOf(sitePosts, MdNames(sitePosts))
  }

  lemma RefsOfAdd(sitePosts: Folder, names: set<string>, name: string, handled: set<string>)
    requires handled == set j | 0 <= j < |Links(sitePosts, name)| :: Links(sitePosts, name)[j]
    ensures RefsOf(sitePosts, names + {name}) == RefsOf(sitePosts, names) + handled
  {
    forall x | x in RefsOf(sitePosts, names + {name}) ensures x in RefsOf(sitePosts, names) + handled {
      var n :| n in names + {name} && x in Links(sitePosts, n);
      if n == name {
        var j :| 0 <= j < |Links(sitePosts, name)| && Links(sitePosts, name)[j] == x;
      }
    }
    forall x | x in handled ensures x in RefsOf(sitePosts, names + {name}) {
      var j :| 0 <= j < |Links(sitePosts, name)| && Links(sitePosts, name)[j] == x;
      assert x in Links(sitePosts, name);
    }
  }

  /** After copying every source name, the names outside the source are exactly the destination's own. */
  lemma MirrorFromCopy(dst: map<string, FileEntry>, src: map<string, FileEntry>)
    ensures var c := CopyStale(dst, src, src.Keys);
      (map k | k in c && k in src :: c[k]) == Mirror(dst, src)
      && (forall k :: k in c && k !in src <==> k in dst && k !in src)
  {
  }

  /** The AI images left after the orphans among `checked` were deleted. */
  ghost function Kept(copied: map<string, FileEntry>, src: map<string, FileEntry>, checked: set<string>): map<string, FileEntry> {
    map k | k in copied && (k in src || k !in checked) :: copied[k]
  }

  /** Checking one more name deletes it exactly when the source lacks it. */
  lemma KeptStep(copied: map<string, FileEntry>, src: map<string, FileEntry>, checked: set<string>, name: string)
    requires name in copied && name !in checked
    ensures Kept(copied, src, checked + {name}) ==
      if name in src then Kept(copied, src, checked) else Kept(copied, src, checked) - {name}
  {
  }

  // ---------------------------------------------------------------------------------------
  // the managers' state

  /** Lists a set of names in some order, each once: the order a directory listing gives. */
  method ListNames(names: set<string>) returns (listed: seq<string>)
    ensures Distinct(listed) && forall n :: n in listed <==> n in names
  {
    var remaining := names;
    listed := [];
    while remaining != {}
      invariant forall n :: n in names <==> n in remaining || n in listed
      invariant forall n :: n in remaining ==> n !in listed && n in names
      invariant Distinct(listed)
      decreases remaining
    {
      var n :| n in remaining;
      listed := listed + [n];
      remaining := remaining - {n};
    }
  }

  class Site {
    /** The vault's posts, the folder the content sync reads. */
    var posts: Folder
    /** The site's posts. */
    var sitePosts: Folder
    /** The vault's images. */
    var vaultImages: Folder
    /** The site's static images. */
    var siteImages: Folder
    /** The vault's AI images. */
    var vaultAi: Folder
    /** The site's AI images. */
    var siteAi: Folder
    var changesMade: bool

    /** The folders a content sync touches, with the flag. */
    function State(): Store
      reads this
    {
      Store(posts, sitePosts, vaultImages, siteImages, changesMade)
    }

    /** A fresh manager: `changes_made` starts False. */
    constructor (posts: Folder, sitePosts: Folder, vaultImages: Folder, siteImages: Folder, vaultAi: Folder, siteAi: Folder)
      ensures this.posts == posts && this.sitePosts == sitePosts
      ensures this.vaultImages == vaultImages && this.siteImages == siteImages
      ensures this.vaultAi == vaultAi && this.siteAi == siteAi
      ensures !changesMade
    {
      this.posts := posts;
      this.sitePosts := sitePosts;
      this.vaultImages := vaultImages;
      this.siteImages := siteImages;
      this.vaultAi := vaultAi;
      this.siteAi := siteAi;
      changesMade := false;
    }

    /**
     * The rewriter: for each legacy link found in `content`, in order, renames the vault
     * image to its underscored name when it exists under a different name (setting
     * `changes_made`), and replaces every occurrence of the link.
     */
    method ProcessImagePaths(content: string, bang: bool) returns (r: string)
      modifies this`vaultImages, this`changesMade
      ensures r == Rewrite(content, bang)
      ensures vaultImages == RenameAll(old(vaultImages), FindLegacy(content))
      ensures changesMade == (old(changesMade) || AnyRenames(old(vaultImages), FindLegacy(content)))
    {
      var images := FindLegacy(content);
      r := content;
      var i := 0;
      while i < |images|
        invariant 0 <= i <= |images|
        invariant RewriteWith(r, images[i..], bang) == Rewrite(content, bang)
        invariant vaultImages == RenameAll(old(vaultImages), images[..i])
        invariant changesMade == (old(changesMade) || AnyRenames(old(vaultImages), images[..i]))
      {
        var image := images[i];
        var renamed := Underscore(image);
        assert images[i..][1..] == images[i + 1..];
        RenameStep(old(vaultImages), images, i);
        ghost var v := vaultImages;
        if Has(vaultImages, image) && image != renamed {
          vaultImages := Present((vaultImages.files - {image})[renamed := vaultImages.files[image]]);
          changesMade := true;
        }
        assert vaultImages == RenameImage(v, image) && (changesMade == (old(changesMade) || AnyRenames(old(vaultImages), images[..i]) || Renames(v, image)));
        ghost var r0 := r;
        r := ReplaceAll(r, LegacyText(image), LinkText(bang, renamed));
        assert RewriteWith(r0, images[i..], bang) == RewriteWith(r, images[i + 1..], bang);
        i := i + 1;
      }
      assert images[..i] == images;
    }

    /**
     * The always policy of the content sync: creates the site's post folder, then for
     * every vault post rewrites it and writes the result to both sides; `changes_made`
     * is set when at least one post was processed. A post that cannot be read ends the
     * sync with False, keeping the writes already made.
     */
    method SyncContentAlways(now: int, unreadable: set<string>) returns (ok: bool, ghost order: seq<string>)
      modifies this`posts, this`sitePosts, this`vaultImages, this`changesMade
      ensures ok == (MdNames(old(posts)) !! unreadable)
      ensures ReadOrder(MdNames(old(posts)), unreadable, order, ok)
      ensures var start := old(State()).(sitePosts := Ensure(old(sitePosts)));
        var s := AlwaysFold(start, if ok then order else order[..|order| - 1], now);
        State() == s.(changes := s.changes || (ok && |order| > 0))
      ensures ok ==> (changesMade <==> old(changesMade) || MdNames(old(posts)) != {})
    {
      hide AlwaysFold;
      sitePosts := Ensure(sitePosts);
      ghost var start := State();
      var names := ListNames(MdNames(posts));
      var stop := AlwaysPass(names, now, unreadable);
      if stop < |names| {
        order := names[..stop + 1];
        assert order[..stop] == names[..stop];
        return false, order;
      }
      assert names[..stop] == names;
      if |names| > 0 {
        assert names[0] in MdNames(old(posts));
        changesMade := true;
      } else {
        AlwaysFoldEmpty(start, now);
      }
      return true, names;
    }

    /**
     * The loop of the always policy over the listed posts: stops at the first unreadable
     * one, and otherwise rewrites each in turn.
     */
    method AlwaysPass(names: seq<string>, now: int, unreadable: set<string>) returns (stop: nat)
      requires forall n :: n in names ==> n in Files(posts)
      modifies this`posts, this`sitePosts, this`vaultImages, this`changesMade
      ensures stop <= |names|
      ensures forall k :: 0 <= k < stop ==> names[k] !in unreadable
      ensures stop < |names| ==> names[stop] in unreadable
      ensures State() == AlwaysFold(old(State()), names[..stop], now)
    {
      hide AlwaysStep;
      ghost var start := State();
      stop := 0;
      while stop < |names| && names[stop] !in unreadable
        invariant stop <= |names|
        invariant forall k :: 0 <= k < stop ==> names[k] !in unreadable
        invariant Files(start.posts).Keys <= Files(posts).Keys
        invariant State() == AlwaysFold(start, names[..stop], now)
      {
        var name := names[stop];
        ghost var before := State();
        AlwaysStepKeepsPosts(before, name, now);
        SyncAlwaysPost(name, now);
        AlwaysFoldStep(start, names, stop, now, before, State());
        stop := stop + 1;
      }
    }

    /** One file of the always policy: its rewrite is written to both sides. */
    method SyncAlwaysPost(name: string, now: int)
      requires name in Files(posts)
      modifies this`posts, this`sitePosts, this`vaultImages, this`changesMade
      ensures State() == AlwaysStep(old(State()), name, now)
    {
      var content := Files(posts)[name].content;
      var text := ProcessImagePaths(content, true);
      posts := Write(posts, name, text, now);
      sitePosts := Write(sitePosts, name, text, now);
    }

    /**
     * The missing-image check of the stale policy for one file: each reference whose
     * underscored name the site lacks marks the file, and is copied from the vault under
     * its original name when there (setting `changes_made`).
     */
    method CopyMissingImages(images: seq<string>) returns (missing: bool)
      modifies this`siteImages, this`changesMade
      ensures var c := CopyMissing(old(siteImages), vaultImages, images);
        siteImages == c.site && missing == c.missing && changesMade == (old(changesMade) || c.copied)
    {
      missing := false;
      var i := 0;
      while i < |images|
        invariant 0 <= i <= |images|
        invariant var c := CopyMissing(old(siteImages), vaultImages, images[..i]);
          siteImages == c.site && missing == c.missing && changesMade == (old(changesMade) || c.copied)
      {
        assert images[..i + 1][..i] == images[..i];
        var dest := Underscore(images[i]);
        if !Has(siteImages, dest) {
          missing := true;
          if Has(vaultImages, images[i]) {
            siteImages := Present(Files(siteImages)[dest := vaultImages.files[images[i]]]);
            changesMade := true;
          }
        }
        i := i + 1;
      }
      assert images[..i] == images;
    }

    /** One file of the stale policy; the result says whether it was processed. */
    method SyncStalePost(name: string, now: int) returns (counted: bool)
      requires name in Files(posts)
      modifies this`posts, this`sitePosts, this`vaultImages, this`siteImages, this`changesMade
      ensures (State(), counted) == StaleStep(old(State()), name, now)
    {
      var content := Files(posts)[name].content;
      var missing := CopyMissingImages(References(content));
      if name in Files(sitePosts) && Files(sitePosts)[name].mtime >= Files(posts)[name].mtime && !missing {
        counted := false;
      } else {
        counted := true;
        var text := ProcessImagePaths(content, false);
        posts := Write(posts, name, text, now);
        sitePosts := Write(sitePosts, name, text, now);
      }
    }

    /**
     * The stale policy of the content sync: creates the site's post folder, then for every
     * vault post copies its missing images, skips it when its site copy is up to date and
     * no image was missing, and otherwise rewrites it with plain links and writes it to
     * both sides; `changes_made` is set when at least one post was processed. A post that
     * cannot be read ends the sync with False, keeping what was already done.
     */
    method SyncContentIfStale(now: int, unreadable: set<string>) returns (ok: bool, ghost order: seq<string>)
      modifies this`posts, this`sitePosts, this`vaultImages, this`siteImages, this`changesMade
      ensures ok == (MdNames(old(posts)) !! unreadable)
      ensures ReadOrder(MdNames(old(posts)), unreadable, order, ok)
      ensures var start := old(State()).(sitePosts := Ensure(old(sitePosts)));
        var p := StaleFold(start, if ok then order else order[..|order| - 1], now);
        State() == p.store.(changes := p.store.changes || (ok && p.processed > 0))
    {
      hide StaleFold;
      sitePosts := Ensure(sitePosts);
      var names := ListNames(MdNames(posts));
      var stop, processed := StalePass(names, now, unreadable);
      if stop < |names| {
        order := names[..stop + 1];
        assert order[..stop] == names[..stop];
        return false, order;
      }
      assert names[..stop] == names;
      if processed > 0 {
        changesMade := true;
      }
      return true, names;
    }

    /**
     * The loop of the stale policy over the listed posts: stops at the first unreadable
     * one, and otherwise runs the stale step on each in turn.
     */
    method StalePass(names: seq<string>, now: int, unreadable: set<string>) returns (stop: nat, processed: nat)
      requires forall n :: n in names ==> n in Files(posts)
      modifies this`posts, this`sitePosts, this`vaultImages, this`siteImages, this`changesMade
      ensures stop <= |names|
      ensures forall k :: 0 <= k < stop ==> names[k] !in unreadable
      ensures stop < |names| ==> names[stop] in unreadable
      ensures StaleFold(old(State()), names[..stop], now) == Pass(State(), processed)
    {
      hide StaleStep;
      ghost var start := State();
      processed := 0;
      stop := 0;
      while stop < |names| && names[stop] !in unreadable
        invariant stop <= |names|
        invariant forall k :: 0 <= k < stop ==> names[k] !in unreadable
        invariant Files(start.posts).Keys <= Files(posts).Keys
        invariant StaleFold(start, names[..stop], now) == Pass(State(), processed)
      {
        var name := names[stop];
        ghost var before := State();
        StaleStepKeepsPosts(before, name, now);
        var counted := SyncStalePost(name, now);
        StaleFoldStep(start, names, stop, now, before, processed, State(), counted);
        processed := if counted then processed + 1 else processed;
        stop := stop + 1;
      }
    }

    /**
     * The verify-only image sync: fails when the site posts, vault images or site images
     * folder is missing, and otherwise reads the site posts in turn, setting `changes_made`
     * when one links an image the site lacks; a post that cannot be read ends the sync
     * with False, keeping the flag set by the posts read before it. Nothing is copied.
     */
    method VerifyImages(siteUnreadable: set<string>) returns (ok: bool, ghost order: seq<string>)
      modifies this`changesMade
      ensures var folders := sitePosts.Present? && vaultImages.Present? && siteImages.Present?;
        ok == (folders && MdNames(sitePosts) !! siteUnreadable)
        && (folders ==> ReadOrder(MdNames(sitePosts), siteUnreadable, order, ok))
        && (!folders ==> order == [])
      ensures changesMade == (old(changesMade) || AnyMissing(sitePosts, siteImages, ReadPosts(order, ok)))
    {
      order := [];
      if !(sitePosts.Present? && vaultImages.Present? && siteImages.Present?) {
        return false, order;
      }
      var remaining := MdNames(sitePosts);
      ghost var seen: set<string> := {};
      while remaining != {}
        invariant remaining + seen == MdNames(sitePosts) && remaining !! seen
        invariant Distinct(order) && forall n :: n in order <==> n in seen
        invariant forall i :: 0 <= i < |order| ==> order[i] !in siteUnreadable
        invariant seen == ReadPosts(order, true)
        invariant changesMade == (old(changesMade) || AnyMissing(sitePosts, siteImages, seen))
        decreases remaining
      {
        var name :| name in remaining;
        if name in siteUnreadable {
          ghost var before := order;
          order := order + [name];
          assert ReadPosts(order, false) == ReadPosts(before, true) by {
            assert forall i :: 0 <= i < |before| ==> order[i] == before[i];
          }
          return false, order;
        }
        var links := FindMarkdownImages(Files(sitePosts)[name].content);
        assert links == Links(sitePosts, name);
        var i := 0;
        while i < |links|
          invariant 0 <= i <= |links|
          invariant changesMade == (old(changesMade) || AnyMissing(sitePosts, siteImages, seen) ||
            exists j :: 0 <= j < i && !Has(siteImages, links[j]))
        {
          if !Has(siteImages, links[i]) {
            changesMade := true;
          }
          i := i + 1;
        }
        assert AnyMissing(sitePosts, siteImages, seen + {name}) ==
          (AnyMissing(sitePosts, siteImages, seen) || MissesImage(sitePosts, siteImages, name));
        remaining := remaining - {name};
        seen := seen + {name};
        order := order + [name];
      }
      ok := true;
      ReadOrderOk(MdNames(sitePosts), siteUnreadable, order, ok);
    }

    /** The copies for one post's links, continuing a pass that has handled `done`. */
    method CopyLinked(links: seq<string>, ghost dst: map<string, FileEntry>, ghost done: set<string>, ghost c0: bool)
      returns (ghost handled: set<string>)
      requires siteImages == Present(CopyStale(dst, Files(vaultImages), done))
      requires changesMade == (c0 || exists k :: k in done && Stale(dst, Files(vaultImages), k))
      modifies this`siteImages, this`changesMade
      ensures handled == set j | 0 <= j < |links| :: links[j]
      ensures siteImages == Present(CopyStale(dst, Files(vaultImages), done + handled))
      ensures changesMade == (c0 || exists k :: k in done + handled && Stale(dst, Files(vaultImages), k))
    {
      ghost var src := Files(vaultImages);
      ghost var acc := done;
      handled := {};
      var i := 0;
      while i < |links|
        invariant 0 <= i <= |links|
        invariant handled == set j | 0 <= j < i :: links[j]
        invariant acc == done + handled
        invariant siteImages == Present(CopyStale(dst, src, acc))
        invariant changesMade == (c0 || exists k :: k in acc && Stale(dst, src, k))
      {
        var image := links[i];
        CopyOne(dst, acc, image);
        handled := handled + {image};
        acc := acc + {image};
        assert (set j | 0 <= j < i + 1 :: links[j]) == (set j | 0 <= j < i :: links[j]) + {links[i]};
        i := i + 1;
      }
    }

    /** One copy of the image passes, continuing a pass that has handled `acc`. */
    method CopyOne(ghost dst: map<string, FileEntry>, ghost acc: set<string>, image: string)
      requires siteImages == Present(CopyStale(dst, Files(vaultImages), acc))
      modifies this`siteImages, this`changesMade
      ensures siteImages == Present(CopyStale(dst, Files(vaultImages), acc + {image}))
      ensures changesMade == (old(changesMade) || (image !in acc && Stale(dst, Files(vaultImages), image)))
    {
      CopyStaleStep(dst, Files(vaultImages), acc, image);
      StaleAfterCopy(dst, Files(vaultImages), acc, image);
      if Stale(Files(siteImages), Files(vaultImages), image) {
        siteImages := Present(Files(siteImages)[image := Files(vaultImages)[image]]);
        changesMade := true;
      }
    }

    /**
     * The copying image sync: fails when the site posts, vault images or site images
     * folder is missing; otherwise reads the site posts in turn and copies every image
     * they link that the vault has over a missing or older site copy, setting
     * `changes_made` for each copy. A post that cannot be read ends the sync with False,
     * keeping the copies made for the posts read before it. Nothing is deleted.
     */
    method CopyReferencedImages(siteUnreadable: set<string>) returns (ok: bool, ghost order: seq<string>)
      modifies this`siteImages, this`changesMade
      ensures var folders := sitePosts.Present? && vaultImages.Present? && old(siteImages).Present?;
        ok == (folders && MdNames(sitePosts) !! siteUnreadable)
        && (folders ==> ReadOrder(MdNames(sitePosts), siteUnreadable, order, ok))
        && (!folders ==> order == [] && siteImages == old(siteImages) && changesMade == old(changesMade))
      ensures var read := RefsOf(sitePosts, ReadPosts(order, ok));
        sitePosts.Present? && vaultImages.Present? && old(siteImages).Present? ==>
          siteImages == Present(CopyStale(Files(old(siteImages)), Files(vaultImages), read))
          && changesMade == (old(changesMade) || exists k :: k in read && Stale(Files(old(siteImages)), Files(vaultImages), k))
      ensures ok ==> siteImages == Present(CopyStale(Files(old(siteImages)), Files(vaultImages), Refs(sitePosts)))
    {
      order := [];
      if !(sitePosts.Present? && vaultImages.Present? && siteImages.Present?) {
        return false, order;
      }
      ghost var dst := Files(siteImages);
      ghost var src := Files(vaultImages);
      var remaining := MdNames(sitePosts);
      ghost var seen: set<string> := {};
      ghost var done: set<string> := {};
      while remaining != {}
        invariant remaining + seen == MdNames(sitePosts) && remaining !! seen
        invariant Distinct(order) && forall n :: n in order <==> n in seen
        invariant forall i :: 0 <= i < |order| ==> order[i] !in siteUnreadable
        invariant seen == ReadPosts(order, true)
        invariant done == RefsOf(sitePosts, seen)
        invariant siteImages == Present(CopyStale(dst, src, done))
        invariant changesMade == (old(changesMade) || exists k :: k in done && Stale(dst, src, k))
        decreases remaining
      {
        var name :| name in remaining;
        if name in siteUnreadable {
          ghost var before := order;
          order := order + [name];
          assert ReadPosts(order, false) == ReadPosts(before, true) by {
            assert forall i :: 0 <= i < |before| ==> order[i] == before[i];
          }
          return false, order;
        }
        var links := FindMarkdownImages(Files(sitePosts)[name].content);
        assert links == Links(sitePosts, name);
        ghost var handled := CopyLinked(links, dst, done, old(changesMade));
        RefsOfAdd(sitePosts, seen, name, handled);
        done := done + handled;
        remaining := remaining - {name};
        seen := seen + {name};
        order := order + [name];
      }
      ok := true;
      ReadOrderOk(MdNames(sitePosts), siteUnreadable, order, ok);
    }

    /**
     * The AI image mirror: fails when either AI folder is missing; otherwise copies every
     * vault AI image over a missing or older site copy, then deletes every site AI image
     * the vault does not have, setting `changes_made` for each copy and deletion.
     */
    method MirrorAiImages() returns (ok: bool)
      modifies this`siteAi, this`changesMade
      ensures ok == (vaultAi.Present? && old(siteAi).Present?)
      ensures !ok ==> siteAi == old(siteAi) && changesMade == old(changesMade)
      ensures ok ==> siteAi == Present(Mirror(Files(old(siteAi)), Files(vaultAi)))
      ensures ok ==> changesMade == (old(changesMade) || MirrorChanges(Files(old(siteAi)), Files(vaultAi)))
    {
      if !(vaultAi.Present? && siteAi.Present?) {
        return false;
      }
      ghost var dst := Files(siteAi);
      CopyAiImages();
      MirrorFromCopy(dst, Files(vaultAi));
      DeleteOrphanAiImages(dst);
      ok := true;
    }

    /** The copy loop of the AI mirror: every vault AI image over a missing or older site copy. */
    method CopyAiImages()
      requires siteAi.Present?
      modifies this`siteAi, this`changesMade
      ensures siteAi == Present(CopyStale(Files(old(siteAi)), Files(vaultAi), Files(vaultAi).Keys))
      ensures changesMade == (old(changesMade) || exists k :: k in Files(vaultAi) && Stale(Files(old(siteAi)), Files(vaultAi), k))
    {
      ghost var dst := Files(siteAi);
      var src := Files(vaultAi);
      var remaining := src.Keys;
      ghost var done: set<string> := {};
      while remaining != {}
        invariant remaining + done == src.Keys && remaining !! done
        invariant siteAi == Present(CopyStale(dst, src, done))
        invariant changesMade == (old(changesMade) || exists k :: k in done && Stale(dst, src, k))
        decreases remaining
      {
        var name :| name in remaining;
        CopyStaleStep(dst, src, done, name);
        StaleAfterCopy(dst, src, done, name);
        if Stale(Files(siteAi), src, name) {
          siteAi := Present(Files(siteAi)[name := src[name]]);
          changesMade := true;
        }
        remaining := remaining - {name};
        done := done + {name};
      }
    }

    /** The delete loop of the AI mirror: every site AI image the vault does not have. */
    method DeleteOrphanAiImages(ghost dst: map<string, FileEntry>)
      requires siteAi == Present(CopyStale(dst, Files(vaultAi), Files(vaultAi).Keys))
      modifies this`siteAi, this`changesMade
      ensures siteAi == Present(Mirror(dst, Files(vaultAi)))
      ensures changesMade == (old(changesMade) || exists k :: k in dst && k !in Files(vaultAi))
    {
      var src := Files(vaultAi);
      ghost var copied := Files(siteAi);
      MirrorFromCopy(dst, src);
      var toCheck := Files(siteAi).Keys;
      ghost var checked: set<string> := {};
      assert Files(siteAi) == Kept(copied, src, checked);
      while toCheck != {}
        invariant toCheck + checked == copied.Keys && toCheck !! checked
        invariant siteAi == Present(Kept(copied, src, checked))
        invariant changesMade == (old(changesMade) || exists k :: k in checked && k !in src)
        decreases toCheck
      {
        var name :| name in toCheck;
        KeptStep(copied, src, checked, name);
        if name !in src {
          siteAi := Present(Files(siteAi) - {name});
          changesMade := true;
        }
        toCheck := toCheck - {name};
        checked := checked + {name};
      }
      assert Kept(copied, src, checked) == map k | k in copied && k in src :: copied[k];
    }

    /**
     * The image sync of the main pipeline: the copying pass for linked images, then the
     * AI image mirror, whose folders are checked only after the first pass has succeeded.
     */
    method SyncImagesWithAi(siteUnreadable: set<string>) returns (ok: bool, ghost order: seq<string>)
      modifies this`siteImages, this`siteAi, this`changesMade
      ensures var folders := sitePosts.Present? && vaultImages.Present? && old(siteImages).Present?;
        var first := folders && MdNames(sitePosts) !! siteUnreadable;
        var read := RefsOf(sitePosts, ReadPosts(order, first));
        ok == (first && vaultAi.Present? && old(siteAi).Present?)
        && (folders ==> ReadOrder(MdNames(sitePosts), siteUnreadable, order, first))
        && siteImages == (if folders then Present(CopyStale(Files(old(siteImages)), Files(vaultImages), read)) else old(siteImages))
        && siteAi == (if ok then Present(Mirror(Files(old(siteAi)), Files(vaultAi))) else old(siteAi))
        && changesMade == (old(changesMade)
          || (folders && exists k :: k in read && Stale(Files(old(siteImages)), Files(vaultImages), k))
          || (ok && MirrorChanges(Files(old(siteAi)), Files(vaultAi))))
    {
      var first;
      first, order := CopyReferencedImages(siteUnreadable);
      if !first {
        return false, order;
      }
      ok := MirrorAiImages();
    }
  }
}
