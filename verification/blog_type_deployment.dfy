/**
 * `deployment/deployment_manager.py`: a manager configured by blog type (only "human"
 * exists), the always-policy content sync, the verify-only image sync, then the shared
 * build-and-publish tail; `run_command` lets a command that cannot start raise.
 */
module BlogTypeDeployment {
  import opened Wrappers
  import opened Folders
  import opened SiteSync
  import opened Shell
  import opened Publish

  const Branch := DeployBranch("deploy", "deploy")

  /**
   * The constructor: the "human" blog type selects the configured folders; any other
   * raises `ValueError("Unsupported blog type: ...")`.
   */
  method NewManager(blogType: string, posts: Folder, sitePosts: Folder, vaultImages: Folder, siteImages: Folder)
    returns (r: Result<Site, string>)
    ensures r.Ok? <==> blogType == "human"
    ensures r.Err? ==> r.error == "Unsupported blog type: " + blogType
    ensures r.Ok? ==> fresh(r.value)
    ensures r.Ok? ==> r.value.State() == Store(posts, sitePosts, vaultImages, siteImages, false)
  {
    if blogType != "human" {
      return Err("Unsupported blog type: " + blogType);
    }
    var site := new Site(posts, sitePosts, vaultImages, siteImages, Missing, Missing);
    return Ok(site);
  }

  /**
   * `main`: the "human" manager, both syncs (the image check runs even when the content
   * sync failed), then the tail only when both succeeded.
   */
  method Deploy(shell: Shell, posts: Folder, sitePosts: Folder, vaultImages: Folder, siteImages: Folder,
              sitePath: string, stamp: string, now: int, unreadable: set<string>, siteUnreadable: set<string>)
    returns (r: RunResult, site: Site, ghost order: seq<string>, ghost imageOrder: seq<string>)
    modifies shell`trace
    ensures fresh(site)
    ensures ReadOrder(MdNames(posts), unreadable, order, MdNames(posts) !! unreadable)
    ensures !(MdNames(posts) !! unreadable) ==> |order| > 0
    ensures var contentOk := MdNames(posts) !! unreadable;
      var start := Store(posts, Ensure(sitePosts), vaultImages, siteImages, false);
      var s := AlwaysFold(start, if contentOk then order else order[..|order| - 1], now);
      site.posts == s.posts && site.sitePosts == s.sitePosts && site.vaultImages == s.vaultImages
      && site.siteImages == siteImages
    ensures var folders := site.sitePosts.Present? && site.vaultImages.Present? && siteImages.Present?;
      var imagesOk := folders && MdNames(site.sitePosts) !! siteUnreadable;
      (folders ==> ReadOrder(MdNames(site.sitePosts), siteUnreadable, imageOrder, imagesOk))
      && (!folders ==> imageOrder == [])
      && ((MdNames(posts) !! unreadable) && imagesOk ==>
          var (res, issued) := FinishSpec(shell.world, old(shell.trace), RaiseOnLaunch, sitePath, stamp, Branch, site.changesMade);
          r == res && shell.trace == old(shell.trace) + issued)
      && (!((MdNames(posts) !! unreadable) && imagesOk) ==> r == Returned(false) && shell.trace == old(shell.trace))
    ensures var contentOk := MdNames(posts) !! unreadable;
      var start := Store(posts, Ensure(sitePosts), vaultImages, siteImages, false);
      var s := AlwaysFold(start, if contentOk then order else order[..|order| - 1], now);
      var imagesOk := site.sitePosts.Present? && site.vaultImages.Present? && siteImages.Present?
        && MdNames(site.sitePosts) !! siteUnreadable;
      site.changesMade == (s.changes || (contentOk && MdNames(posts) != {})
        || AnyMissing(site.sitePosts, siteImages, ReadPosts(imageOrder, imagesOk)))
  {
    var made := NewManager("human", posts, sitePosts, vaultImages, siteImages);
    site := made.value;
    var contentOk;
    contentOk, order := site.SyncContentAlways(now, unreadable);
    assert contentOk && |order| > 0 ==> order[0] in MdNames(posts);
    var imagesOk;
    imagesOk, imageOrder := site.VerifyImages(siteUnreadable);
    if !(contentOk && imagesOk) {
      return Returned(false), site, order, imageOrder;
    }
    r := Finish(shell, RaiseOnLaunch, sitePath, stamp, Branch, site.changesMade);
  }
}
