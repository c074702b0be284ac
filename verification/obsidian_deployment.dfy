/**
 * `obsidian_notes_deployment/main.py`: the stale-policy content sync, the verify-only
 * image sync, then the shared build-and-publish tail with a `run_command` that catches
 * every exception. The branch deployed is `hostinger-deploy`, pushed to
 * `hostinger-humanblog`.
 */
module ObsidianDeployment {
  import opened Folders
  import opened SiteSync
  import opened Shell
  import opened Publish

  const Branch := DeployBranch("hostinger-deploy", "hostinger-humanblog")

  /**
   * `main`: both syncs (the image check runs even when the content sync failed), then the
   * tail only when both succeeded. A build that fails to start is a failed build here,
   * never an exception.
   */
  method Deploy(shell: Shell, posts: Folder, sitePosts: Folder, vaultImages: Folder, siteImages: Folder,
              sitePath: string, stamp: string, now: int, unreadable: set<string>, siteUnreadable: set<string>)
    returns (r: RunResult, site: Site, ghost order: seq<string>, ghost imageOrder: seq<string>)
    modifies shell`trace
    ensures fresh(site)
    ensures ReadOrder(MdNames(posts), unreadable, order, MdNames(posts) !! unreadable)
    ensures !(MdNames(posts) !! unreadable) ==> |order| > 0
    ensures var contentOk := MdNames(posts) !! unreadable;
      var start := Store(posts, Ensure(sitePosts), vaultImages, siteImages, false);
      var p := StaleFold(start, if contentOk then order else order[..|order| - 1], now);
      site.posts == p.store.posts && site.sitePosts == p.store.sitePosts
      && site.vaultImages == p.store.vaultImages && site.siteImages == p.store.siteImages
    ensures var folders := site.sitePosts.Present? && site.vaultImages.Present? && site.siteImages.Present?;
      var imagesOk := folders && MdNames(site.sitePosts) !! siteUnreadable;
      (folders ==> ReadOrder(MdNames(site.sitePosts), siteUnreadable, imageOrder, imagesOk))
      && (!folders ==> imageOrder == [])
      && ((MdNames(posts) !! unreadable) && imagesOk ==>
          var (res, issued) := FinishSpec(shell.world, old(shell.trace), CatchAll, sitePath, stamp, Branch, site.changesMade);
          r == res && shell.trace == old(shell.trace) + issued)
      && (!((MdNames(posts) !! unreadable) && imagesOk) ==> r == Returned(false) && shell.trace == old(shell.trace))
    ensures var contentOk := MdNames(posts) !! unreadable;
      var start := Store(posts, Ensure(sitePosts), vaultImages, siteImages, false);
      var p := StaleFold(start, if contentOk then order else order[..|order| - 1], now);
      var imagesOk := site.sitePosts.Present? && site.vaultImages.Present? && site.siteImages.Present?
        && MdNames(site.sitePosts) !! siteUnreadable;
      site.changesMade == (p.store.changes || (contentOk && p.processed > 0)
        || AnyMissing(site.sitePosts, site.siteImages, ReadPosts(imageOrder, imagesOk)))
    ensures var start := Store(posts, Ensure(sitePosts), vaultImages, siteImages, false);
      (MdNames(posts) !! unreadable) && vaultImages.Present? && siteImages.Present?
      && (forall n :: n in MdNames(posts) ==> PostCurrent(start, n))
      && MdNames(Ensure(sitePosts)) !! siteUnreadable
      && !AnyMissing(Ensure(sitePosts), siteImages, MdNames(Ensure(sitePosts)))
      ==> r == Returned(true) && shell.trace == old(shell.trace) + [NotifyCall(true)]
    ensures !r.Crashed?
  {
    site := new Site(posts, sitePosts, vaultImages, siteImages, Missing, Missing);
    ghost var start := Store(posts, Ensure(sitePosts), vaultImages, siteImages, false);
    var contentOk;
    contentOk, order := site.SyncContentIfStale(now, unreadable);
    if contentOk && forall n :: n in MdNames(posts) ==> PostCurrent(start, n) {
      StaleFoldCurrent(start, order, now);
      assert site.State() == start;
    }
    var imagesOk;
    imagesOk, imageOrder := site.VerifyImages(siteUnreadable);
    if !(contentOk && imagesOk) {
      return Returned(false), site, order, imageOrder;
    }
    r := Finish(shell, CatchAll, sitePath, stamp, Branch, site.changesMade);
  }
}
