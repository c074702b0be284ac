/**
 * `core/deployment.py`: the always-policy content sync and the two-pass image sync with
 * the AI image mirror, then the shared build-and-publish tail; `run_command` lets a
 * command that cannot start raise. The branch deployed is `deploy`.
 */
module CoreDeployment {
  import opened Folders
  import opened SiteSync
  import opened Shell
  import opened Publish

  const Branch := DeployBranch("deploy", "deploy")

  /**
   * `main`: builds the manager on the configured folders, runs both syncs (the image sync
   * runs even when the content sync failed), and runs the tail only when both succeeded.
   */
  method Deploy(shell: Shell, posts: Folder, sitePosts: Folder, vaultImages: Folder, siteImages: Folder,
              vaultAi: Folder, siteAi: Folder, sitePath: string, stamp: string, now: int,
              unreadable: set<string>, siteUnreadable: set<string>)
    returns (r: RunResult, site: Site, ghost order: seq<string>, ghost imageOrder: seq<string>)
    modifies shell`trace
    ensures fresh(site)
    ensures ReadOrder(MdNames(posts), unreadable, order, MdNames(posts) !! unreadable)
    ensures !(MdNames(posts) !! unreadable) ==> |order| > 0
    ensures var contentOk := MdNames(posts) !! unreadable;
      var start := Store(posts, Ensure(sitePosts), vaultImages, siteImages, false);
      var s := AlwaysFold(start, if contentOk then order else order[..|order| - 1], now);
      site.posts == s.posts && site.sitePosts == s.sitePosts && site.vaultImages == s.vaultImages
    ensures var folders := site.sitePosts.Present? && site.vaultImages.Present? && siteImages.Present?;
      var first := folders && MdNames(site.sitePosts) !! siteUnreadable;
      var imagesOk := first && vaultAi.Present? && siteAi.Present?;
      var read := RefsOf(site.sitePosts, ReadPosts(imageOrder, first));
      (folders ==> ReadOrder(MdNames(site.sitePosts), siteUnreadable, imageOrder, first))
      && site.siteImages == (if folders then Present(CopyStale(Files(siteImages), Files(site.vaultImages), read)) else siteImages)
      && site.siteAi == (if imagesOk then Present(Mirror(Files(siteAi), Files(vaultAi))) else siteAi)
      && ((MdNames(posts) !! unreadable) && imagesOk ==>
            var (res, issued) := FinishSpec(shell.world, old(shell.trace), RaiseOnLaunch, sitePath, stamp, Branch, site.changesMade);
            r == res && shell.trace == old(shell.trace) + issued)
      && (!((MdNames(posts) !! unreadable) && imagesOk) ==> r == Returned(false) && shell.trace == old(shell.trace))
    ensures var contentOk := MdNames(posts) !! unreadable;
      var start := Store(posts, Ensure(sitePosts), vaultImages, siteImages, false);
      var s := AlwaysFold(start, if contentOk then order else order[..|order| - 1], now);
      var folders := site.sitePosts.Present? && site.vaultImages.Present? && siteImages.Present?;
      var first := folders && MdNames(site.sitePosts) !! siteUnreadable;
      var imagesOk := first && vaultAi.Present? && siteAi.Present?;
      var read := RefsOf(site.sitePosts, ReadPosts(imageOrder, first));
      site.changesMade == (s.changes || (contentOk && MdNames(posts) != {})
        || (folders && exists k :: k in read && Stale(Files(siteImages), Files(site.vaultImages), k))
        || (imagesOk && MirrorChanges(Files(siteAi), Files(vaultAi))))
  {
    site := new Site(posts, sitePosts, vaultImages, siteImages, vaultAi, siteAi);
    var contentOk;
    contentOk, order := site.SyncContentAlways(now, unreadable);
    assert site.siteImages == siteImages && site.vaultAi == vaultAi && site.siteAi == siteAi;
    ghost var synced := site.State();
    var imagesOk;
    imagesOk, imageOrder := site.SyncImagesWithAi(siteUnreadable);
    assert site.posts == synced.posts && site.sitePosts == synced.sitePosts && site.vaultImages == synced.vaultImages;
    assert contentOk && |order| > 0 ==> order[0] in MdNames(posts);
    if !(contentOk && imagesOk) {
      return Returned(false), site, order, imageOrder;
    }
    r := Finish(shell, RaiseOnLaunch, sitePath, stamp, Branch, site.changesMade);
  }
}
