/**
 * `deployment/human_deployment_manager.py`: the stale-policy content sync and the
 * verify-only image sync over the configured human-blog folders; `main` returns after the
 * two syncs, and the process exits with 0 exactly when it returned True.
 *
 * As written, the manager never assigns `dest_path`, so the content sync's first statement
 * raises `AttributeError`, which the sync catches and turns into False: every run fails
 * and changes nothing but the `changes_made` flag. `DeployAsWritten` models that run;
 * `Deploy` models the evidently intended one, with `dest_path` set to the site's posts
 * folder, which is what the rest of the sync writes to.
 */
module HumanDeployment {
  import opened Folders
  import opened SiteSync

  /** The process exit status for `main`'s result. */
  function ExitCode(success: bool): (code: int)
    ensures code == 0 <==> success
    ensures code == 0 || code == 1
  {
    if success then 0 else 1
  }

  /**
   * `sync_content` as written: the attribute lookup of `dest_path` fails before any file
   * is touched, and the exception handler returns False.
   */
  method SyncContentAsWritten(site: Site) returns (ok: bool)
    ensures !ok
  {
    ok := false;
  }

  /**
   * `main` as written: the image check still runs, but the run always reports failure and
   * exits with status 1, whatever the folders hold.
   */
  method DeployAsWritten(posts: Folder, sitePosts: Folder, vaultImages: Folder, siteImages: Folder,
                         siteUnreadable: set<string>)
    returns (success: bool, exitCode: int, site: Site, ghost imageOrder: seq<string>)
    ensures fresh(site)
    ensures !success && exitCode == 1
    ensures site.State() == Store(posts, sitePosts, vaultImages, siteImages, site.changesMade)
    ensures var folders := sitePosts.Present? && vaultImages.Present? && siteImages.Present?;
      var imagesOk := folders && MdNames(sitePosts) !! siteUnreadable;
      (folders ==> ReadOrder(MdNames(sitePosts), siteUnreadable, imageOrder, imagesOk))
      && (!folders ==> imageOrder == [])
      && site.changesMade == AnyMissing(sitePosts, siteImages, ReadPosts(imageOrder, imagesOk))
  {
    site := new Site(posts, sitePosts, vaultImages, siteImages, Missing, Missing);
    var contentOk := SyncContentAsWritten(site);
    var imagesOk;
    imagesOk, imageOrder := site.VerifyImages(siteUnreadable);
    success := contentOk && imagesOk;
    exitCode := ExitCode(success);
  }

  /**
   * `main` with `dest_path` assigned: the stale-policy sync and the image check both run,
   * and the run succeeds exactly when every vault post and every site post could be read
   * and the three image-check folders exist. The build and publish after the early
   * `return True` are unreachable.
   */
  method Deploy(posts: Folder, sitePosts: Folder, vaultImages: Folder, siteImages: Folder, now: int,
                unreadable: set<string>, siteUnreadable: set<string>)
    returns (success: bool, exitCode: int, site: Site, ghost order: seq<string>, ghost imageOrder: seq<string>)
    ensures fresh(site)
    ensures ReadOrder(MdNames(posts), unreadable, order, MdNames(posts) !! unreadable)
    ensures !(MdNames(posts) !! unreadable) ==> |order| > 0
    ensures var contentOk := MdNames(posts) !! unreadable;
      var start := Store(posts, Ensure(sitePosts), vaultImages, siteImages, false);
      var p := StaleFold(start, if contentOk then order else order[..|order| - 1], now);
      site.posts == p.store.posts && site.sitePosts == p.store.sitePosts
      && site.vaultImages == p.store.vaultImages && site.siteImages == p.store.siteImages
    ensures var folders := site.sitePosts.Present? && site.vaultImages.Present? && site.siteImages.Present?;
      var imagesOk := folders && MdNames(site.sitePosts) !! siteUnreadable;
      success == ((MdNames(posts) !! unreadable) && imagesOk)
      && (folders ==> ReadOrder(MdNames(site.sitePosts), siteUnreadable, imageOrder, imagesOk))
      && (!folders ==> imageOrder == [])
    ensures var contentOk := MdNames(posts) !! unreadable;
      var start := Store(posts, Ensure(sitePosts), vaultImages, siteImages, false);
      var p := StaleFold(start, if contentOk then order else order[..|order| - 1], now);
      var imagesOk := site.sitePosts.Present? && site.vaultImages.Present? && site.siteImages.Present?
        && MdNames(site.sitePosts) !! siteUnreadable;
      site.changesMade == (p.store.changes || (contentOk && p.processed > 0)
        || AnyMissing(site.sitePosts, site.siteImages, ReadPosts(imageOrder, imagesOk)))
    ensures exitCode == 0 <==> success
  {
    site := new Site(posts, sitePosts, vaultImages, siteImages, Missing, Missing);
    var contentOk;
    contentOk, order := site.SyncContentIfStale(now, unreadable);
    var imagesOk;
    imagesOk, imageOrder := site.VerifyImages(siteUnreadable);
    success := contentOk && imagesOk;
    exitCode := ExitCode(success);
  }
}
