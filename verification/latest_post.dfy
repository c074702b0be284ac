/**
 * The "latest post" lookup the managers end with: the newest `.md` file of the vault's
 * posts and the blog URL made from its stem, and the per-post URL logged while syncing.
 */
module LatestPost {
  import opened Strings
  import opened Wrappers
  import opened Folders

  /** The URL printed for a post: the base, then the post's stem in lower case, each followed by `/`. */
  function BlogUrl(base: string, path: string): string {
    base + "/" + Lower(Stem(path)) + "/"
  }

  /** `n` is a post with the largest modification time of the folder. */
  predicate IsLatest(posts: Folder, n: string) {
    n in MdNames(posts) &&
    forall m :: m in MdNames(posts) ==> Files(posts)[m].mtime <= Files(posts)[n].mtime
  }

  /** Every non-empty set of files has a newest member. */
  lemma {:induction false} NewestExists(files: map<string, FileEntry>, s: set<string>)
    requires s != {} && s <= files.Keys
    ensures exists n :: n in s && forall m :: m in s ==> files[m].mtime <= files[n].mtime
    decreases s
  {
    var x :| x in s;
    if s != {x} {
      var rest := s - {x};
      NewestExists(files, rest);
      var y :| y in rest && forall m :: m in rest ==> files[m].mtime <= files[y].mtime;
      if files[x].mtime <= files[y].mtime {
        assert forall m :: m in s ==> files[m].mtime <= files[y].mtime;
      } else {
        assert forall m :: m in s ==> files[m].mtime <= files[x].mtime;
      }
    } else {
      assert forall m :: m in s ==> m == x;
    }
  }

  /**
   * `get_latest_file` of the notes deployments: the URL of a newest post, or the error
   * "No markdown files found" exactly when the folder has no post. Posts with the same
   * time are ordered by the directory listing, so any newest post may be the one chosen.
   */
  method GetLatestFile(posts: Folder, base: Option<string>) returns (r: Result<string, string>)
    ensures r.Err? <==> MdNames(posts) == {}
    ensures r.Err? ==> r.error == "No markdown files found"
    ensures r.Ok? ==> exists n :: IsLatest(posts, n) && r.value == BlogUrl(Show(base), n)
  {
    var names := MdNames(posts);
    if names == {} {
      return Err("No markdown files found");
    }
    NewestExists(Files(posts), names);
    var n :| n in names && forall m :: m in names ==> Files(posts)[m].mtime <= Files(posts)[n].mtime;
    assert IsLatest(posts, n);
    return Ok(BlogUrl(Show(base), n));
  }

  /**
   * The URL logged for each post the stale sync updates: `/posts/`, then the file name
   * without its last three characters, lower-cased, with spaces turned into hyphens.
   */
  function PostUrl(base: string, filename: string): string {
    var cut := if |filename| >= 3 then filename[..|filename| - 3] else "";
    base + "/posts/" + ReplaceChar(Lower(cut), ' ', '-') + "/"
  }

  /** A post name with a space has one before its `.md` extension. */
  lemma SpaceBeforeExtension(name: string) returns (i: nat)
    requires EndsWith(name, ".md") && |name| > 3 && ' ' in name
    ensures i < |name| - 3 && name[i] == ' '
  {
    var cut, suffix := name[..|name| - 3], name[|name| - 3..];
    assert name == cut + suffix && suffix == ".md";
    assert ' ' in cut;
    var k :| 0 <= k < |cut| && cut[k] == ' ';
    i := k;
  }

  /** Two URLs with the same prefix whose paths differ at one position are different. */
  lemma DifferAt(pre: string, a: string, b: string, i: nat)
    requires i < |a| && i < |b| && a[i] != b[i]
    ensures pre + a + "/" != pre + b + "/"
  {
    assert (pre + a + "/")[|pre| + i] == a[i];
    assert (pre + b + "/")[|pre| + i] == b[i];
  }

  /** Lower-casing a text without spaces leaves nothing for the hyphen replacement to change. */
  lemma NoSpaceNoHyphen(cut: string)
    requires ' ' !in cut
    ensures ReplaceChar(Lower(cut), ' ', '-') == Lower(cut)
  {
    var low := Lower(cut);
    assert forall k :: 0 <= k < |low| ==> low[k] != ' ' by {
      forall k | 0 <= k < |low| ensures low[k] != ' ' {
        assert cut[k] in cut;
      }
    }
  }

  /** Both URLs of a post, written over the name without its extension. */
  lemma UrlShapes(base: string, name: string)
    requires '/' !in name && EndsWith(name, ".md") && |name| > 3
    ensures var low := Lower(name[..|name| - 3]);
      PostUrl(base, name) == base + "/posts/" + ReplaceChar(low, ' ', '-') + "/"
      && BlogUrl(base + "/posts", name) == base + "/posts/" + low + "/"
  {
    StemOfMarkdown(name);
    assert (base + "/posts") + "/" == base + "/posts/";
  }

  /**
   * For a post name without spaces the logged URL is the latest-post URL under `/posts`;
   * a name with a space gets a hyphen in the logged URL and keeps the space in the other.
   */
  lemma PostUrlMatchesBlogUrl(base: string, name: string)
    requires '/' !in name && EndsWith(name, ".md") && |name| > 3
    ensures ' ' !in name ==> PostUrl(base, name) == BlogUrl(base + "/posts", name)
    ensures ' ' in name ==> PostUrl(base, name) != BlogUrl(base + "/posts", name)
  {
    UrlShapes(base, name);
    var cut := name[..|name| - 3];
    if ' ' !in name {
      assert forall k :: 0 <= k < |cut| ==> cut[k] == name[k];
      NoSpaceNoHyphen(cut);
    } else {
      var i := SpaceBeforeExtension(name);
      assert cut[i] == ' ' && Lower(cut)[i] == ' ';
      DifferAt(base + "/posts/", ReplaceChar(Lower(cut), ' ', '-'), Lower(cut), i);
    }
  }
}
