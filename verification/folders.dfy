/**
 * Directories as the pipeline sees them: a folder is either missing or a map from file
 * name to contents and modification time. `shutil.copy2` copies an entry with its mtime,
 * `Path.rename` moves an entry (replacing what was at the target), `Path.unlink` removes one.
 */
module Folders {
  import opened Strings

  datatype FileEntry = FileEntry(content: string, mtime: int)

  datatype Folder = Missing | Present(files: map<string, FileEntry>)

  /** The files of a folder; a missing folder lists nothing (as `Path.glob` does). */
  function Files(f: Folder): map<string, FileEntry> {
    if f.Present? then f.files else map[]
  }

  /** `(folder / name).exists()` */
  predicate Has(f: Folder, name: string) {
    f.Present? && name in f.files
  }

  /** The names `folder.glob('*.md')` yields. */
  function MdNames(f: Folder): (names: set<string>)
    ensures forall n :: n in names <==> n in Files(f) && EndsWith(n, ".md")
  {
    set n | n in Files(f) && EndsWith(n, ".md")
  }

  /** `mkdir(parents=True, exist_ok=True)`: a missing folder becomes an empty one. */
  function Ensure(f: Folder): (r: Folder)
    ensures r.Present? && Files(r) == Files(f)
  {
    if f.Present? then f else Present(map[])
  }

  /** Writes `content` to `name` in an existing folder, stamping it with the time of the write. */
  function Write(f: Folder, name: string, content: string, now: int): (r: Folder)
    ensures r.Present? && r.files == Files(f)[name := FileEntry(content, now)]
  {
    Present(Files(f)[name := FileEntry(content, now)])
  }

  // ---------------------------------------------------------------------------------------
  // image names

  /** `name.replace(' ', '_')`: the name an image is given on the site. */
  function Underscore(name: string): (r: string)
    ensures |r| == |name| && ' ' !in r
    ensures forall i :: 0 <= i < |name| ==> r[i] == (if name[i] == ' ' then '_' else name[i])
  {
    ReplaceChar(name, ' ', '_')
  }

  /** Underscoring is the identity exactly on names without spaces. */
  lemma UnderscoreFixed(name: string)
    ensures Underscore(name) == name <==> ' ' !in name
  {
    if ' ' !in name {
      assert forall i :: 0 <= i < |name| ==> Underscore(name)[i] == name[i];
    }
  }

  /**
   * One vault image rename as the rewriter performs it: `image` is renamed to its
   * underscored name when it exists and the two names differ; otherwise nothing changes.
   */
  function RenameImage(v: Folder, image: string): (r: Folder)
    ensures r.Present? == v.Present?
  {
    if Has(v, image) && image != Underscore(image)
    then Present((v.files - {image})[Underscore(image) := v.files[image]])
    else v
  }

  /** Whether `RenameImage(v, image)` moves a file. */
  predicate Renames(v: Folder, image: string) {
    Has(v, image) && image != Underscore(image)
  }

  /** The renames for a list of found images, in the order they were found. */
  function RenameAll(v: Folder, images: seq<string>): Folder
    decreases |images|
  {
    if |images| == 0 then v else RenameAll(RenameImage(v, images[0]), images[1..])
  }

  /** Whether any rename of the list moves a file (each such move sets `changes_made`). */
  predicate AnyRenames(v: Folder, images: seq<string>)
    decreases |images|
  {
    |images| > 0 && (Renames(v, images[0]) || AnyRenames(RenameImage(v, images[0]), images[1..]))
  }

  lemma {:induction false} RenameAllAppend(v: Folder, xs: seq<string>, ys: seq<string>)
    ensures RenameAll(v, xs + ys) == RenameAll(RenameAll(v, xs), ys)
    ensures AnyRenames(v, xs + ys) == (AnyRenames(v, xs) || AnyRenames(RenameAll(v, xs), ys))
    decreases |xs|
  {
    if |xs| == 0 {
      assert xs + ys == ys;
    } else {
      assert (xs + ys)[1..] == xs[1..] + ys;
      RenameAllAppend(RenameImage(v, xs[0]), xs[1..], ys);
    }
  }

  /** The renames for one more found image are one more `RenameImage` step. */
  lemma RenameStep(v: Folder, images: seq<string>, i: nat)
    requires i < |images|
    ensures RenameAll(v, images[..i + 1]) == RenameImage(RenameAll(v, images[..i]), images[i])
    ensures AnyRenames(v, images[..i + 1]) ==
      (AnyRenames(v, images[..i]) || Renames(RenameAll(v, images[..i]), images[i]))
  {
    RenameAllAppend(v, images[..i], [images[i]]);
    assert images[..i + 1] == images[..i] + [images[i]];
    assert [images[i]][1..] == [];
  }

  /** Names without spaces are never removed by a rename, and once present they stay. */
  lemma {:induction false} RenameKeepsPlainNames(v: Folder, images: seq<string>, n: string)
    requires Has(v, n) && ' ' !in n
    ensures Has(RenameAll(v, images), n)
    decreases |images|
  {
    if |images| > 0 {
      var w := RenameImage(v, images[0]);
      if Renames(v, images[0]) {
        UnderscoreFixed(images[0]);
      }
      RenameKeepsPlainNames(w, images[1..], n);
    }
  }

  /**
   * After the renames for a list of found images, every found image that was in the vault
   * has its underscored name there, and no found name with a space is left.
   */
  lemma {:induction false} RenameAllEffect(v: Folder, images: seq<string>)
    ensures var w := RenameAll(v, images);
      forall i :: 0 <= i < |images| ==>
        (Has(v, images[i]) ==> Has(w, Underscore(images[i]))) &&
        (' ' in images[i] ==> !Has(w, images[i]))
    decreases |images|
  {
    if |images| > 0 {
      var v1 := RenameImage(v, images[0]);
      var w := RenameAll(v, images);
      RenameAllEffect(v1, images[1..]);
      assert w == RenameAll(v1, images[1..]);
      forall i | 0 <= i < |images|
        ensures (Has(v, images[i]) ==> Has(w, Underscore(images[i])))
        ensures (' ' in images[i] ==> !Has(w, images[i]))
      {
        var n := images[i];
        UnderscoreFixed(n);
        if i == 0 {
          if Has(v, n) {
            assert Has(v1, Underscore(n));
            RenameKeepsPlainNames(v1, images[1..], Underscore(n));
          }
          if ' ' in n {
            assert !Has(v1, n);
            RenameNeverCreatesSpaced(v1, images[1..], n);
          }
        } else {
          assert n == images[1..][i - 1];
          if Has(v, n) && !Has(v1, n) {
            // n was moved by the first rename, which then is a rename of n itself
            assert images[0] == n;
            assert Has(v1, Underscore(n));
            RenameKeepsPlainNames(v1, images[1..], Underscore(n));
          }
        }
      }
    }
  }

  /** Renames only create names without spaces, so an absent name with a space stays absent. */
  lemma {:induction false} RenameNeverCreatesSpaced(v: Folder, images: seq<string>, n: string)
    requires ' ' in n && !Has(v, n)
    ensures !Has(RenameAll(v, images), n)
    decreases |images|
  {
    if |images| > 0 {
      RenameNeverCreatesSpaced(RenameImage(v, images[0]), images[1..], n);
    }
  }

  // ---------------------------------------------------------------------------------------
  // image copying

  /**
   * The copy condition of the image passes: the source has the image and the
   * destination either lacks it or holds an older copy.
   */
  predicate Stale(dst: map<string, FileEntry>, src: map<string, FileEntry>, k: string) {
    k in src && (k !in dst || src[k].mtime > dst[k].mtime)
  }

  /**
   * The destination after copying, for every name in `wanted`, the source's file over a
   * missing or older destination file. Nothing is removed.
   */
  function CopyStale(dst: map<string, FileEntry>, src: map<string, FileEntry>, wanted: set<string>)
    : (r: map<string, FileEntry>)
    ensures r.Keys == dst.Keys + (wanted * src.Keys)
    ensures forall k :: k in r ==> r[k] == (if k in wanted && Stale(dst, src, k) then src[k] else dst[k])
  {
    map k | k in dst.Keys + (wanted * src.Keys) ::
      if k in wanted && Stale(dst, src, k) then src[k] else dst[k]
  }

  /** One copy step of the loop grows the set of handled names by one. */
  lemma CopyStaleStep(dst: map<string, FileEntry>, src: map<string, FileEntry>, done: set<string>, k: string)
    ensures var d := CopyStale(dst, src, done);
      CopyStale(dst, src, done + {k}) ==
        (if Stale(d, src, k) then d[k := src[k]] else d)
  {
    var d := CopyStale(dst, src, done);
    var lhs := CopyStale(dst, src, done + {k});
    var rhs := if Stale(d, src, k) then d[k := src[k]] else d;
    assert lhs.Keys == rhs.Keys;
    forall j | j in lhs ensures lhs[j] == rhs[j] {
      if j != k {
        assert lhs[j] == d[j];
      }
    }
  }

  /** After copying the names in `done`, a name is stale exactly when it was not handled and was stale before. */
  lemma StaleAfterCopy(dst: map<string, FileEntry>, src: map<string, FileEntry>, done: set<string>, k: string)
    ensures Stale(CopyStale(dst, src, done), src, k) <==> k !in done && Stale(dst, src, k)
  {
    var d := CopyStale(dst, src, done);
    if k in src && k !in done {
      assert k in d <==> k in dst;
    }
  }

  /** A second copy pass over the same names copies nothing. */
  lemma CopyStaleSettles(dst: map<string, FileEntry>, src: map<string, FileEntry>, wanted: set<string>)
    ensures var d := CopyStale(dst, src, wanted);
      (forall k :: k in wanted ==> !Stale(d, src, k)) && CopyStale(d, src, wanted) == d
  {
    var d := CopyStale(dst, src, wanted);
    forall k | k in wanted ensures !Stale(d, src, k) {
      if k in src {
        assert k in d;
      }
    }
    assert CopyStale(d, src, wanted).Keys == d.Keys;
  }

  /**
   * The AI image mirror: the destination ends up with exactly the source's names, each
   * either the destination's own copy (when not stale) or the source's file.
   */
  function Mirror(dst: map<string, FileEntry>, src: map<string, FileEntry>): (r: map<string, FileEntry>)
    ensures r.Keys == src.Keys
    ensures forall k :: k in r ==> r[k] == (if Stale(dst, src, k) then src[k] else dst[k])
    ensures forall k :: k in r && k in dst && r[k] != dst[k] ==> src[k].mtime > dst[k].mtime
  {
    map k | k in src.Keys :: if Stale(dst, src, k) then src[k] else dst[k]
  }

  /** Whether the mirror changes anything: a copy or a deletion. */
  predicate MirrorChanges(dst: map<string, FileEntry>, src: map<string, FileEntry>) {
    (exists k :: k in src && Stale(dst, src, k)) || (exists k :: k in dst && k !in src)
  }

  /** Mirroring again from an unchanged source copies and deletes nothing. */
  lemma MirrorSettles(dst: map<string, FileEntry>, src: map<string, FileEntry>)
    ensures !MirrorChanges(Mirror(dst, src), src)
    ensures Mirror(Mirror(dst, src), src) == Mirror(dst, src)
  {
    var m := Mirror(dst, src);
    forall k | k in src ensures !Stale(m, src, k) {
      assert k in m;
    }
  }
}
