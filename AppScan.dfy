/**
 * The downloader's fallback when no image callback fired (Downloader._collect_images in
 * app/downloader.py): every image file, by suffix, in pathlib's path order, under the
 * whole shared download base (`<cache_dir>/work`, or the task's work directory when the
 * server has no configuration), so it finds the images of every album downloaded there,
 * not only the requested ones.
 */
module AppScan {
  import opened Common
  import opened Ordering

  /** Index of the last `c` in `s`, or -1: `s.rfind(c)`. */
  function RFind(s: string, c: char): (i: int)
    ensures -1 <= i < |s|
    ensures i >= 0 ==> s[i] == c
    ensures forall k :: i < k < |s| ==> s[k] != c
  {
    if s == [] then -1
    else if s[|s| - 1] == c then |s| - 1
    else RFind(s[..|s| - 1], c)
  }

  /** `PurePath.suffix` of a file name: from the last dot, unless the dot leads or ends the name. */
  function Suffix(name: string): (r: string)
    ensures r != "" ==> r[0] == '.' && |r| >= 2 && |r| < |name| && r == name[|name| - |r|..]
  {
    var i := RFind(name, '.');
    if 0 < i < |name| - 1 then name[i..] else ""
  }

  /**
   * `p.suffix.lower() in {".jpg", ".jpeg", ".png", ".webp"}`. No character outside ASCII
   * lower-cases to one of these letters, so ASCII lower-casing decides the same.
   */
  predicate HasImageSuffix(p: Path) {
    LowerAscii(Suffix(Basename(p))) in {".jpg", ".jpeg", ".png", ".webp"}
  }

  /** The image files of a walk, in walk order. */
  function ImageFiles(walk: seq<Path>): (r: seq<Path>)
    ensures forall p :: p in r ==> p in walk && HasImageSuffix(p)
  {
    Filter(walk, HasImageSuffix)
  }

  /** pathlib's `<`: component by component. */
  predicate PathLess(a: Path, b: Path) {
    PartsLess(Split(a, '/'), Split(b, '/'))
  }

  predicate PathLe(a: Path, b: Path) {
    !PathLess(b, a)
  }

  lemma PathLessIsStrictTotal()
    ensures StrictTotalOrder(PathLess)
  {
    PartsLessIsStrictTotal();
    forall a: Path, b: Path | a != b ensures PathLess(a, b) || PathLess(b, a) {
      JoinSplit(a, '/');
      JoinSplit(b, '/');
      assert Split(a, '/') != Split(b, '/');
    }
  }

  lemma PathLeIsTotal()
    ensures TotalPreorder(PathLe)
    ensures forall a, b :: PathLe(a, b) && PathLe(b, a) ==> a == b
  {
    PathLessIsStrictTotal();
    NotGreaterIsTotal(PathLess, PathLe);
  }

  /** `_collect_images`: the walk's image files, then `images.sort()`. */
  method CollectImages(walk: seq<Path>) returns (images: seq<Path>)
    ensures images == Sort(ImageFiles(walk), PathLe)
  {
    images := [];
    var i := 0;
    while i < |walk|
      invariant 0 <= i <= |walk|
      invariant images == Filter(walk[..i], HasImageSuffix)
    {
      FilterStep(walk, i, HasImageSuffix);
      var keep := HasImageSuffix(walk[i]);
      if keep {
        images := images + [walk[i]];
      }
      i := i + 1;
    }
    assert walk[..i] == walk;
    images := Sort(images, PathLe);
  }

  /**
   * The scan returns exactly the image files, in path order, whatever order the walk
   * visited them in.
   */
  lemma CollectedImages(walk: seq<Path>, other: seq<Path>)
    requires multiset(walk) == multiset(other)
    ensures var r := Sort(ImageFiles(walk), PathLe);
            && Sorted(r, PathLe)
            && (forall p :: p in r <==> p in walk && HasImageSuffix(p))
            && r == Sort(ImageFiles(other), PathLe)
  {
    PathLeIsTotal();
    var r := Sort(ImageFiles(walk), PathLe);
    SortSorted(ImageFiles(walk), PathLe);
    forall p ensures p in r <==> p in walk && HasImageSuffix(p) {
      FilterCount(walk, HasImageSuffix, p);
      assert p in r <==> p in multiset(r);
      assert p in walk <==> p in multiset(walk);
    }
    ImageFilesCount(walk, other);
    SortIgnoresOrder(ImageFiles(walk), ImageFiles(other), PathLe);
  }

  lemma ImageFilesCount(walk: seq<Path>, other: seq<Path>)
    requires multiset(walk) == multiset(other)
    ensures multiset(ImageFiles(walk)) == multiset(ImageFiles(other))
  {
    forall p ensures multiset(ImageFiles(walk))[p] == multiset(ImageFiles(other))[p] {
      FilterCount(walk, HasImageSuffix, p);
      FilterCount(other, HasImageSuffix, p);
    }
  }
}
