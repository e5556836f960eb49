/**
 * What the single-album engine (src/main.py) reads from disk: the images of an album's
 * workspace, whether that workspace holds a complete download, and the artifact an
 * album's artifact directory already holds for a parameter hash. The directory walk
 * is given as the file paths it yields; JSON files as the value they parse to.
 */
module LegacyDisk {
  import opened Common
  import opened Ordering
  import opened Values
  import opened Decimal
  import opened LegacyNaming
  import AppScan
  import AppPackage

  // ---- the workspace images (TaskManager._collect_images) ----

  predicate EndsWith(s: string, suffix: string) {
    |suffix| <= |s| && s[|s| - |suffix|..] == suffix
  }

  /** `fn.lower().endswith((".jpg", ".jpeg", ".png", ".webp"))` on the file's name. */
  predicate IsImageName(p: Path) {
    HasImageEnding(LowerAscii(Basename(p)))
  }

  predicate HasImageEnding(n: string) {
    EndsWith(n, ".jpg") || EndsWith(n, ".jpeg") || EndsWith(n, ".png") || EndsWith(n, ".webp")
  }

  function WalkImages(walk: seq<Path>): (r: seq<Path>)
    ensures forall p :: p in r ==> p in walk && IsImageName(p)
  {
    Filter(walk, IsImageName)
  }

  /** The `os.walk` loop of `_collect_images`: the walk's image files, in walk order. */
  method WalkImageFiles(walk: seq<Path>) returns (images: seq<Path>)
    ensures images == WalkImages(walk)
  {
    images := [];
    var i := 0;
    while i < |walk|
      invariant 0 <= i <= |walk|
      invariant images == Filter(walk[..i], IsImageName)
    {
      FilterStep(walk, i, IsImageName);
      if IsImageName(walk[i]) {
        images := images + [walk[i]];
      }
      i := i + 1;
    }
    assert walk[..i] == walk;
  }

  /** The sort key of `imgs.sort(key=lambda x: x.name)`: the file name alone. */
  predicate NameLe(a: Path, b: Path) {
    StrLe(Basename(a), Basename(b))
  }

  lemma NameLeIsTotal()
    ensures TotalPreorder(NameLe)
  {
    StrLessIsStrictTotal();
    KeyedPreorder(Basename, StrLess, NameLe);
  }

  /**
   * `_collect_images` as written: the walk's image files, ordered by file name alone
   * (stably, so equal names keep the walk's order).
   */
  method CollectImagesByName(walk: seq<Path>) returns (images: seq<Path>)
    ensures images == Sort(WalkImages(walk), NameLe)
  {
    images := WalkImageFiles(walk);
    images := Sort(images, NameLe);
  }

  /** The entry names `_make_zip` gives the images: each file's own name. */
  function EntryNamesAsWritten(images: seq<Path>): (r: seq<string>)
    ensures |r| == |images|
  {
    seq(|images|, i requires 0 <= i < |images| => Basename(images[i]))
  }

  lemma {:induction false} LowerAsciiKeeps(s: string)
    requires forall i :: 0 <= i < |s| ==> !('A' <= s[i] <= 'Z')
    ensures LowerAscii(s) == s
  {
    if s != [] {
      LowerAsciiKeeps(s[1..]);
    }
  }

  /** The walk of such an album holds only images, named by their pages. */
  lemma ChapterWalk(chapterA: Path, chapterB: Path, page1: string, page2: string)
    requires '/' !in page1 && '/' !in page2
    requires IsImageName(Child(chapterA, page1)) && IsImageName(Child(chapterA, page2))
    requires IsImageName(Child(chapterB, page1))
    ensures var a1, a2, b1 := Child(chapterA, page1), Child(chapterA, page2), Child(chapterB, page1);
            && WalkImages([a1, a2, b1]) == [a1, a2, b1]
            && Basename(a1) == page1 && Basename(a2) == page2 && Basename(b1) == page1
  {
    BasenameOfChild(chapterA, page1);
    BasenameOfChild(chapterA, page2);
    BasenameOfChild(chapterB, page1);
    WalkOfThreeImages(Child(chapterA, page1), Child(chapterA, page2), Child(chapterB, page1));
  }

  lemma WalkOfThreeImages(a: Path, b: Path, c: Path)
    requires IsImageName(a) && IsImageName(b) && IsImageName(c)
    ensures WalkImages([a, b, c]) == [a, b, c]
  {
    FilterOfThree(a, b, c, IsImageName);
  }

  /**
   * An album of two chapters stored as the workspace stores them (one directory per
   * chapter, pages numbered afresh in each): ordering by name alone interleaves the
   * chapters, and two zip entries get the same name.
   */
  lemma ChaptersInterleaved(chapterA: Path, chapterB: Path, page1: string, page2: string)
    requires '/' !in page1 && '/' !in page2 && StrLess(page1, page2)
    requires IsImageName(Child(chapterA, page1)) && IsImageName(Child(chapterA, page2))
    requires IsImageName(Child(chapterB, page1))
    ensures var a1, a2, b1 := Child(chapterA, page1), Child(chapterA, page2), Child(chapterB, page1);
            var images := Sort(WalkImages([a1, a2, b1]), NameLe);
            && images == [a1, b1, a2]
            && EntryNamesAsWritten(images)[0] == EntryNamesAsWritten(images)[1]
  {
    var a1, a2, b1 := Child(chapterA, page1), Child(chapterA, page2), Child(chapterB, page1);
    ChapterWalk(chapterA, chapterB, page1, page2);
    assert !StrLess(page1, page1) by { StrLessIsStrictTotal(); }
    assert NameLe(a1, b1) && !NameLe(a2, b1);
    SortOfThree(a1, a2, b1, NameLe);
  }

  lemma SamplePaths()
    ensures Child("w/1/A", "00001.jpg") == "w/1/A/00001.jpg"
    ensures Child("w/1/A", "00002.jpg") == "w/1/A/00002.jpg"
    ensures Child("w/1/B", "00001.jpg") == "w/1/B/00001.jpg"
  {
  }

  /** A page file of the sample album is a `.jpg` image. */
  lemma SamplePage(page: string)
    requires page == "00001.jpg" || page == "00002.jpg"
    ensures '/' !in page && HasImageEnding(LowerAscii(page))
  {
    LowerAsciiKeeps(page);
    assert page[5..] == ".jpg";
  }

  lemma SamplePagesOrdered()
    ensures StrLess("00001.jpg", "00002.jpg")
  {
    var p1, p2 := "00001.jpg", "00002.jpg";
    assert p1[1..][1..][1..][1..] == "1.jpg" && p2[1..][1..][1..][1..] == "2.jpg";
    assert LexLess("1.jpg", "2.jpg", CharLess);
  }

  lemma ChaptersInterleavedExample()
    ensures var images := Sort(WalkImages(["w/1/A/00001.jpg", "w/1/A/00002.jpg", "w/1/B/00001.jpg"]), NameLe);
            && images == ["w/1/A/00001.jpg", "w/1/B/00001.jpg", "w/1/A/00002.jpg"]
            && EntryNamesAsWritten(images)[0] == EntryNamesAsWritten(images)[1]
            && MakeZip(images, 6, None).entries[0].0 == MakeZip(images, 6, None).entries[1].0
  {
    SamplePage("00001.jpg");
    SamplePage("00002.jpg");
    SamplePagesOrdered();
    SamplePaths();
    BasenameOfChild("w/1/A", "00001.jpg");
    BasenameOfChild("w/1/A", "00002.jpg");
    BasenameOfChild("w/1/B", "00001.jpg");
    ChaptersInterleaved("w/1/A", "w/1/B", "00001.jpg", "00002.jpg");
  }

  /**
   * Corrected: the images in path order (chapter by chapter, each chapter's pages in
   * order), as the workspace's layout calls for.
   */
  method CollectImagesByPath(walk: seq<Path>) returns (images: seq<Path>)
    ensures images == Sort(WalkImages(walk), AppScan.PathLe)
  {
    images := WalkImageFiles(walk);
    images := Sort(images, AppScan.PathLe);
  }

  lemma WalkImagesCount(walk: seq<Path>, other: seq<Path>)
    requires multiset(walk) == multiset(other)
    ensures multiset(WalkImages(walk)) == multiset(WalkImages(other))
  {
    forall p ensures multiset(WalkImages(walk))[p] == multiset(WalkImages(other))[p] {
      FilterCount(walk, IsImageName, p);
      FilterCount(other, IsImageName, p);
    }
  }

  /**
   * The collected images are sorted by path and are exactly the walk's image files; the
   * walk's own order does not matter.
   */
  lemma CollectedByPath(walk: seq<Path>, other: seq<Path>)
    requires multiset(walk) == multiset(other)
    ensures var r := Sort(WalkImages(walk), AppScan.PathLe);
            && Sorted(r, AppScan.PathLe)
            && (forall p :: p in r <==> p in walk && IsImageName(p))
            && r == Sort(WalkImages(other), AppScan.PathLe)
  {
    AppScan.PathLeIsTotal();
    var r := Sort(WalkImages(walk), AppScan.PathLe);
    SortSorted(WalkImages(walk), AppScan.PathLe);
    forall p ensures p in r <==> p in walk && IsImageName(p) {
      FilterCount(walk, IsImageName, p);
      assert p in r <==> p in multiset(r);
      assert p in walk <==> p in multiset(walk);
    }
    WalkImagesCount(walk, other);
    SortIgnoresOrder(WalkImages(walk), WalkImages(other), AppScan.PathLe);
  }

  /** A zip entry name numbered by the page's position (1-based), as the newer engine stages pages. */
  function EntryName(index: nat, p: Path): (name: string)
    ensures StartsWith(name, ZeroPadded(index, 5) + "_")
  {
    PrefixStarts(ZeroPadded(index, 5) + "_", Basename(p));
    ZeroPadded(index, 5) + "_" + Basename(p)
  }

  function EntryNames(images: seq<Path>): (r: seq<string>)
    ensures |r| == |images|
    ensures forall i :: 0 <= i < |images| ==> r[i] == EntryName(i + 1, images[i])
  {
    seq(|images|, i requires 0 <= i < |images| => EntryName(i + 1, images[i]))
  }

  /** Numbered entry names never collide, whatever the pages' own names. */
  lemma EntryNamesDistinct(images: seq<Path>)
    ensures forall i, j :: 0 <= i < j < |images| ==> EntryNames(images)[i] != EntryNames(images)[j]
  {
    forall i, j | 0 <= i < j < |images| ensures EntryNames(images)[i] != EntryNames(images)[j] {
      EntryNamesDiffer(images, i, j);
    }
  }

  /** Two entries of one archive, at different positions, get different names. */
  lemma EntryNamesDiffer(images: seq<Path>, i: nat, j: nat)
    requires i < j < |images|
    ensures EntryNames(images)[i] != EntryNames(images)[j]
  {
    var s, t := EntryName(i + 1, images[i]), EntryName(j + 1, images[j]);
    AppPackage.PaddedPrefixesDiffer(i + 1, j + 1, s, t);
  }

  // ---- a complete download on disk (TaskManager._is_album_complete) ----

  /** A JSON file: absent, unreadable or unparsable, or the value it holds. */
  datatype JsonFile = NoFile | BadFile | JsonDoc(v: Value)

  /** The answer of `_is_album_complete`: whether the album is complete, and the meta it read. */
  datatype Completeness = Completeness(complete: bool, meta: map<string, Value>)

  /** `isinstance(page_count, int) and page_count > 0 and len(imgs) < page_count` */
  predicate ShortOfPages(meta: map<string, Value>, count: nat) {
    "page_count" in meta && IsInt(meta["page_count"]) && IntOf(meta["page_count"]) > 0
    && count < IntOf(meta["page_count"])
  }

  /**
   * `_is_album_complete` on a workspace with `count` image files and the given meta.json:
   * complete exactly when there is an image, the meta is an object whose "complete" is
   * truthy, and a positive int "page_count" is no more than the image count. An
   * unreadable meta.json counts as incomplete.
   */
  function IsAlbumComplete(count: nat, metaFile: JsonFile): (r: Completeness)
    ensures r.complete <==>
              && count > 0
              && metaFile.JsonDoc? && metaFile.v.VDict?
              && IsTruthy(Get(metaFile.v.entries, "complete", VNone))
              && !ShortOfPages(metaFile.v.entries, count)
    ensures r.complete ==> r.meta == metaFile.v.entries
    ensures !r.complete && r.meta != map[] ==> metaFile.JsonDoc? && metaFile.v.VDict? && r.meta == metaFile.v.entries && ShortOfPages(r.meta, count)
  {
    if metaFile.BadFile? then Completeness(false, map[])
    else
      var meta := if metaFile.JsonDoc? then metaFile.v else VDict(map[]);
      if count == 0 then Completeness(false, map[])
      else if !meta.VDict? || !IsTruthy(Get(meta.entries, "complete", VNone)) then Completeness(false, map[])
      else if ShortOfPages(meta.entries, count) then Completeness(false, meta.entries)
      else Completeness(true, meta.entries)
  }

  /** More images on disk never make a complete album incomplete. */
  lemma CompleteStaysComplete(count: nat, more: nat, metaFile: JsonFile)
    requires IsAlbumComplete(count, metaFile).complete && count <= more
    ensures IsAlbumComplete(more, metaFile).complete
  {
  }

  // ---- artifacts (TaskManager._make_zip, _make_pdf) ----

  /**
   * What a packaging backend is handed: for a zip, each entry's name and source file, the
   * compression level and the password it encrypts with; for a pdf, the page files in
   * order and the password it encrypts with.
   */
  datatype Archive =
    | ZipArchive(entries: seq<(string, Path)>, compression: int, password: Option<string>)
    | PdfDocument(pages: seq<Path>, password: Option<string>)

  /** The path without its file's suffix. */
  function Stem(p: Path): Path {
    var cut := |p| - |AppScan.Suffix(Basename(p))|;
    if 0 <= cut then p[..cut] else p
  }

  /** `img.with_suffix(".jpg")`: the file's suffix, if any, replaced by ".jpg". */
  function WithJpgSuffix(p: Path): (r: Path)
    ensures StartsWith(r, Stem(p)) && EndsWith(r, ".jpg")
  {
    var stem := Stem(p);
    PrefixStarts(stem, ".jpg");
    assert (stem + ".jpg")[|stem|..] == ".jpg";
    stem + ".jpg"
  }

  /** The file `_make_pdf` hands over for one image: a JPEG copy when a quality is set and the file is not ".jpg". */
  function PdfPage(img: Path, quality: Option<int>): (r: Path)
    ensures quality.None? ==> r == img
    ensures r == img || EndsWith(r, ".jpg")
  {
    if quality.Some? && LowerAscii(AppScan.Suffix(Basename(img))) != ".jpg" then WithJpgSuffix(img) else img
  }

  /**
   * The zip `_make_zip` writes, as written: one entry per image, in order, under the
   * image's own file name (so two pages with one name give two entries with one name);
   * encrypted only with a non-empty password.
   */
  function MakeZip(images: seq<Path>, compression: int, password: Option<string>): (a: Archive)
    ensures a.ZipArchive? && |a.entries| == |images|
    ensures forall i :: 0 <= i < |images| ==> a.entries[i] == (Basename(images[i]), images[i])
    ensures a.password.Some? <==> Truthy(password)
  {
    var names := EntryNamesAsWritten(images);
    ZipArchive(seq(|images|, i requires 0 <= i < |images| => (names[i], images[i])), compression,
               if Truthy(password) then password else None)
  }

  /**
   * Corrected: the zip with its entries numbered in order, so that no two share a name;
   * encrypted only with a non-empty password.
   */
  function CorrectedMakeZip(images: seq<Path>, compression: int, password: Option<string>): (a: Archive)
    ensures a.ZipArchive? && |a.entries| == |images|
    ensures forall i :: 0 <= i < |images| ==> a.entries[i].1 == images[i]
    ensures forall i, j :: 0 <= i < j < |images| ==> a.entries[i].0 != a.entries[j].0
    ensures a.password.Some? <==> Truthy(password)
  {
    EntryNamesDistinct(images);
    var names := EntryNames(images);
    ZipArchive(seq(|images|, i requires 0 <= i < |images| => (names[i], images[i])), compression,
               if Truthy(password) then password else None)
  }

  /** The pdf `_build_artifact` makes: one page per image, in order; encrypted only with a non-empty password. */
  function MakePdf(images: seq<Path>, quality: Option<int>, password: Option<string>): (a: Archive)
    ensures a.PdfDocument? && |a.pages| == |images|
    ensures forall i :: 0 <= i < |images| ==> a.pages[i] == PdfPage(images[i], quality)
    ensures quality.None? ==> a.pages == images
    ensures a.password.Some? <==> Truthy(password)
  {
    PdfDocument(seq(|images|, i requires 0 <= i < |images| => PdfPage(images[i], quality)),
                if Truthy(password) then password else None)
  }

  // ---- an existing artifact (TaskManager._get_artifact) ----

  /**
   * An album's artifact directory: its artifacts by file name, its `artifact_index.json`,
   * and the passwords of its `<hash>.pwd` files by hash.
   */
  datatype ArtifactDir = ArtifactDir(archives: map<string, Archive>, index: JsonFile, passwords: map<string, string>)

  /**
   * `mapping.get(cache_hash)` when it names a file: the index is an object and the entry a
   * non-empty string. A truthy entry of another type makes the path join raise, which
   * the lookup swallows like an unreadable index.
   */
  function IndexEntry(index: JsonFile, cacheHash: string): (r: Option<string>)
    ensures r.Some? ==> r.value != ""
  {
    if index.JsonDoc? && index.v.VDict? && cacheHash in index.v.entries
       && index.v.entries[cacheHash].VStr? && index.v.entries[cacheHash].s != ""
    then Some(index.v.entries[cacheHash].s)
    else None
  }

  /**
   * `_get_artifact`: nothing without the album's directory; an index entry decides alone
   * (its file, if present, else nothing); otherwise the rule's reconstructed name, if
   * the rule has one and the file is present.
   */
  function GetArtifact(dir: Option<ArtifactDir>, cfg: NamingConfig, albumId: string, cacheHash: string,
                       outputFormat: string): (r: Option<string>)
    ensures dir.None? ==> r.None?
    ensures dir.Some? && IndexEntry(dir.value.index, cacheHash).Some? ==>
              r == (var f := IndexEntry(dir.value.index, cacheHash).value; if f in dir.value.archives then Some(f) else None)
    ensures dir.Some? && IndexEntry(dir.value.index, cacheHash).None? ==>
              r == (var base := LookupBase(albumId, cacheHash, cfg);
                    if base.Some? && base.value + "." + outputFormat in dir.value.archives then Some(base.value + "." + outputFormat) else None)
    ensures r.Some? ==> r.value in dir.value.archives && r.value != ""
  {
    if dir.None? then None
    else
      var entry := IndexEntry(dir.value.index, cacheHash);
      if entry.Some? then (if entry.value in dir.value.archives then entry else None)
      else
        var base := LookupBase(albumId, cacheHash, cfg);
        if base.Some? && base.value + "." + outputFormat in dir.value.archives
        then Some(base.value + "." + outputFormat)
        else None
  }

  /**
   * The index after `_build_artifact` recorded a file: a missing index becomes a new one,
   * an object gains the entry, and an unreadable or non-object index is left alone.
   */
  function RecordInIndex(index: JsonFile, cacheHash: string, filename: string): (r: JsonFile)
    ensures index.NoFile? || (index.JsonDoc? && index.v.VDict?) ==>
              r.JsonDoc? && r.v.VDict? && cacheHash in r.v.entries && r.v.entries[cacheHash] == VStr(filename)
    ensures index.JsonDoc? && index.v.VDict? ==>
              forall k :: k in index.v.entries && k != cacheHash ==> k in r.v.entries && r.v.entries[k] == index.v.entries[k]
    ensures !(index.NoFile? || (index.JsonDoc? && index.v.VDict?)) ==> r == index
  {
    match index
    case NoFile => JsonDoc(VDict(map[cacheHash := VStr(filename)]))
    case JsonDoc(VDict(m)) => JsonDoc(VDict(m[cacheHash := VStr(filename)]))
    case _ => index
  }

  /** A directory after `_build_artifact` wrote `archive` as `filename` for `cacheHash`. */
  function Built(dir: ArtifactDir, cacheHash: string, filename: string, archive: Archive): ArtifactDir {
    dir.(archives := dir.archives[filename := archive], index := RecordInIndex(dir.index, cacheHash, filename))
  }

  /**
   * After a build, the lookup of the same hash finds the built file when the index could
   * record it, or when the rule is deterministic; with an unreadable index and any other
   * rule the artifact is not found again.
   */
  lemma LookupAfterBuild(dir: ArtifactDir, cfg: NamingConfig, albumId: string, cacheHash: string,
                         outputFormat: string, base: string, archive: Archive)
    requires outputFormat in {"zip", "pdf"}
    requires LookupBase(albumId, cacheHash, cfg).Some? ==> base == LookupBase(albumId, cacheHash, cfg).value
    ensures var filename := ArtifactFileName(base, outputFormat);
            var found := GetArtifact(Some(Built(dir, cacheHash, filename, archive)), cfg, albumId, cacheHash, outputFormat);
            && (dir.index.NoFile? || (dir.index.JsonDoc? && dir.index.v.VDict?) ==> found == Some(filename))
            && (LookupBase(albumId, cacheHash, cfg).Some? && IndexEntry(dir.index, cacheHash).None? ==> found == Some(filename))
            && ((LookupBase(albumId, cacheHash, cfg).None? && IndexEntry(dir.index, cacheHash).None?
                 && !(dir.index.NoFile? || (dir.index.JsonDoc? && dir.index.v.VDict?))) ==> found.None?)
  {
    var filename := ArtifactFileName(base, outputFormat);
    var built := Built(dir, cacheHash, filename, archive);
    if dir.index.NoFile? || (dir.index.JsonDoc? && dir.index.v.VDict?) {
      assert filename != "";
      assert IndexEntry(built.index, cacheHash) == Some(filename);
    }
  }

  /**
   * Under the "album_id" rule every parameter set of an album names its artifact alike:
   * once one has been built, the lookup for any other parameter hash falls back to that
   * name and returns the artifact built for the first parameters.
   */
  lemma AlbumIdNameShared(cfg: NamingConfig, albumId: string, firstHash: string, otherHash: string,
                          outputFormat: string, archive: Archive)
    requires cfg.rule == Some("album_id") && firstHash != otherHash && outputFormat in {"zip", "pdf"}
    ensures var filename := ArtifactFileName(albumId, outputFormat);
            var dir := Built(ArtifactDir(map[], NoFile, map[]), firstHash, filename, archive);
            GetArtifact(Some(dir), cfg, albumId, otherHash, outputFormat) == Some(filename)
            && dir.archives[filename] == archive
  {
    var filename := ArtifactFileName(albumId, outputFormat);
    var dir := Built(ArtifactDir(map[], NoFile, map[]), firstHash, filename, archive);
    assert IndexEntry(dir.index, otherHash).None?;
  }
}
