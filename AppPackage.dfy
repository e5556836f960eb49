/**
 * The packaging half of `Downloader.download_and_package` (app/downloader.py): the
 * selected images, their optional re-encoding into numbered JPEGs, the staging tree of a
 * zip built from the recorded images, and the archive that comes out (format,
 * compressor, password, members or pages).
 */
module AppPackage {
  import opened Common
  import opened Ordering
  import Decimal
  import opened AppModels
  import opened AppDownloader
  import opened AppScan

  // ---- re-encoding (Downloader._reencode_images) ----

  /** `f"{idx:05d}.jpg"`. */
  function ReencodedName(idx: nat): string {
    Decimal.ZeroPadded(idx, 5) + ".jpg"
  }

  /** Different numbers give different output names. */
  lemma ReencodedNameInjective(m: nat, n: nat)
    requires m != n
    ensures ReencodedName(m) != ReencodedName(n)
  {
    if ReencodedName(m) == ReencodedName(n) {
      SuffixCancel(Decimal.ZeroPadded(m, 5), Decimal.ZeroPadded(n, 5), ".jpg");
      Decimal.ZeroPaddedInjective(m, n, 5);
    }
  }

  /** The outputs of re-encoding `n` images into `staging`, numbered from 1. */
  function ReencodedPaths(staging: Path, n: nat): (r: seq<Path>)
    ensures |r| == n
  {
    if n == 0 then [] else ReencodedPaths(staging, n - 1) + [Child(staging, ReencodedName(n))]
  }

  lemma {:induction false} ReencodedPathAt(staging: Path, n: nat, k: nat)
    requires k < n
    ensures ReencodedPaths(staging, n)[k] == Child(staging, ReencodedName(k + 1))
  {
    if k < n - 1 {
      ReencodedPathAt(staging, n - 1, k);
    }
  }

  /** Distinct numbers give distinct output files, so no output overwrites another. */
  lemma ReencodedNamesDistinct(staging: Path, m: nat, n: nat)
    requires m != n
    ensures Child(staging, ReencodedName(m)) != Child(staging, ReencodedName(n))
  {
    var a, b := Decimal.ZeroPadded(m, 5), Decimal.ZeroPadded(n, 5);
    if Child(staging, ReencodedName(m)) == Child(staging, ReencodedName(n)) {
      PrefixCancel(staging + "/", a + ".jpg", b + ".jpg");
      SuffixCancel(a, b, ".jpg");
      Decimal.ZeroPaddedInjective(m, n, 5);
    }
  }

  /** The outputs of one call are pairwise distinct files: no output overwrites another. */
  lemma ReencodedPathsDistinct(staging: Path, n: nat)
    ensures forall i, j :: 0 <= i < j < n ==> ReencodedPaths(staging, n)[i] != ReencodedPaths(staging, n)[j]
  {
    forall i, j | 0 <= i < j < n ensures ReencodedPaths(staging, n)[i] != ReencodedPaths(staging, n)[j] {
      ReencodedPathAt(staging, n, i);
      ReencodedPathAt(staging, n, j);
      ReencodedNamesDistinct(staging, i + 1, j + 1);
    }
  }

  /** The error the PDF converter raises when it is handed no image; its wording is not modelled. */
  const NoImages := "no input images for the PDF"

  /** How one staged output was made: re-encoded by the imaging library, or copied as is. */
  datatype Staged = Encoded(src: Path, quality: int) | Copied(src: Path)

  /** A source the imaging library opens is re-encoded; any other existing file is copied. */
  predicate Stageable(src: Path, files: FileSystem, decodable: set<Path>) {
    src in decodable || src in files
  }

  function StagedFrom(src: Path, quality: int, decodable: set<Path>): Staged {
    if src in decodable then Encoded(src, quality) else Copied(src)
  }

  /** One image of `_reencode_images`: re-encoded when it decodes, copied when it exists. */
  method StageOne(src: Path, quality: int, files: FileSystem, decodable: set<Path>) returns (ok: bool, how: Staged)
    ensures ok == Stageable(src, files, decodable)
    ensures ok ==> how == StagedFrom(src, quality, decodable)
  {
    ok := true;
    if src in decodable {
      how := Encoded(src, quality);
    } else if src in files {
      how := Copied(src);
    } else {
      ok := false;
      how := Copied(src);
    }
  }

  /** Recording how the next image was staged extends the record of the images before it. */
  lemma MadeStep(made: seq<Staged>, images: seq<Path>, how: Staged, quality: int, decodable: set<Path>)
    requires |made| < |images|
    requires forall k :: 0 <= k < |made| ==> made[k] == StagedFrom(images[k], quality, decodable)
    requires how == StagedFrom(images[|made|], quality, decodable)
    ensures forall k :: 0 <= k < |made| + 1 ==> (made + [how])[k] == StagedFrom(images[k], quality, decodable)
  {
  }

  /**
   * `_reencode_images`: image `i` becomes `staging/{i+1:05d}.jpg`, re-encoded when it
   * decodes and copied otherwise; a source that is neither decodable nor present makes
   * the copy raise, which ends the whole call. `made[i]` says how output `i` was made
   * (the outputs differ, by `ReencodedPathsDistinct`, so none overwrites another).
   */
  method ReencodeImages(images: seq<Path>, quality: int, staging: Path, files: FileSystem, decodable: set<Path>)
      returns (r: Result<seq<Path>, string>, made: seq<Staged>)
    ensures r.Failure? <==> exists i :: 0 <= i < |images| && !Stageable(images[i], files, decodable)
    ensures r.Failure? ==> r.error == NoSuchFile(images[FirstUnstageable(images, files, decodable)])
    ensures r.Success? ==> r.value == ReencodedPaths(staging, |images|)
    ensures r.Success? ==> |made| == |images|
    ensures r.Success? ==> forall i :: 0 <= i < |images| ==> made[i] == StagedFrom(images[i], quality, decodable)
  {
    var out: seq<Path> := [];
    made := [];
    var i := 0;
    while i < |images|
      invariant 0 <= i <= |images|
      invariant out == ReencodedPaths(staging, i)
      invariant |made| == i
      invariant forall k :: 0 <= k < i ==> Stageable(images[k], files, decodable)
      invariant forall k :: 0 <= k < i ==> made[k] == StagedFrom(images[k], quality, decodable)
    {
      var ok, how := StageOne(images[i], quality, files, decodable);
      if !ok {
        assert !Stageable(images[i], files, decodable);
        assert SomeUnstageable(images, files, decodable);
        assert FirstUnstageable(images, files, decodable) == i;
        return Failure(NoSuchFile(images[i])), made;
      }
      out := out + [Child(staging, ReencodedName(i + 1))];
      assert out == ReencodedPaths(staging, i + 1);
      MadeStep(made, images, how, quality, decodable);
      made := made + [how];
      i := i + 1;
    }
    assert forall k :: 0 <= k < |images| ==> Stageable(images[k], files, decodable);
    return Success(out), made;
  }

  // ---- the zip staging tree (the `_pack_stage` loop) ----

  /** One file of an archive: its name inside the archive and the file its bytes come from. */
  datatype Member = Member(arc: string, src: Path)

  /** A `{n:05d}_` prefix followed by a path component is one path component. */
  lemma NumberedComponent(d: string, b: string)
    requires Decimal.AllDigits(d) && '/' !in b
    ensures '/' !in d + "_" + b
    ensures StartsWith(d + "_" + b, d + "_")
  {
    assert forall k :: 0 <= k < |d| ==> d[k] != '/';
    NoSlashConcat(d, "_");
    NoSlashConcat(d + "_", b);
    PrefixStarts(d + "_", b);
  }

  /** `f"{index:05d}_{Path(filename or src.name).name}"`: one path component. */
  function StagedName(index: nat, it: ImageItem): (name: string)
    ensures '/' !in name
    ensures StartsWith(name, Decimal.ZeroPadded(index, 5) + "_")
  {
    NumberedComponent(Decimal.ZeroPadded(index, 5), Basename(OrElse(it.filename, it.path)));
    Decimal.ZeroPadded(index, 5) + "_" + Basename(OrElse(it.filename, it.path))
  }

  /** The member name of a staged file: under its album's folder, or at the root. */
  function ArcPath(dir: string, name: string): string {
    if dir == "" then name else Child(dir, name)
  }

  lemma BasenameOfName(name: string)
    requires '/' !in name
    ensures Basename(name) == name
  {
  }

  lemma ArcBasename(dir: string, index: nat, it: ImageItem)
    ensures Basename(ArcPath(dir, StagedName(index, it))) == StagedName(index, it)
  {
    var name := StagedName(index, it);
    if dir == "" {
      BasenameOfName(name);
    } else {
      BasenameOfChild(dir, name);
    }
  }

  /** One file of the staging tree: `dst = sub / f"{index:05d}_{name}"`, linked to the item's path. */
  datatype Link = Link(index: nat, dir: string, item: ImageItem)

  function LinkMember(l: Link): Member {
    Member(ArcPath(l.dir, StagedName(l.index, l.item)), l.item.path)
  }

  function Members(ls: seq<Link>): (r: seq<Member>)
    ensures |r| == |ls|
    ensures forall k :: 0 <= k < |ls| ==> r[k] == LinkMember(ls[k])
  {
    seq(|ls|, k requires 0 <= k < |ls| => LinkMember(ls[k]))
  }

  /**
   * The files the inner loop stages for one album's list: existing files only, with a
   * running index that starts at `start` and advances only when a file is staged.
   */
  function StagedItems(dir: string, items: seq<ImageItem>, files: FileSystem, start: nat): (r: seq<Link>)
    ensures |r| <= |items|
    ensures forall k :: 0 <= k < |r| ==> r[k].index == start + k
  {
    if items == [] then []
    else
      var pre := StagedItems(dir, items[..|items| - 1], files, start);
      var it := items[|items| - 1];
      if it.path in files then pre + [Link(start + |pre|, dir, it)] else pre
  }

  /** `f"album_{aid}"`. */
  function AlbumDir(aid: string): string {
    "album_" + aid
  }

  /**
   * The staging tree as the source builds it: album by album, from the lists recorded by
   * the image events, with one index running across albums from 1.
   */
  function StagedAlbums(albumIds: seq<string>, m: map<string, seq<ImageItem>>, files: FileSystem): (r: seq<Link>)
    ensures forall k :: 0 <= k < |r| ==> r[k].index == 1 + k
  {
    if albumIds == [] then []
    else
      var pre := StagedAlbums(albumIds[..|albumIds| - 1], m, files);
      var aid := albumIds[|albumIds| - 1];
      pre + StagedItems(AlbumDir(aid), AlbumItems(m, aid), files, 1 + |pre|)
  }

  lemma StagedItemsStep(dir: string, items: seq<ImageItem>, j: nat, files: FileSystem, start: nat)
    requires j < |items|
    ensures var pre := StagedItems(dir, items[..j], files, start);
            StagedItems(dir, items[..j + 1], files, start)
              == pre + (if items[j].path in files then [Link(start + |pre|, dir, items[j])] else [])
  {
    assert items[..j + 1][..j] == items[..j];
  }

  lemma StagedAlbumsStep(albumIds: seq<string>, i: nat, m: map<string, seq<ImageItem>>, files: FileSystem)
    requires i < |albumIds|
    ensures var pre := StagedAlbums(albumIds[..i], m, files);
            StagedAlbums(albumIds[..i + 1], m, files)
              == pre + StagedItems(AlbumDir(albumIds[i]), AlbumItems(m, albumIds[i]), files, 1 + |pre|)
  {
    assert albumIds[..i + 1][..i] == albumIds[..i];
  }

  /** The inner staging loop, over one album's recorded list, with the index it starts from. */
  method StageAlbum(dir: string, items: seq<ImageItem>, files: FileSystem, start: nat)
      returns (links: seq<Link>)
    ensures links == StagedItems(dir, items, files, start)
  {
    links := [];
    var index := start;
    var j := 0;
    while j < |items|
      invariant 0 <= j <= |items|
      invariant links == StagedItems(dir, items[..j], files, start)
      invariant index == start + |links|
    {
      var it := items[j];
      StagedItemsStep(dir, items, j, files, start);
      if it.path in files {
        links := links + [Link(index, dir, it)];
        index := index + 1;
      }
      j := j + 1;
    }
    assert items[..j] == items;
  }

  /**
   * The staging loop: for each album, for each recorded image whose file exists, one
   * staged file named by the running index.
   */
  method StageAlbums(albumIds: seq<string>, m: map<string, seq<ImageItem>>, files: FileSystem)
      returns (links: seq<Link>)
    ensures links == StagedAlbums(albumIds, m, files)
  {
    links := [];
    var i := 0;
    while i < |albumIds|
      invariant 0 <= i <= |albumIds|
      invariant links == StagedAlbums(albumIds[..i], m, files)
    {
      var aid := albumIds[i];
      StagedAlbumsStep(albumIds, i, m, files);
      var more := StageAlbum(AlbumDir(aid), AlbumItems(m, aid), files, 1 + |links|);
      links := links + more;
      i := i + 1;
    }
    assert albumIds[..i] == albumIds;
  }

  /** The files a staging tree links to. */
  function LinkedPaths(ls: seq<Link>): (r: seq<Path>)
    ensures |r| == |ls|
    ensures forall k :: 0 <= k < |ls| ==> r[k] == ls[k].item.path
  {
    seq(|ls|, k requires 0 <= k < |ls| => ls[k].item.path)
  }

  /** The files an archive's members are read from. */
  function Sources(ms: seq<Member>): (r: seq<Path>)
    ensures |r| == |ms|
    ensures forall k :: 0 <= k < |ms| ==> r[k] == ms[k].src
  {
    seq(|ms|, k requires 0 <= k < |ms| => ms[k].src)
  }

  /** The paths that name existing files, in order. */
  function Existing(paths: seq<Path>, files: FileSystem): seq<Path> {
    if paths == [] then []
    else
      var pre := Existing(paths[..|paths| - 1], files);
      if paths[|paths| - 1] in files then pre + [paths[|paths| - 1]] else pre
  }

  lemma {:induction false} ExistingAppend(a: seq<Path>, b: seq<Path>, files: FileSystem)
    ensures Existing(a + b, files) == Existing(a, files) + Existing(b, files)
  {
    if b == [] {
      assert a + b == a;
    } else {
      var b0, x := b[..|b| - 1], b[|b| - 1];
      ExistingAppend(a, b0, files);
      assert (a + b)[..|a + b| - 1] == a + b0;
      assert (a + b)[|a + b| - 1] == x;
    }
  }

  /** The staged files of one album are its existing recorded images, in list order. */
  lemma {:induction false} StagedItemsPaths(dir: string, items: seq<ImageItem>, files: FileSystem, start: nat)
    ensures LinkedPaths(StagedItems(dir, items, files, start)) == Existing(Paths(items), files)
  {
    if items != [] {
      var pre := items[..|items| - 1];
      StagedItemsPaths(dir, pre, files, start);
      assert Paths(items)[..|items| - 1] == Paths(pre);
      var ls := StagedItems(dir, pre, files, start);
      if items[|items| - 1].path in files {
        assert LinkedPaths(ls + [Link(start + |ls|, dir, items[|items| - 1])]) == LinkedPaths(ls) + [items[|items| - 1].path];
      }
    }
  }

  /**
   * After the selection loop has sorted the recorded lists in place, the staging loop
   * links exactly the selected images that exist, in selection order.
   */
  lemma {:induction false} StagedAlbumsPaths(albumIds: seq<string>, listed: seq<string>, m: map<string, seq<ImageItem>>, files: FileSystem)
    requires forall aid :: aid in albumIds ==> aid in listed
    ensures LinkedPaths(StagedAlbums(albumIds, SortedAlbums(listed, m), files)) == Existing(SelectedPaths(albumIds, m), files)
  {
    if albumIds != [] {
      var pre, aid := albumIds[..|albumIds| - 1], albumIds[|albumIds| - 1];
      var sm := SortedAlbums(listed, m);
      assert forall a :: a in pre ==> a in albumIds;
      StagedAlbumsPaths(pre, listed, m, files);
      var staged := StagedAlbums(pre, sm, files);
      var items := AlbumItems(sm, aid);
      var more := StagedItems(AlbumDir(aid), items, files, 1 + |staged|);
      StagedAlbumsLast(albumIds, sm, files);
      assert SelectedPaths(albumIds, m) == SelectedPaths(pre, m) + Paths(items) by {
        SortedAlbumsAt(listed, m, aid);
        assert items == Sort(AlbumItems(m, aid), ItemLe);
      }
      assert LinkedPaths(more) == Existing(Paths(items), files) by {
        StagedItemsPaths(AlbumDir(aid), items, files, 1 + |staged|);
      }
      LinkedJoin(staged, more, SelectedPaths(pre, m), Paths(items), files);
      assert LinkedPaths(StagedAlbums(albumIds, sm, files)) == LinkedPaths(staged + more);
      assert Existing(SelectedPaths(albumIds, m), files) == Existing(SelectedPaths(pre, m) + Paths(items), files);
    }
  }

  /** Staging two selections one after the other links the existing paths of both. */
  lemma LinkedJoin(staged: seq<Link>, more: seq<Link>, a: seq<Path>, b: seq<Path>, files: FileSystem)
    requires LinkedPaths(staged) == Existing(a, files)
    requires LinkedPaths(more) == Existing(b, files)
    ensures LinkedPaths(staged + more) == Existing(a + b, files)
  {
    ExistingAppend(a, b, files);
    LinkedPathsAppend(staged, more);
  }

  /** The staging of the last album follows the staging of the albums before it. */
  lemma StagedAlbumsLast(albumIds: seq<string>, m: map<string, seq<ImageItem>>, files: FileSystem)
    requires albumIds != []
    ensures var pre, aid := albumIds[..|albumIds| - 1], albumIds[|albumIds| - 1];
            var staged := StagedAlbums(pre, m, files);
            StagedAlbums(albumIds, m, files) == staged + StagedItems(AlbumDir(aid), AlbumItems(m, aid), files, 1 + |staged|)
  {
  }

  lemma LinkedPathsAppend(a: seq<Link>, b: seq<Link>)
    ensures LinkedPaths(a + b) == LinkedPaths(a) + LinkedPaths(b)
  {
  }

  /** Links numbered consecutively get pairwise distinct member names: no staged file replaces another. */
  lemma LinksDistinct(ls: seq<Link>, start: nat)
    requires forall k :: 0 <= k < |ls| ==> ls[k].index == start + k
    ensures forall i, j :: 0 <= i < j < |ls| ==> LinkMember(ls[i]).arc != LinkMember(ls[j]).arc
  {
    forall i, j | 0 <= i < j < |ls| ensures LinkMember(ls[i]).arc != LinkMember(ls[j]).arc {
      ArcBasename(ls[i].dir, ls[i].index, ls[i].item);
      ArcBasename(ls[j].dir, ls[j].index, ls[j].item);
      PaddedPrefixesDiffer(ls[i].index, ls[j].index, StagedName(ls[i].index, ls[i].item), StagedName(ls[j].index, ls[j].item));
    }
  }

  /** Names that start with different `{n:05d}_` prefixes differ. */
  lemma PaddedPrefixesDiffer(a: nat, b: nat, s: string, t: string)
    requires a != b
    requires StartsWith(s, Decimal.ZeroPadded(a, 5) + "_")
    requires StartsWith(t, Decimal.ZeroPadded(b, 5) + "_")
    ensures s != t
  {
    var p, q := Decimal.ZeroPadded(a, 5), Decimal.ZeroPadded(b, 5);
    if |p| == |q| {
      if s == t {
        assert p + "_" == s[..|p| + 1] == q + "_";
        assert p == (p + "_")[..|p|] && q == (q + "_")[..|q|];
        Decimal.ZeroPaddedInjective(a, b, 5);
      }
    } else if |p| < |q| {
      assert s[|p|] == '_' && Decimal.IsDigit(t[|p|]);
    } else {
      assert t[|q|] == '_' && Decimal.IsDigit(s[|q|]);
    }
  }

  // ---- the archive (Downloader._make_zip and Downloader._make_pdf) ----

  datatype ZipMethod = Deflated | Lzma

  /** `_make_zip`'s compressor: LZMA from level 7 up, deflate below. */
  function ZipMethodFor(compression: int): (z: ZipMethod)
    ensures z == Lzma <==> compression >= 7
  {
    if compression >= 7 then Lzma else Deflated
  }

  /**
   * The password the archive is protected with: the request's password when encryption
   * is asked for (`params.password if params.encrypt else None`), and only when it is a
   * non-empty string (`if password:`); otherwise the archive is written in the clear.
   */
  function ArchivePassword(params: DownloadParams): (pw: Option<string>)
    ensures pw.Some? <==> params.encrypt && Truthy(params.password)
    ensures pw.Some? ==> pw == params.password && pw.value != ""
  {
    if params.encrypt && Truthy(params.password) then params.password else None
  }

  /**
   * The archive written: a zip (AES-256 when it has a password) with its members listed
   * in the order they are staged, which their numbered names record (the order the zip
   * file stores them in is not modelled), or a PDF with one page per image, in order.
   */
  datatype Archive =
    | ZipArchive(compressor: ZipMethod, password: Option<string>, members: seq<Member>)
    | PdfArchive(pages: seq<Path>, password: Option<string>)

  datatype Packaged = Packaged(result: DownloadResult, archive: Archive)

  /** `f"JM_{'_'.join(album_ids)}_{ts_name}"`. */
  function ArtifactBaseName(albumIds: seq<string>, timestamp: string): (name: string)
    ensures StartsWith(name, "JM_")
  {
    PrefixStarts("JM_", Join(albumIds, "_") + "_" + timestamp);
    "JM_" + (Join(albumIds, "_") + "_" + timestamp)
  }

  /** "zip" for the zip format; any other format is packaged as a PDF. */
  function SuffixFor(outputFormat: string): (suffix: string)
    ensures suffix in {"zip", "pdf"}
    ensures suffix == "zip" <==> outputFormat == "zip"
  {
    if outputFormat == "zip" then "zip" else "pdf"
  }

  /**
   * The images a package is built from: those the image events recorded for the listed
   * albums, in selection order, or the directory scan when the events recorded none.
   */
  function Selection(albumIds: seq<string>, m: map<string, seq<ImageItem>>, walk: seq<Path>): (sel: seq<Path>)
    ensures SelectedPaths(albumIds, m) != [] ==> sel == SelectedPaths(albumIds, m)
    ensures SelectedPaths(albumIds, m) == [] ==> sel == Sort(ImageFiles(walk), PathLe)
  {
    var recorded := SelectedPaths(albumIds, m);
    if recorded != [] then recorded else Sort(ImageFiles(walk), PathLe)
  }

  /** The zip of the re-encoded tree: each output under its own name. */
  function ReencodedMembers(staging: Path, n: nat): (r: seq<Member>)
    ensures |r| == n
  {
    seq(n, k requires 0 <= k => Member(ReencodedName(k + 1), Child(staging, ReencodedName(k + 1))))
  }

  /**
   * Corrected staging only: scanned paths as items the staging loop can read, with no
   * page and no file name, so each is staged under its own file name.
   */
  function ScanItems(paths: seq<Path>): (r: seq<ImageItem>)
    ensures |r| == |paths|
    ensures forall k :: 0 <= k < |paths| ==> r[k] == ImageItem(paths[k], None, None)
  {
    seq(|paths|, k requires 0 <= k < |paths| => ImageItem(paths[k], None, None))
  }

  /**
   * The staging tree of a zip built from the original images, as written: the lists the
   * image events recorded, after the selection loop sorted them in place, staged album by
   * album. The directory scan's selection is not consulted.
   */
  function PackLinks(albumIds: seq<string>, m: map<string, seq<ImageItem>>, files: FileSystem): (r: seq<Link>)
    ensures forall k :: 0 <= k < |r| ==> r[k].index == 1 + k
  {
    StagedAlbums(albumIds, SortedAlbums(albumIds, m), files)
  }

  /**
   * Corrected: the staging tree that also covers the directory-scan fallback. When the
   * events recorded images they are staged per album, as the source does; when the
   * selection came from the scan, the scanned images are staged at the root of the tree,
   * numbered the same way.
   */
  function CorrectedPackLinks(albumIds: seq<string>, m: map<string, seq<ImageItem>>, files: FileSystem, walk: seq<Path>): (r: seq<Link>)
    ensures forall k :: 0 <= k < |r| ==> r[k].index == 1 + k
    ensures SelectedPaths(albumIds, m) != [] ==> r == PackLinks(albumIds, m, files)
  {
    if SelectedPaths(albumIds, m) != [] then PackLinks(albumIds, m, files)
    else StagedItems("", ScanItems(Sort(ImageFiles(walk), PathLe)), files, 1)
  }

  /** Some image of the selection is neither decodable nor present. */
  predicate SomeUnstageable(sel: seq<Path>, files: FileSystem, decodable: set<Path>) {
    exists i :: 0 <= i < |sel| && !Stageable(sel[i], files, decodable)
  }

  /** Some page of the selection is missing. */
  predicate SomeMissing(sel: seq<Path>, files: FileSystem) {
    exists i :: 0 <= i < |sel| && sel[i] !in files
  }

  /** The index of the first image the staging loop cannot stage: the one whose copy raises. */
  function FirstUnstageable(sel: seq<Path>, files: FileSystem, decodable: set<Path>): (i: nat)
    requires SomeUnstageable(sel, files, decodable)
    ensures i < |sel| && !Stageable(sel[i], files, decodable)
    ensures forall k :: 0 <= k < i ==> Stageable(sel[k], files, decodable)
  {
    if !Stageable(sel[0], files, decodable) then 0
    else
      assert SomeUnstageable(sel[1..], files, decodable) by {
        var j :| 0 <= j < |sel| && !Stageable(sel[j], files, decodable);
        assert sel[1..][j - 1] == sel[j];
      }
      1 + FirstUnstageable(sel[1..], files, decodable)
  }

  /** The index of the first missing page: the one whose read raises. */
  function FirstMissing(sel: seq<Path>, files: FileSystem): (i: nat)
    requires SomeMissing(sel, files)
    ensures i < |sel| && sel[i] !in files
    ensures forall k :: 0 <= k < i ==> sel[k] in files
  {
    if sel[0] !in files then 0
    else
      assert SomeMissing(sel[1..], files) by {
        var j :| 0 <= j < |sel| && sel[j] !in files;
        assert sel[1..][j - 1] == sel[j];
      }
      1 + FirstMissing(sel[1..], files)
  }

  /** A missing file's error is never the converter's error for an empty image list. */
  lemma NoSuchFileIsNotNoImages(p: Path)
    ensures NoSuchFile(p) != NoImages
  {
    assert NoSuchFile(p)[0] == '[';
  }

  /**
   * The archive written for the selection `sel`, given the staging tree `links` a zip of
   * the original images would be built from. A PDF of no image fails in the converter.
   */
  function ArchiveOf(params: DownloadParams, sel: seq<Path>, links: seq<Link>, metadata: seq<AlbumMeta>,
                     files: FileSystem, decodable: set<Path>, taskWork: Path, timestamp: string): (r: Result<Packaged, string>)
    ensures params.quality.Some? && SomeUnstageable(sel, files, decodable) ==>
              r == Failure(NoSuchFile(sel[FirstUnstageable(sel, files, decodable)]))
    ensures params.quality.None? && params.outputFormat != "zip" && SomeMissing(sel, files) ==>
              r == Failure(NoSuchFile(sel[FirstMissing(sel, files)]))
    ensures params.outputFormat != "zip" && sel == [] ==> r == Failure(NoImages)
    ensures r.Success? ==> (r.value.archive.ZipArchive? <==> params.outputFormat == "zip")
    ensures r.Success? ==> r.value.result.albumIds == params.albumIds && r.value.result.metadata == metadata
    ensures params.quality.None? && params.outputFormat == "zip" ==>
              r.Success? && r.value.archive.ZipArchive? && r.value.archive.members == Members(links)
  {
    var staging := Child(taskWork, "_reencoded");
    var suffix := SuffixFor(params.outputFormat);
    var out := Child(taskWork, ArtifactBaseName(params.albumIds, timestamp) + "." + suffix);
    var result := DownloadResult(params.albumIds, out, suffix, metadata);
    var pw := ArchivePassword(params);
    if params.quality.Some? && SomeUnstageable(sel, files, decodable) then
      Failure(NoSuchFile(sel[FirstUnstageable(sel, files, decodable)]))
    else if params.outputFormat == "zip" then
      var members := if params.quality.Some? then ReencodedMembers(staging, |sel|) else Members(links);
      Success(Packaged(result, ZipArchive(ZipMethodFor(params.compression), pw, members)))
    else if params.quality.None? && SomeMissing(sel, files) then
      Failure(NoSuchFile(sel[FirstMissing(sel, files)]))
    else if sel == [] then Failure(NoImages)
    else
      var pages := if params.quality.Some? then ReencodedPaths(staging, |sel|) else sel;
      Success(Packaged(result, PdfArchive(pages, pw)))
  }

  /**
   * What `download_and_package` produces once the albums are downloaded: the recorded
   * image lists `m` as the events left them, the files on disk, the images the imaging
   * library can decode, the directory walk of the whole shared download base, the
   * task's work directory and the time stamp.
   */
  function PackageOf(params: DownloadParams, m: map<string, seq<ImageItem>>, metadata: seq<AlbumMeta>,
                     files: FileSystem, decodable: set<Path>, walk: seq<Path>, taskWork: Path, timestamp: string): (r: Result<Packaged, string>)
    ensures var sel := Selection(params.albumIds, m, walk);
            params.quality.Some? && SomeUnstageable(sel, files, decodable) ==>
              r == Failure(NoSuchFile(sel[FirstUnstageable(sel, files, decodable)]))
    ensures var sel := Selection(params.albumIds, m, walk);
            params.quality.None? && params.outputFormat != "zip" && SomeMissing(sel, files) ==>
              r == Failure(NoSuchFile(sel[FirstMissing(sel, files)]))
    ensures params.outputFormat != "zip" && Selection(params.albumIds, m, walk) == [] ==> r == Failure(NoImages)
    ensures r.Success? ==> (r.value.archive.ZipArchive? <==> params.outputFormat == "zip")
    ensures params.quality.None? && params.outputFormat == "zip" ==>
              r.Success? && r.value.archive.ZipArchive? && r.value.archive.members == Members(PackLinks(params.albumIds, m, files))
  {
    ArchiveOf(params, Selection(params.albumIds, m, walk), PackLinks(params.albumIds, m, files),
              metadata, files, decodable, taskWork, timestamp)
  }

  /** `[p.read_bytes() for p in images]`: every page is read, and a missing one raises. */
  method ReadPages(paths: seq<Path>, files: FileSystem) returns (r: Result<seq<seq<byte>>, string>)
    ensures r.Success? <==> !SomeMissing(paths, files)
    ensures r.Failure? ==> r.error == NoSuchFile(paths[FirstMissing(paths, files)])
    ensures r.Success? ==> |r.value| == |paths| && forall k :: 0 <= k < |paths| ==> r.value[k] == files[paths[k]]
  {
    var pages: seq<seq<byte>> := [];
    var i := 0;
    while i < |paths|
      invariant 0 <= i <= |paths|
      invariant forall k :: 0 <= k < i ==> paths[k] in files
      invariant |pages| == i && forall k :: 0 <= k < i ==> pages[k] == files[paths[k]]
    {
      if paths[i] !in files {
        assert SomeMissing(paths, files);
        assert FirstMissing(paths, files) == i;
        return Failure(NoSuchFile(paths[i]));
      }
      pages := pages + [files[paths[i]]];
      i := i + 1;
    }
    return Success(pages);
  }

  /** The selection step: the recorded images in order, or the directory scan when there are none. */
  method SelectForPackage(collector: ImageCollector, albumIds: seq<string>, walk: seq<Path>)
      returns (selected: seq<Path>)
    modifies collector
    ensures selected == Selection(albumIds, old(collector.byAlbum), walk)
    ensures collector.byAlbum == SortedAlbums(albumIds, old(collector.byAlbum))
  {
    selected := collector.SelectImages(albumIds);
    if selected == [] {
      selected := CollectImages(walk);
    }
  }

  /**
   * The packaging step: re-encode when a quality is given, then write the zip (from the
   * re-encoded tree, or else from the recorded lists `sorted`, whatever `selected` holds)
   * or the PDF of `selected`, which fails when there is no image to convert.
   */
  method BuildPackage(params: DownloadParams, sorted: map<string, seq<ImageItem>>, selected: seq<Path>,
                      metadata: seq<AlbumMeta>, files: FileSystem, decodable: set<Path>, taskWork: Path, timestamp: string)
      returns (r: Result<Packaged, string>)
    ensures r == ArchiveOf(params, selected, StagedAlbums(params.albumIds, sorted, files),
                           metadata, files, decodable, taskWork, timestamp)
  {
    var staging := Child(taskWork, "_reencoded");
    var images := selected;
    if params.quality.Some? {
      var encoded, made := ReencodeImages(selected, params.quality.value, staging, files, decodable);
      if encoded.Failure? {
        return Failure(encoded.error);
      }
      images := encoded.value;
    }
    var suffix := SuffixFor(params.outputFormat);
    var out := Child(taskWork, ArtifactBaseName(params.albumIds, timestamp) + "." + suffix);
    var pw := ArchivePassword(params);
    var archive;
    if params.outputFormat == "zip" {
      var members;
      if params.quality.Some? {
        members := ReencodedMembers(staging, |images|);
      } else {
        var links := StageAlbums(params.albumIds, sorted, files);
        members := Members(links);
      }
      archive := ZipArchive(ZipMethodFor(params.compression), pw, members);
    } else {
      if params.quality.None? {
        var read := ReadPages(images, files);
        if read.Failure? {
          return Failure(read.error);
        }
      }
      if images == [] {
        return Failure(NoImages);
      }
      archive := PdfArchive(images, pw);
    }
    r := Success(Packaged(DownloadResult(params.albumIds, out, suffix, metadata), archive));
  }

  /**
   * `download_and_package` after the downloads: select, fall back to the scan, re-encode
   * when a quality is given, and write the archive. The recorded lists are left sorted.
   */
  method DownloadAndPackage(params: DownloadParams, collector: ImageCollector, metadata: seq<AlbumMeta>,
                            files: FileSystem, decodable: set<Path>, walk: seq<Path>, taskWork: Path, timestamp: string)
      returns (r: Result<Packaged, string>)
    modifies collector
    ensures r == PackageOf(params, old(collector.byAlbum), metadata, files, decodable, walk, taskWork, timestamp)
    ensures collector.byAlbum == SortedAlbums(params.albumIds, old(collector.byAlbum))
  {
    var selected := SelectForPackage(collector, params.albumIds, walk);
    r := BuildPackage(params, collector.byAlbum, selected, metadata, files, decodable, taskWork, timestamp);
  }

  // ---- what a package holds ----

  /**
   * As written, a zip of the original images holds exactly the images the events
   * recorded that exist, each once, under pairwise distinct names that number them in
   * selection order.
   * This is the selection when the events recorded images; a scan-based selection is
   * never staged (see `AsWrittenZipDropsScan`).
   */
  lemma ZipHoldsRecorded(albumIds: seq<string>, m: map<string, seq<ImageItem>>, files: FileSystem, walk: seq<Path>)
    ensures var ms := Members(PackLinks(albumIds, m, files));
            && Sources(ms) == Existing(SelectedPaths(albumIds, m), files)
            && (SelectedPaths(albumIds, m) != [] ==> Sources(ms) == Existing(Selection(albumIds, m, walk), files))
            && forall i, j :: 0 <= i < j < |ms| ==> ms[i].arc != ms[j].arc
  {
    var links := PackLinks(albumIds, m, files);
    StagedAlbumsPaths(albumIds, albumIds, m, files);
    assert Sources(Members(links)) == LinkedPaths(links);
    LinksDistinct(links, 1);
  }

  /**
   * Corrected: with the scan-aware staging, a zip of the original images holds exactly
   * the selected images that exist, each once, under pairwise distinct names that number
   * them in selection order, whether the events recorded them or the directory scan
   * found them.
   */
  lemma ZipHoldsSelection(albumIds: seq<string>, m: map<string, seq<ImageItem>>, files: FileSystem, walk: seq<Path>)
    ensures var ms := Members(CorrectedPackLinks(albumIds, m, files, walk));
            && Sources(ms) == Existing(Selection(albumIds, m, walk), files)
            && forall i, j :: 0 <= i < j < |ms| ==> ms[i].arc != ms[j].arc
  {
    var links := CorrectedPackLinks(albumIds, m, files, walk);
    var sel := Selection(albumIds, m, walk);
    if SelectedPaths(albumIds, m) != [] {
      ZipHoldsRecorded(albumIds, m, files, walk);
    } else {
      ScannedStagingHolds(sel, files);
    }
  }

  /** Staging a scanned selection links exactly its existing images, under distinct names. */
  lemma ScannedStagingHolds(sel: seq<Path>, files: FileSystem)
    ensures var ms := Members(StagedItems("", ScanItems(sel), files, 1));
            && Sources(ms) == Existing(sel, files)
            && forall i, j :: 0 <= i < j < |ms| ==> ms[i].arc != ms[j].arc
  {
    var links := StagedItems("", ScanItems(sel), files, 1);
    StagedItemsPaths("", ScanItems(sel), files, 1);
    assert Paths(ScanItems(sel)) == sel;
    assert Sources(Members(links)) == LinkedPaths(links);
    LinksDistinct(links, 1);
  }

  /**
   * Without re-encoding, a zip package always succeeds; its members are the existing
   * images the events recorded, which is the existing selection when the events recorded
   * any, and nothing when the selection came from the directory scan.
   */
  lemma PackagedZipHoldsSelection(params: DownloadParams, m: map<string, seq<ImageItem>>, metadata: seq<AlbumMeta>,
                                  files: FileSystem, decodable: set<Path>, walk: seq<Path>, taskWork: Path, timestamp: string)
    requires params.quality.None? && params.outputFormat == "zip"
    ensures var r := PackageOf(params, m, metadata, files, decodable, walk, taskWork, timestamp);
            && r.Success? && r.value.archive.ZipArchive?
            && Sources(r.value.archive.members) == Existing(SelectedPaths(params.albumIds, m), files)
            && (SelectedPaths(params.albumIds, m) != [] ==>
                  Sources(r.value.archive.members) == Existing(Selection(params.albumIds, m, walk), files))
            && (SelectedPaths(params.albumIds, m) == [] ==> r.value.archive.members == [])
  {
    ZipHoldsRecorded(params.albumIds, m, files, walk);
    if SelectedPaths(params.albumIds, m) == [] {
      AsWrittenZipDropsScan(params.albumIds, m, files);
    }
  }

  /**
   * With a quality, every selected image must be decodable or present; the archive then
   * has one member or page per selected image, named by its position, no two alike.
   */
  lemma ReencodedPackage(params: DownloadParams, sel: seq<Path>, links: seq<Link>, metadata: seq<AlbumMeta>,
                         files: FileSystem, decodable: set<Path>, taskWork: Path, timestamp: string)
    requires params.quality.Some?
    ensures var r := ArchiveOf(params, sel, links, metadata, files, decodable, taskWork, timestamp);
            && (r.Success? <==> (forall i :: 0 <= i < |sel| ==> Stageable(sel[i], files, decodable))
                                && (params.outputFormat == "zip" || sel != []))
            && (r.Success? && r.value.archive.ZipArchive? ==>
                  && |r.value.archive.members| == |sel|
                  && forall i, j :: 0 <= i < j < |sel| ==> r.value.archive.members[i].arc != r.value.archive.members[j].arc)
            && (r.Success? && r.value.archive.PdfArchive? ==>
                  r.value.archive.pages == ReencodedPaths(Child(taskWork, "_reencoded"), |sel|))
  {
    ReencodedMembersDistinct(Child(taskWork, "_reencoded"), |sel|);
  }

  lemma ReencodedMembersDistinct(staging: Path, n: nat)
    ensures forall i, j :: 0 <= i < j < n ==> ReencodedMembers(staging, n)[i].arc != ReencodedMembers(staging, n)[j].arc
  {
    var ms := ReencodedMembers(staging, n);
    forall i, j | 0 <= i < j < n ensures ms[i].arc != ms[j].arc {
      ReencodedMemberAt(staging, n, i);
      ReencodedMemberAt(staging, n, j);
      ReencodedNameInjective(i + 1, j + 1);
    }
  }

  lemma ReencodedMemberAt(staging: Path, n: nat, k: nat)
    requires k < n
    ensures ReencodedMembers(staging, n)[k].arc == ReencodedName(k + 1)
  {
  }

  /**
   * A package fails exactly on a file it cannot read (an image neither decodable nor
   * present when re-encoding, or a missing page of a PDF of the original images) or on a
   * PDF of no image. A zip of the original images skips missing files instead, and a zip
   * of no image is an empty archive.
   */
  lemma PackageFailures(params: DownloadParams, sel: seq<Path>, links: seq<Link>, metadata: seq<AlbumMeta>,
                        files: FileSystem, decodable: set<Path>, taskWork: Path, timestamp: string)
    ensures var r := ArchiveOf(params, sel, links, metadata, files, decodable, taskWork, timestamp);
            && (r.Failure? <==> ((params.quality.Some? && SomeUnstageable(sel, files, decodable))
                                 || (params.quality.None? && params.outputFormat != "zip" && SomeMissing(sel, files))
                                 || (params.outputFormat != "zip" && sel == [])))
            && (r.Failure? ==> (r.error == NoImages <==> params.outputFormat != "zip" && sel == []))
  {
    if params.quality.Some? && SomeUnstageable(sel, files, decodable) {
      NoSuchFileIsNotNoImages(sel[FirstUnstageable(sel, files, decodable)]);
    } else if params.quality.None? && params.outputFormat != "zip" && SomeMissing(sel, files) {
      NoSuchFileIsNotNoImages(sel[FirstMissing(sel, files)]);
    }
  }

  /**
   * The artifact's kind follows the requested format, its file name the album ids and its
   * suffix, and it is protected exactly when encryption is asked for with a non-empty
   * password; the zip compressor follows the compression level.
   */
  lemma PackageShape(params: DownloadParams, sel: seq<Path>, links: seq<Link>, metadata: seq<AlbumMeta>,
                     files: FileSystem, decodable: set<Path>, taskWork: Path, timestamp: string)
    requires ArchiveOf(params, sel, links, metadata, files, decodable, taskWork, timestamp).Success?
    ensures var p := ArchiveOf(params, sel, links, metadata, files, decodable, taskWork, timestamp).value;
            && (p.archive.ZipArchive? <==> params.outputFormat == "zip")
            && (p.result.suffix == "zip" <==> p.archive.ZipArchive?)
            && p.result.artifactPath == Child(taskWork, ArtifactBaseName(params.albumIds, timestamp) + "." + p.result.suffix)
            && (p.archive.password.Some? <==> params.encrypt && Truthy(params.password))
            && (p.archive.ZipArchive? ==> (p.archive.compressor == Lzma <==> params.compression >= 7))
            && p.result.albumIds == params.albumIds && p.result.metadata == metadata
  {
  }

  /**
   * The staging loop, as written, reads only the lists the image events recorded: when
   * they recorded nothing and the selection came from the directory scan, it stages
   * nothing, so a zip without re-encoding is empty whatever the scan found.
   */
  lemma AsWrittenZipDropsScan(albumIds: seq<string>, m: map<string, seq<ImageItem>>, files: FileSystem)
    requires SelectedPaths(albumIds, m) == []
    ensures PackLinks(albumIds, m, files) == []
  {
    StagedAlbumsPaths(albumIds, albumIds, m, files);
  }

  /**
   * One album whose download fired no image events and whose directory holds one image:
   * the staging loop as written yields an empty zip, although the selection holds that
   * image and it exists; the corrected staging holds it.
   */
  lemma ScanOnlyZipIsEmpty()
    ensures var p := "/cache/work/1/00001.jpg";
            var files: FileSystem := map[p := []];
            var m: map<string, seq<ImageItem>> := map[];
            && PackLinks(["1"], m, files) == []
            && Existing(Selection(["1"], m, [p]), files) == [p]
            && Sources(Members(CorrectedPackLinks(["1"], m, files, [p]))) == [p]
  {
    var p := "/cache/work/1/00001.jpg";
    var files: FileSystem := map[p := []];
    var m: map<string, seq<ImageItem>> := map[];
    NoEventsSelectNothing(m);
    AsWrittenZipDropsScan(["1"], m, files);
    ScanOnlySelection(p, files, m);
    ZipHoldsSelection(["1"], m, files, [p]);
  }

  /** An album without recorded images selects nothing from the events. */
  lemma NoEventsSelectNothing(m: map<string, seq<ImageItem>>)
    requires m == map[]
    ensures SelectedPaths(["1"], m) == []
  {
    assert ["1"][..0] == [];
  }

  /** The scan of a walk holding one present JPEG selects it. */
  lemma ScanOnlySelection(p: Path, files: FileSystem, m: map<string, seq<ImageItem>>)
    requires p == "/cache/work/1/00001.jpg" && files == map[p := []] && m == map[]
    ensures Existing(Selection(["1"], m, [p]), files) == [p]
  {
    NoEventsSelectNothing(m);
    JpgIsImage();
    SingleImageScan(p);
    assert Existing([p], files) == [p] by {
      assert [p][..0] == [];
    }
  }

  lemma JpgIsImage()
    ensures HasImageSuffix("/cache/work/1/00001.jpg")
  {
    SampleBasename();
    SampleSuffix();
    LowerJpg();
  }

  lemma SampleBasename()
    ensures Basename("/cache/work/1/00001.jpg") == "00001.jpg"
  {
    BasenameOfChild("/cache/work/1", "00001.jpg");
    assert Child("/cache/work/1", "00001.jpg") == "/cache/work/1/00001.jpg";
  }

  lemma SampleSuffix()
    ensures Suffix("00001.jpg") == ".jpg"
  {
    var name := "00001.jpg";
    assert RFind(name, '.') == 5 by {
      assert name[..|name| - 1] == "00001.jp";
      assert "00001.jp"[..7] == "00001.j";
      assert "00001.j"[..6] == "00001.";
    }
  }

  lemma LowerJpg()
    ensures LowerAscii(".jpg") == ".jpg"
  {
    assert ".jpg"[1..] == "jpg" && "jpg"[1..] == "pg" && "pg"[1..] == "g" && "g"[1..] == "";
  }

  lemma SingleImageScan(p: Path)
    requires HasImageSuffix(p)
    ensures Sort(ImageFiles([p]), PathLe) == [p]
  {
    FilterOfOne(p, HasImageSuffix);
    SortOfOne(p, PathLe);
  }
}
