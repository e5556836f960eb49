/**
 * The packaging policy of the task server's downloader (app/downloader.py): album
 * metadata normalisation, the per-album lock registry, the images recorded from download
 * events and their order, the directory-scan fallback, re-encoding and staging names,
 * and the choice of archive format, compressor and password.
 */
module AppDownloader {
  import opened Common
  import opened Values
  import opened Ordering
  import Decimal
  import opened AppModels

  /** The parameters the task body hands to `download_and_package`. */
  datatype DownloadParams = DownloadParams(
    albumIds: seq<string>,
    outputFormat: string,
    quality: Option<int>,
    encrypt: bool,
    password: Option<string>,
    compression: int,
    proxy: Option<string>,
    optionFile: Option<Path>)

  datatype DownloadResult = DownloadResult(
    albumIds: seq<string>,
    artifactPath: Path,
    suffix: string,
    metadata: seq<AlbumMeta>)

  // ---- album metadata (CustomJmDownloader.before_album) ----

  /**
   * The attributes an album object may carry: `None` when the attribute is missing,
   * `Some(v)` when it is present (possibly with the value None). `chapters` is the
   * number of chapters iterating the album yields, `None` when iterating raises.
   */
  datatype AlbumAttrs = AlbumAttrs(
    albumId: Option<Value>,
    id: Option<Value>,
    name: Option<Value>,
    title: Option<Value>,
    author: Option<Value>,
    authors: Option<Value>,
    tags: Option<Value>,
    chapters: Option<nat>)

  /** `getattr(obj, name, default)`. */
  function Attr(a: Option<Value>, default: Value): Value {
    match a
    case Some(v) => v
    case None => default
  }

  /** `v if isinstance(v, list) else [v]`. */
  function AsList(v: Value): (r: seq<Value>)
    ensures v.VList? ==> r == v.items
    ensures !v.VList? ==> r == [v]
  {
    if v.VList? then v.items else [v]
  }

  /**
   * `list(tags)` for tags that are neither None nor a str: a list's own items, or a dict's
   * keys; `None` stands for the TypeError any other value raises. A dict's keys are listed in
   * ascending order, since the model's dict keeps no insertion order.
   */
  function ListOf(v: Value): (r: Option<seq<Value>>)
    ensures r.Some? <==> v.VList? || v.VDict?
    ensures v.VList? ==> r == Some(v.items)
    ensures v.VDict? ==> r.Some? && |r.value| == |v.entries|
                         && forall k :: VStr(k) in r.value <==> k in v.entries
    ensures v.VDict? ==> forall e :: e in r.value ==> e.VStr?
  {
    match v
    case VList(items) => Some(items)
    case VDict(entries) =>
      var keys := SortedKeys(entries.Keys);
      var listed := seq(|keys|, i requires 0 <= i < |keys| => VStr(keys[i]));
      assert forall k :: VStr(k) in listed <==> k in keys by {
        forall k ensures VStr(k) in listed <==> k in keys {
          if k in keys {
            var i :| 0 <= i < |keys| && keys[i] == k;
            assert listed[i] == VStr(k);
          }
        }
      }
      Some(listed)
    case _ => None
  }

  /**
   * The metadata `before_album` reports, or `None` when building it raises (tags that are
   * a bool or an int, which `list` rejects) and the callback is not called.
   */
  function AlbumMetaOf(a: AlbumAttrs): (r: Option<AlbumMeta>)
    ensures r.None? <==> Attr(a.tags, VNone).VBool? || Attr(a.tags, VNone).VInt?
    ensures r.Some? ==> r.value.albumId == Attr(a.albumId, Attr(a.id, VNone))
    ensures r.Some? ==> r.value.title == Attr(a.name, Attr(a.title, VNone))
    ensures r.Some? ==> r.value.chapterCount == a.chapters
    ensures r.Some? ==> (r.value.authors.None? <==> Or(Attr(a.author, VNone), Attr(a.authors, VNone)) == VNone)
    ensures r.Some? && r.value.authors.Some? ==>
              var v := Or(Attr(a.author, VNone), Attr(a.authors, VNone));
              r.value.authors.value == (if v.VList? then v.items else [v])
    ensures r.Some? ==> (r.value.tags.None? <==> Attr(a.tags, VNone) == VNone)
    ensures r.Some? && Attr(a.tags, VNone).VStr? ==> r.value.tags == Some([Attr(a.tags, VNone)])
    ensures r.Some? && Attr(a.tags, VNone).VList? ==> r.value.tags == Some(Attr(a.tags, VNone).items)
    ensures r.Some? && Attr(a.tags, VNone).VDict? ==>
              r.value.tags.Some? && |r.value.tags.value| == |Attr(a.tags, VNone).entries|
              && forall k :: VStr(k) in r.value.tags.value <==> k in Attr(a.tags, VNone).entries
  {
    var authors := Or(Attr(a.author, VNone), Attr(a.authors, VNone));
    var tags := Attr(a.tags, VNone);
    if tags.VBool? || tags.VInt? then None
    else
      Some(AlbumMeta(
        Attr(a.albumId, Attr(a.id, VNone)),
        Attr(a.name, Attr(a.title, VNone)),
        if authors == VNone then None else Some(AsList(authors)),
        if tags == VNone then None else if tags.VStr? then Some([tags]) else ListOf(tags),
        a.chapters))
  }

  /** Recorded authors are always a list, and a lone author is its only element. */
  lemma AuthorsAlwaysList(a: AlbumAttrs, author: string)
    requires Attr(a.tags, VNone) == VNone
    requires a.author == Some(VStr(author)) && author != ""
    ensures AlbumMetaOf(a).Some? && AlbumMetaOf(a).value.authors == Some([VStr(author)])
  {
  }

  // ---- the per-album lock registry (Downloader._get_album_lock) ----

  class Lock {
    constructor ()
    {
    }
  }

  /** The class-level `_album_locks` dict, shared by every downloader of the process. */
  class AlbumLocks {
    var locks: map<string, Lock>

    constructor ()
      ensures locks == map[]
    {
      locks := map[];
    }

    /** Get-or-create: the same lock object for an album every time; created once, never removed. */
    method GetAlbumLock(albumId: string) returns (lock: Lock)
      modifies this
      ensures albumId in old(locks) ==> lock == old(locks)[albumId] && locks == old(locks)
      ensures albumId !in old(locks) ==> fresh(lock) && locks == old(locks)[albumId := lock]
      ensures albumId in locks && locks[albumId] == lock
    {
      if albumId in locks {
        lock := locks[albumId];
      } else {
        lock := new Lock();
        locks := locks[albumId := lock];
      }
    }
  }

  /** Two lookups of one album, with any other lookups in between, yield one lock object. */
  method LockIsShared(reg: AlbumLocks, albumId: string, other: string) returns (first: Lock, second: Lock)
    modifies reg
    ensures first == second
    ensures old(reg.locks).Keys <= reg.locks.Keys
    ensures forall a :: a in old(reg.locks) ==> reg.locks[a] == old(reg.locks)[a]
  {
    first := reg.GetAlbumLock(albumId);
    var _ := reg.GetAlbumLock(other);
    second := reg.GetAlbumLock(albumId);
  }

  /** `0.05 + 0.4 * idx / max(1, n)`: the progress reported before fetching album `idx` (1-based) of n. */
  function DownloadProgress(idx: nat, n: nat): (r: real)
    ensures r >= 0.05
    ensures r == 0.05 <==> idx == 0
  {
    0.05 + 0.4 * idx as real / (if n > 1 then n else 1) as real
  }

  lemma {:induction false} DownloadProgressBounds(idx: nat, n: nat)
    requires 1 <= idx <= n
    ensures 0.05 < DownloadProgress(idx, n) <= 0.45
  {
    var q := idx as real / n as real;
    assert q * n as real == idx as real;
    assert 0.0 < q <= 1.0;
  }

  /**
   * The download loop of `download_and_package`: each album is fetched under its lock,
   * and before each the progress of `DownloadProgress` is reported.
   */
  method DownloadAlbums(reg: AlbumLocks, albumIds: seq<string>) returns (reports: seq<real>)
    modifies reg
    ensures |reports| == |albumIds|
    ensures forall i :: 0 <= i < |reports| ==> reports[i] == DownloadProgress(i + 1, |albumIds|)
    ensures forall i :: 0 <= i < |reports| ==> 0.05 < reports[i] <= 0.45
    ensures forall i :: 0 <= i < |albumIds| ==> albumIds[i] in reg.locks
    ensures old(reg.locks).Keys <= reg.locks.Keys
    ensures forall a :: a in old(reg.locks) ==> reg.locks[a] == old(reg.locks)[a]
  {
    reports := [];
    var i := 0;
    while i < |albumIds|
      invariant 0 <= i <= |albumIds|
      invariant |reports| == i
      invariant forall k :: 0 <= k < i ==> reports[k] == DownloadProgress(k + 1, |albumIds|)
      invariant forall k :: 0 <= k < i ==> 0.05 < reports[k] <= 0.45
      invariant forall k :: 0 <= k < i ==> albumIds[k] in reg.locks
      invariant old(reg.locks).Keys <= reg.locks.Keys
      invariant forall a :: a in old(reg.locks) ==> reg.locks[a] == old(reg.locks)[a]
    {
      DownloadProgressBounds(i + 1, |albumIds|);
      reports := reports + [DownloadProgress(i + 1, |albumIds|)];
      var _ := reg.GetAlbumLock(albumIds[i]);
      i := i + 1;
    }
  }

  // ---- images recorded from download events (on_image_event) ----

  /** An album id as an image object carries it: missing/None, an int or a str. */
  datatype IdValue = NoId | IntVal(i: int) | StrVal(s: string)

  /** `str(v or "")`: the empty string for a falsy id. */
  function IdText(v: IdValue): (r: string)
    ensures r == "" <==> v == NoId || v == IntVal(0) || v == StrVal("")
  {
    match v
    case NoId => ""
    case IntVal(i) => if i == 0 then "" else Decimal.IntToDecimal(i)
    case StrVal(s) => s
  }

  /** The `info` dict of an image event. `path` is always present, `filename` is its name. */
  datatype ImageInfo = ImageInfo(albumId: IdValue, imageId: Option<Value>, page: Option<int>, path: Path, filename: Option<string>)

  /** One recorded image: its path, its page number if any, and its file name if any. */
  datatype ImageItem = ImageItem(path: Path, page: Option<int>, filename: Option<string>)

  /** `images_by_album`: album id to the images recorded for it, in event order. */
  class ImageCollector {
    var byAlbum: map<string, seq<ImageItem>>

    constructor ()
      ensures byAlbum == map[]
    {
      byAlbum := map[];
    }

    /**
     * `on_image_event`: only "after" events with a truthy album id are recorded; the
     * result says whether a progress report follows (an album id and an image id).
     */
    method OnImageEvent(stage: string, info: ImageInfo) returns (reportsProgress: bool)
      modifies this
      ensures IdText(info.albumId) == "" ==> byAlbum == old(byAlbum) && !reportsProgress
      ensures IdText(info.albumId) != "" && stage == "after" ==>
                var aid := IdText(info.albumId);
                byAlbum == old(byAlbum)[aid := (if aid in old(byAlbum) then old(byAlbum)[aid] else [])
                                              + [ImageItem(info.path, info.page, info.filename)]]
      ensures stage != "after" ==> byAlbum == old(byAlbum)
      ensures reportsProgress <==> IdText(info.albumId) != "" && info.imageId.Some? && info.imageId.value != VNone
    {
      var aid := IdText(info.albumId);
      if aid == "" {
        return false;
      }
      if stage == "after" {
        var lst := if aid in byAlbum then byAlbum[aid] else [];
        byAlbum := byAlbum[aid := lst + [ImageItem(info.path, info.page, info.filename)]];
      }
      reportsProgress := info.imageId.Some? && info.imageId.value != VNone;
    }

    /**
     * The selection loop of `download_and_package`: every album's list is sorted in place
     * and its paths appended, albums in `albumIds` order.
     */
    method SelectImages(albumIds: seq<string>) returns (selected: seq<Path>)
      modifies this
      ensures selected == SelectedPaths(albumIds, old(byAlbum))
      ensures byAlbum == SortedAlbums(albumIds, old(byAlbum))
    {
      selected := [];
      var i := 0;
      while i < |albumIds|
        invariant 0 <= i <= |albumIds|
        invariant selected == SelectedPaths(albumIds[..i], old(byAlbum))
        invariant byAlbum == SortedAlbums(albumIds[..i], old(byAlbum))
      {
        var aid := albumIds[i];
        var items := AlbumItems(byAlbum, aid);
        var sorted := Sort(items, ItemLe);
        SelectStep(albumIds, i, old(byAlbum));
        if aid in byAlbum {
          byAlbum := byAlbum[aid := sorted];
        }
        selected := selected + Paths(sorted);
        i := i + 1;
      }
      assert albumIds[..i] == albumIds;
    }
  }

  /** `images_by_album.get(aid, [])`. */
  function AlbumItems(m: map<string, seq<ImageItem>>, aid: string): seq<ImageItem> {
    if aid in m then m[aid] else []
  }

  /** The name ties are broken by: `str(filename or path)`. */
  function SortName(it: ImageItem): string {
    OrElse(it.filename, it.path)
  }

  /** The sort key `(page is None, page or 0, str(filename or path))`. */
  function ItemKey(it: ImageItem): (bool, int, string) {
    (it.page.None?, it.page.GetOr(0), SortName(it))
  }

  /** Python's `<` on the key tuples: False before True, then by number, then by string. */
  predicate KeyLess(a: (bool, int, string), b: (bool, int, string)) {
    (!a.0 && b.0) || (a.0 == b.0 && (a.1 < b.1 || (a.1 == b.1 && StrLess(a.2, b.2))))
  }

  lemma KeyLessIsStrictTotal()
    ensures StrictTotalOrder(KeyLess)
  {
    StrLessIsStrictTotal();
  }

  /** `not key(b) < key(a)`: the comparison `list.sort(key=...)` relies on. */
  predicate ItemLe(a: ImageItem, b: ImageItem) {
    !KeyLess(ItemKey(b), ItemKey(a))
  }

  lemma ItemLeTotal()
    ensures TotalPreorder(ItemLe)
  {
    KeyLessIsStrictTotal();
    KeyedPreorder(ItemKey, KeyLess, ItemLe);
  }

  function Paths(items: seq<ImageItem>): (r: seq<Path>)
    ensures |r| == |items|
    ensures forall i :: 0 <= i < |items| ==> r[i] == items[i].path
  {
    if items == [] then [] else Paths(items[..|items| - 1]) + [items[|items| - 1].path]
  }

  /** The selected paths: each listed album's images in key order, albums in list order. */
  function SelectedPaths(albumIds: seq<string>, m: map<string, seq<ImageItem>>): seq<Path> {
    if albumIds == [] then []
    else
      var aid := albumIds[|albumIds| - 1];
      SelectedPaths(albumIds[..|albumIds| - 1], m) + Paths(Sort(AlbumItems(m, aid), ItemLe))
  }

  /** Every selected path was recorded for one of the requested albums. */
  lemma {:induction false} SelectedFromRequested(albumIds: seq<string>, m: map<string, seq<ImageItem>>)
    ensures forall p :: p in SelectedPaths(albumIds, m) ==> exists aid :: aid in albumIds && p in Paths(AlbumItems(m, aid))
  {
    if albumIds != [] {
      var pre := albumIds[..|albumIds| - 1];
      var aid := albumIds[|albumIds| - 1];
      SelectedFromRequested(pre, m);
      PathsPermuted(Sort(AlbumItems(m, aid), ItemLe), AlbumItems(m, aid));
      forall p | p in SelectedPaths(albumIds, m)
        ensures exists a :: a in albumIds && p in Paths(AlbumItems(m, a))
      {
        if p in SelectedPaths(pre, m) {
          var a :| a in pre && p in Paths(AlbumItems(m, a));
          assert a in albumIds;
        } else {
          assert p in Paths(AlbumItems(m, aid));
        }
      }
    }
  }

  /** Rearranging the items rearranges their paths: no path is gained. */
  lemma PathsPermuted(a: seq<ImageItem>, b: seq<ImageItem>)
    requires multiset(a) == multiset(b)
    ensures forall p :: p in Paths(a) ==> p in Paths(b)
  {
    forall p | p in Paths(a) ensures p in Paths(b) {
      var i :| 0 <= i < |a| && Paths(a)[i] == p;
      assert a[i] in multiset(b);
      var j :| 0 <= j < |b| && b[j] == a[i];
      assert Paths(b)[j] == p;
    }
  }

  /** The recorded lists after the in-place sorts of the selection loop, album by album. */
  function SortedAlbums(albumIds: seq<string>, m: map<string, seq<ImageItem>>): (r: map<string, seq<ImageItem>>)
    ensures r.Keys == m.Keys
  {
    if albumIds == [] then m
    else
      var before := SortedAlbums(albumIds[..|albumIds| - 1], m);
      var aid := albumIds[|albumIds| - 1];
      if aid in before then before[aid := Sort(before[aid], ItemLe)] else before
  }

  /** After the in-place sorts, a listed album's list is its sorted list and any other is untouched. */
  lemma {:induction false} SortedAlbumsAt(albumIds: seq<string>, m: map<string, seq<ImageItem>>, aid: string)
    ensures AlbumItems(SortedAlbums(albumIds, m), aid)
         == if aid in albumIds then Sort(AlbumItems(m, aid), ItemLe) else AlbumItems(m, aid)
  {
    if albumIds != [] {
      var prefix := albumIds[..|albumIds| - 1];
      SortedAlbumsAt(prefix, m, aid);
      assert albumIds == prefix + [albumIds[|albumIds| - 1]];
      if aid == albumIds[|albumIds| - 1] && aid in prefix && aid in m {
        ItemLeTotal();
        SortIdempotent(m[aid], ItemLe);
      }
    }
  }

  /** One turn of the selection loop, in terms of the specification. */
  lemma SelectStep(albumIds: seq<string>, i: nat, m: map<string, seq<ImageItem>>)
    requires i < |albumIds|
    ensures var b := SortedAlbums(albumIds[..i], m);
            var aid := albumIds[i];
            && SelectedPaths(albumIds[..i + 1], m) == SelectedPaths(albumIds[..i], m) + Paths(Sort(AlbumItems(b, aid), ItemLe))
            && SortedAlbums(albumIds[..i + 1], m) == (if aid in b then b[aid := Sort(b[aid], ItemLe)] else b)
  {
    assert albumIds[..i + 1][..i] == albumIds[..i];
    SortAgain(albumIds[..i], m, albumIds[i]);
  }

  /** Sorting an album's list again, after earlier in-place sorts, gives what one sort gives. */
  lemma SortAgain(albumIds: seq<string>, m: map<string, seq<ImageItem>>, aid: string)
    ensures Sort(AlbumItems(SortedAlbums(albumIds, m), aid), ItemLe) == Sort(AlbumItems(m, aid), ItemLe)
  {
    SortedAlbumsAt(albumIds, m, aid);
    if aid in albumIds && aid in m {
      ItemLeTotal();
      SortIdempotent(m[aid], ItemLe);
    }
  }

  /**
   * Within an album's selection, numbered pages come first in ascending order, pages
   * without a number come last, ties go by name, and nothing is added or lost.
   */
  lemma {:induction false} SortedItemsOrder(items: seq<ImageItem>)
    ensures multiset(Sort(items, ItemLe)) == multiset(items)
    ensures var s := Sort(items, ItemLe);
            forall i, j :: 0 <= i < j < |s| ==>
              && (s[j].page.Some? ==> s[i].page.Some?)
              && (s[i].page.Some? && s[j].page.Some? ==> s[i].page.value <= s[j].page.value)
              && (s[i].page == s[j].page ==> StrLe(SortName(s[i]), SortName(s[j])))
  {
    ItemLeTotal();
    SortSorted(items, ItemLe);
    var s := Sort(items, ItemLe);
    forall i, j | 0 <= i < j < |s|
      ensures && (s[j].page.Some? ==> s[i].page.Some?)
              && (s[i].page.Some? && s[j].page.Some? ==> s[i].page.value <= s[j].page.value)
              && (s[i].page == s[j].page ==> StrLe(SortName(s[i]), SortName(s[j])))
    {
      assert ItemLe(s[i], s[j]);
    }
  }

  /** Every recorded image of every listed album is selected: a path is never falsy. */
  lemma {:induction false} SelectedCount(albumIds: seq<string>, m: map<string, seq<ImageItem>>)
    ensures |SelectedPaths(albumIds, m)| == TotalItems(albumIds, m)
  {
    if albumIds != [] {
      SelectedCount(albumIds[..|albumIds| - 1], m);
    }
  }

  function TotalItems(albumIds: seq<string>, m: map<string, seq<ImageItem>>): nat {
    if albumIds == [] then 0
    else TotalItems(albumIds[..|albumIds| - 1], m) + |AlbumItems(m, albumIds[|albumIds| - 1])|
  }
}
