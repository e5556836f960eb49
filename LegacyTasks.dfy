/**
 * The single-album engine's task manager (TaskManager in src/main.py): the per-album state
 * machine that decides what a submitted task does, the download callbacks that count an
 * album's images, the packaging step that builds or reuses an artifact, and the guard of
 * the download link. Threads become explicit calls: `submit` records the job it would
 * start, and the packaging body is a method of its own.
 */
module LegacyTasks {
  import opened Common
  import opened Ordering
  import opened Values
  import opened LegacyNaming
  import opened LegacyDisk
  import AppScan

  // ---- records ----

  /** The `status` (and `stage`) strings a task goes through. */
  datatype Phase = Queued | Downloading | Processing | Packaging | Done | Failed

  /** `TaskStatus`: what `GET /tasks/{id}` shows. */
  datatype LegacyStatus = LegacyStatus(
    taskId: string,
    albumId: string,
    status: Phase,
    stage: Phase,
    progress: int,
    totalImages: Option<int>,
    duplicate: bool,
    metadata: map<string, Value>,
    downloadUrl: Option<string>,
    artifactFilename: Option<string>,
    error: Option<string>,
    password: Option<string>)

  /**
   * The `status` of an album's shared download. "processing" is tested by `submit` but
   * never assigned by any code path.
   */
  datatype AlbumStatus = Idle | AlbumDownloading | AlbumProcessing | AlbumDone | AlbumFailed

  /** An entry of `album_state` (its workspace is always `work_dir/<album id>`). */
  datatype AlbumState = AlbumState(
    status: AlbumStatus,
    metadata: map<string, Value>,
    progress: int,
    totalImages: Option<int>,
    error: Option<string>)

  /** An album's workspace: the files a walk of it yields, and its meta.json. */
  datatype Workspace = Workspace(walk: seq<Path>, meta: JsonFile)

  /** A thread `submit` starts, with the task it works for. */
  datatype Job =
    | PackageJob(taskId: string, req: LegacyRequest, cacheHash: string)
    | AwaitJob(taskId: string, req: LegacyRequest, cacheHash: string)
    | DownloadJob(taskId: string, req: LegacyRequest, cacheHash: string)

  function OptIntValue(x: Option<int>): Value {
    if x.Some? then VInt(x.value) else VNone
  }

  function OptStrValue(x: Option<string>): Value {
    if x.Some? then VStr(x.value) else VNone
  }

  /** The parameters `submit` copies into a new task's metadata. */
  function RequestMetadata(req: LegacyRequest, cacheHash: string): (m: map<string, Value>)
    ensures m.Keys == {"cache_hash", "output_format", "quality", "encrypt", "compression", "proxy"}
    ensures m["cache_hash"] == VStr(cacheHash) && m["encrypt"] == VBool(req.encrypt)
  {
    map["cache_hash" := VStr(cacheHash), "output_format" := VStr(req.outputFormat),
        "quality" := OptIntValue(req.quality), "encrypt" := VBool(req.encrypt),
        "compression" := VInt(req.compression), "proxy" := OptStrValue(req.proxy)]
  }

  /** The record `submit` registers before deciding anything. */
  function QueuedStatus(taskId: string, req: LegacyRequest, cacheHash: string): LegacyStatus {
    LegacyStatus(taskId, req.albumId, Queued, Queued, 0, None, false, RequestMetadata(req, cacheHash),
                 None, None, None, None)
  }

  /** The URL under the static route that serves an album's artifact. */
  function ArtifactUrl(staticRoute: string, albumId: string, filename: string): (url: string)
    ensures url != "" && StartsWith(url, staticRoute + "/")
  {
    PrefixStarts(staticRoute + "/", albumId + "/" + filename);
    assert staticRoute + "/" + albumId + "/" + filename == (staticRoute + "/") + (albumId + "/" + filename);
    staticRoute + "/" + albumId + "/" + filename
  }

  /** A task whose download link can be served: both the URL and the file name are non-empty. */
  predicate DownloadReady(st: LegacyStatus) {
    Truthy(st.downloadUrl) && Truthy(st.artifactFilename)
  }

  /** Every task is filed under its own id, and every finished task can be downloaded. */
  predicate TasksWellFormed(tasks: map<string, LegacyStatus>) {
    forall t :: t in tasks ==> tasks[t].taskId == t && (tasks[t].status == Done ==> DownloadReady(tasks[t]))
  }

  // ---- the submit decision (TaskManager.submit) ----

  /** What `submit` does with a task, in the order it tests the cases. */
  datatype Decision =
    | ReturnArtifact(filename: string)
    | PackageComplete(meta: map<string, Value>)
    | AwaitDownload
    | PackageDownloaded
    | StartDownload

  /**
   * The branch `submit` takes: an artifact for these parameters, then a complete download
   * on disk, then the album's shared download state.
   */
  function Decide(existing: Option<string>, completeness: Completeness, album: Option<AlbumState>): (d: Decision)
    ensures d.ReturnArtifact? <==> existing.Some? && existing.value != ""
    ensures d.ReturnArtifact? ==> d.filename == existing.value
    ensures d.PackageComplete? ==> completeness.complete && d.meta == completeness.meta
    ensures d.StartDownload? ==>
              !completeness.complete && (album.None? || album.value.status !in {AlbumDownloading, AlbumProcessing, AlbumDone})
  {
    if existing.Some? && existing.value != "" then ReturnArtifact(existing.value)
    else if completeness.complete then PackageComplete(completeness.meta)
    else if album.Some? && album.value.status in {AlbumDownloading, AlbumProcessing} then AwaitDownload
    else if album.Some? && album.value.status == AlbumDone then PackageDownloaded
    else StartDownload
  }

  /** The task's answer for a decision: status and stage alike, and whether it reuses earlier work. */
  function Answer(st: LegacyStatus, d: Decision, staticRoute: string): (r: LegacyStatus)
    ensures r.status == r.stage
    ensures r.status == Done <==> d.ReturnArtifact?
    ensures r.(status := st.status, stage := st.stage, artifactFilename := st.artifactFilename,
               downloadUrl := st.downloadUrl, duplicate := st.duplicate) == st
  {
    match d
    case ReturnArtifact(fn) =>
      st.(status := Done, stage := Done, artifactFilename := Some(fn),
          downloadUrl := Some(ArtifactUrl(staticRoute, st.albumId, fn)), duplicate := true)
    case PackageComplete(_) => st.(status := Packaging, stage := Packaging, duplicate := true)
    case AwaitDownload => st.(status := Processing, stage := Processing, duplicate := true)
    case PackageDownloaded => st.(status := Packaging, stage := Packaging)
    case StartDownload => st.(status := Downloading, stage := Downloading)
  }

  const IdleAlbum := AlbumState(Idle, map[], 0, None, None)

  /** `len(meta.get("images", []))`, which raises on a value without a length. */
  function ImageCount(meta: map<string, Value>): Option<nat> {
    Len(Get(meta, "images", VList([])))
  }

  /**
   * The album's state after the decision (`setdefault` inserts one in every branch but
   * the first). A complete download on disk marks the album done with the meta read from
   * disk; counting that meta's images comes last and may raise, after the rest is stored.
   */
  function AlbumAfter(d: Decision, album: Option<AlbumState>): (r: Option<AlbumState>)
    ensures d.ReturnArtifact? ==> r == album
    ensures !d.ReturnArtifact? ==> r.Some?
    ensures d.StartDownload? ==> r.value.status == AlbumDownloading
    ensures d.PackageComplete? ==> r.value.status == AlbumDone && r.value.metadata == d.meta
  {
    match d
    case ReturnArtifact(_) => album
    case PackageComplete(meta) =>
      var st := album.GetOr(AlbumState(AlbumDone, map[], 0, None, None));
      var n := ImageCount(meta);
      Some(st.(status := AlbumDone, metadata := meta, totalImages := if n.Some? then Some(n.value as int) else st.totalImages))
    case StartDownload => Some(album.GetOr(IdleAlbum).(status := AlbumDownloading))
    case _ => Some(album.GetOr(IdleAlbum))
  }

  /** Whether `submit` returns normally: only counting a complete download's images can raise. */
  predicate SubmitReturns(d: Decision) {
    d.PackageComplete? ==> ImageCount(d.meta).Some?
  }

  /** The thread `submit` starts for a decision, if any. */
  function JobFor(d: Decision, taskId: string, req: LegacyRequest, cacheHash: string): (j: Option<Job>)
    ensures j.None? <==> d.ReturnArtifact? || !SubmitReturns(d)
    ensures j.Some? ==> j.value.taskId == taskId && j.value.req == req && j.value.cacheHash == cacheHash
    ensures j.Some? && j.value.DownloadJob? <==> d.StartDownload?
  {
    match d
    case ReturnArtifact(_) => None
    case PackageComplete(_) => if SubmitReturns(d) then Some(PackageJob(taskId, req, cacheHash)) else None
    case AwaitDownload => Some(AwaitJob(taskId, req, cacheHash))
    case PackageDownloaded => Some(PackageJob(taskId, req, cacheHash))
    case StartDownload => Some(DownloadJob(taskId, req, cacheHash))
  }

  /**
   * A task is marked duplicate exactly when it reuses earlier work: an existing artifact,
   * a complete download on disk, or a download already running. Joining an album that
   * finished downloading in this process is not marked.
   */
  lemma DuplicateIffReused(st: LegacyStatus, d: Decision, staticRoute: string)
    requires !st.duplicate
    ensures Answer(st, d, staticRoute).duplicate <==> (d.ReturnArtifact? || d.PackageComplete? || d.AwaitDownload?)
    ensures Answer(st, d, staticRoute).status == Answer(st, d, staticRoute).stage
  {
  }

  /**
   * While an album downloads, a second task for it (with no artifact and nothing complete
   * on disk) joins the running download instead of starting another; once the album is
   * done it is packaged, and after a failure the download starts again.
   */
  lemma SecondSubmitJoins(c: Completeness, album: Option<AlbumState>)
    requires !c.complete
    ensures var started := AlbumAfter(StartDownload, album);
            Decide(None, c, started) == AwaitDownload
    ensures album.Some? && album.value.status == AlbumDone ==> Decide(None, c, album) == PackageDownloaded
    ensures album.Some? && album.value.status == AlbumFailed ==> Decide(None, c, album) == StartDownload
    ensures album.None? || album.value.status == Idle ==> Decide(None, c, album) == StartDownload
  {
  }

  /**
   * An existing artifact wins over everything else and is answered at once, done and
   * downloadable, leaving the album's state untouched; nothing else answers done.
   */
  lemma ArtifactAnsweredAtOnce(st: LegacyStatus, existing: Option<string>, c: Completeness,
                               album: Option<AlbumState>, staticRoute: string, req: LegacyRequest, cacheHash: string)
    ensures var d := Decide(existing, c, album);
            && (Answer(st, d, staticRoute).status == Done <==> existing.Some? && existing.value != "")
            && (d.ReturnArtifact? ==> DownloadReady(Answer(st, d, staticRoute)) && AlbumAfter(d, album) == album
                                      && JobFor(d, st.taskId, req, cacheHash).None?)
  {
  }

  // ---- album counters (on_before_image, on_after_album) ----

  /**
   * `on_before_image` on a known album: one more image seen; its URL, when it has one,
   * appended to the metadata's image list (created empty when missing; a value that is
   * not a list is left alone).
   */
  function ImageSeen(st: AlbumState, url: Value): (r: AlbumState)
    ensures r.progress == st.progress + 1
    ensures r.status == st.status && r.totalImages == st.totalImages && r.error == st.error
    ensures "images" in r.metadata
    ensures forall k :: k in st.metadata && k != "images" ==> k in r.metadata && r.metadata[k] == st.metadata[k]
    ensures r.metadata.Keys == st.metadata.Keys + {"images"}
    ensures var before := Get(st.metadata, "images", VList([]));
            r.metadata["images"] == if before.VList? && IsTruthy(url) then VList(before.items + [url]) else before
  {
    var images := Get(st.metadata, "images", VList([]));
    var appended := if images.VList? && IsTruthy(url) then VList(images.items + [url]) else images;
    st.(progress := st.progress + 1, metadata := st.metadata["images" := appended])
  }

  /** The image list an album's metadata records, or none when it is not a list. */
  function RecordedImages(meta: map<string, Value>): seq<Value> {
    var v := Get(meta, "images", VNone);
    if v.VList? then v.items else []
  }

  /**
   * The metadata `on_after_album` writes: `page_count` is the existing value if truthy,
   * else the image count on disk if non-zero, else the number of recorded images; the
   * disk count is stored as `total_images`, and `complete` is set.
   */
  function FinishedMeta(meta: map<string, Value>, onDisk: nat): (m: map<string, Value>)
    ensures m.Keys == meta.Keys + {"page_count", "total_images", "complete"}
    ensures m["total_images"] == VInt(onDisk) && m["complete"] == VBool(true)
    ensures forall k :: k in meta && k !in {"page_count", "total_images", "complete"} ==> m[k] == meta[k]
    ensures var pc := Get(meta, "page_count", VNone);
            && (IsTruthy(pc) ==> m["page_count"] == pc)
            && (!IsTruthy(pc) && onDisk != 0 ==> m["page_count"] == VInt(onDisk))
            && (!IsTruthy(pc) && onDisk == 0 ==> m["page_count"] == VInt(|RecordedImages(meta)|))
  {
    var pageCount := Or(Get(meta, "page_count", VNone), Or(VInt(onDisk), VInt(|RecordedImages(meta)|)));
    meta["page_count" := pageCount]["total_images" := VInt(onDisk)]["complete" := VBool(true)]
  }

  /**
   * What `on_after_album` writes makes the album complete on disk exactly when there is an
   * image on disk and no earlier positive page count exceeds it.
   */
  lemma FinishedMetaCompletes(meta: map<string, Value>, onDisk: nat)
    ensures var pc := Get(meta, "page_count", VNone);
            IsAlbumComplete(onDisk, JsonDoc(VDict(FinishedMeta(meta, onDisk)))).complete
            <==> onDisk > 0 && !(IsTruthy(pc) && IsInt(pc) && IntOf(pc) > 0 && onDisk < IntOf(pc))
  {
    var m := FinishedMeta(meta, onDisk);
    assert IsTruthy(Get(m, "complete", VNone));
  }

  // ---- packaging (TaskManager._build_artifact, _package_task) ----

  /** The password `_build_artifact` uses: the request's, or a generated one when encrypting without one. */
  function FinalPassword(req: LegacyRequest, policy: map<string, Value>, draws: Draws): (pw: Option<string>)
    ensures !(req.encrypt && !Truthy(req.password)) ==> pw == req.password
    ensures req.encrypt && !Truthy(req.password) ==>
              pw.Some? && |pw.value| == (if PasswordPolicy(policy).0 > 0 then PasswordPolicy(policy).0 else 0)
  {
    if req.encrypt && !Truthy(req.password) then Some(GeneratePassword(policy, draws)) else req.password
  }

  /** The artifact `_make_zip` / `_make_pdf` produce; the password reaches them only when encrypting. */
  function ArchiveFor(images: seq<Path>, req: LegacyRequest, password: Option<string>): (a: Archive)
    ensures a.ZipArchive? <==> req.outputFormat == "zip"
    ensures a.password.Some? <==> req.encrypt && Truthy(password)
    ensures a.ZipArchive? ==> |a.entries| == |images| && forall i :: 0 <= i < |images| ==> a.entries[i] == (Basename(images[i]), images[i])
    ensures a.PdfDocument? ==> a.pages == seq(|images|, i requires 0 <= i < |images| => PdfPage(images[i], req.quality))
  {
    var pw := if req.encrypt then password else None;
    if req.outputFormat == "zip" then MakeZip(images, req.compression, pw) else MakePdf(images, req.quality, pw)
  }

  /**
   * Corrected: the artifact built from the workspace's images in path order, with
   * numbered zip entries.
   */
  function CorrectedArchiveFor(walk: seq<Path>, req: LegacyRequest, password: Option<string>): (a: Archive)
    ensures a.ZipArchive? <==> req.outputFormat == "zip"
    ensures a.password.Some? <==> req.encrypt && Truthy(password)
  {
    var images := Sort(WalkImages(walk), AppScan.PathLe);
    var pw := if req.encrypt then password else None;
    if req.outputFormat == "zip" then CorrectedMakeZip(images, req.compression, pw) else MakePdf(images, req.quality, pw)
  }

  /**
   * Corrected: the build keeps chapters in order, page by page, whatever order the walk
   * yields them in, and its zip entries never share a name; as written, the build orders
   * by file name and names entries by it (see `ChaptersInterleaved`).
   */
  lemma CorrectedBuildOrdered(walk: seq<Path>, req: LegacyRequest, password: Option<string>)
    ensures var images := Sort(WalkImages(walk), AppScan.PathLe);
            var a := CorrectedArchiveFor(walk, req, password);
            && Sorted(images, AppScan.PathLe)
            && (a.ZipArchive? ==>
                  && |a.entries| == |images|
                  && (forall i :: 0 <= i < |images| ==> a.entries[i].1 == images[i])
                  && forall i, j :: 0 <= i < j < |a.entries| ==> a.entries[i].0 != a.entries[j].0)
            && (a.PdfDocument? && req.quality.None? ==> a.pages == images)
  {
    CollectedByPath(walk, walk);
  }

  /** `_cache_artifact`'s `.pwd` file: written only when encrypting with a non-empty password. */
  function RecordPassword(dir: ArtifactDir, cacheHash: string, req: LegacyRequest, password: Option<string>): (r: ArtifactDir)
    ensures r.archives == dir.archives && r.index == dir.index
    ensures req.encrypt && Truthy(password) ==> r.passwords == dir.passwords[cacheHash := password.value]
    ensures !(req.encrypt && Truthy(password)) ==> r.passwords == dir.passwords
  {
    if req.encrypt && Truthy(password) then dir.(passwords := dir.passwords[cacheHash := password.value]) else dir
  }

  /**
   * Encryption is gated by `encrypt`: the artifact carries a password, and a `.pwd` file
   * records that same password, exactly when `encrypt` is set and the final password is
   * non-empty; without `encrypt` the request's password is never used.
   */
  lemma EncryptionGate(images: seq<Path>, req: LegacyRequest, policy: map<string, Value>, draws: Draws,
                       dir: ArtifactDir, cacheHash: string)
    ensures var pw := FinalPassword(req, policy, draws);
            var a := ArchiveFor(images, req, pw);
            var d := RecordPassword(dir, cacheHash, req, pw);
            && (a.password.Some? <==> req.encrypt && Truthy(pw))
            && (a.password.Some? ==> a.password == pw && cacheHash in d.passwords && d.passwords[cacheHash] == pw.value)
            && (!req.encrypt ==> d == dir)
            && (req.encrypt && !Truthy(req.password) && PasswordPolicy(policy).0 > 0 ==> a.password.Some?)
  {
  }

  /** `download_link`: the task's URL, when it has one and a file name, and the name asked for is exactly that. */
  function DownloadLink(st: Option<LegacyStatus>, filename: string): (r: Result<string, string>)
    ensures r.Success? <==> st.Some? && DownloadReady(st.value) && filename == st.value.artifactFilename.value
    ensures r.Success? ==> r.value == st.value.downloadUrl.value
    ensures r.Failure? ==> r.error in {"artifact not found", "filename mismatch"}
  {
    if st.None? || !Truthy(st.value.downloadUrl) || !Truthy(st.value.artifactFilename) then Failure("artifact not found")
    else if filename != st.value.artifactFilename.value then Failure("filename mismatch")
    else Success(st.value.downloadUrl.value)
  }

  /** Every finished task's link is served for its own file name and for no other. */
  lemma DoneTasksDownloadable(tasks: map<string, LegacyStatus>, taskId: string, filename: string)
    requires TasksWellFormed(tasks) && taskId in tasks && tasks[taskId].status == Done
    ensures DownloadLink(Some(tasks[taskId]), filename).Success? <==> filename == tasks[taskId].artifactFilename.value
  {
  }

  /** The task after `_package_task` found or built `filename`. */
  function Packaged(ts: LegacyStatus, filename: string, url: string, album: Option<AlbumState>, onDisk: nat,
                    storedPassword: Option<string>): (r: LegacyStatus)
    ensures r.status == Done && r.stage == Done && r.artifactFilename == Some(filename) && r.downloadUrl == Some(url)
    ensures r.taskId == ts.taskId && r.duplicate == ts.duplicate && r.error == ts.error
    ensures album.None? ==> r.metadata == ts.metadata && r.totalImages == ts.totalImages
    ensures album.Some? ==> r.metadata == ts.metadata + album.value.metadata
    ensures album.Some? && album.value.totalImages.Some? && album.value.totalImages.value != 0 ==> r.totalImages == album.value.totalImages
    ensures album.Some? && !(album.value.totalImages.Some? && album.value.totalImages.value != 0) ==> r.totalImages == Some(onDisk as int)
    ensures r.password == if Truthy(storedPassword) then storedPassword else ts.password
  {
    var done := ts.(status := Done, stage := Done, artifactFilename := Some(filename), downloadUrl := Some(url));
    var withAlbum :=
      if album.None? then done
      else done.(metadata := done.metadata + album.value.metadata,
                 totalImages := if album.value.totalImages.Some? && album.value.totalImages.value != 0
                                then album.value.totalImages else Some(onDisk as int));
    if Truthy(storedPassword) then withAlbum.(password := storedPassword) else withAlbum
  }

  function AlbumOf(albums: map<string, AlbumState>, albumId: string): Option<AlbumState> {
    if albumId in albums then Some(albums[albumId]) else None
  }

  function WorkspaceOf(workspaces: map<string, Workspace>, albumId: string): Workspace {
    if albumId in workspaces then workspaces[albumId] else Workspace([], NoFile)
  }

  function DirOf(dirs: map<string, ArtifactDir>, albumId: string): Option<ArtifactDir> {
    if albumId in dirs then Some(dirs[albumId]) else None
  }

  /** `_get_cached_password`: the album's `<hash>.pwd`, if any. */
  function StoredPassword(dirs: map<string, ArtifactDir>, albumId: string, cacheHash: string): Option<string> {
    if albumId in dirs && cacheHash in dirs[albumId].passwords then Some(dirs[albumId].passwords[cacheHash]) else None
  }

  /** The number of images `_collect_images` finds in a workspace, in whatever order it sorts them. */
  function ImagesOnDisk(ws: Workspace): nat {
    |WalkImages(ws.walk)|
  }

  class LegacyTaskManager {
    const staticRoute: string
    const naming: NamingConfig
    const policy: map<string, Value>
    const sha1: Hasher
    const sha256: Hasher
    var tasks: map<string, LegacyStatus>
    var albumState: map<string, AlbumState>
    var artifactCache: map<string, map<string, string>>
    var artifactMap: map<string, string>
    var workspaces: map<string, Workspace>
    var artifactDirs: map<string, ArtifactDir>
    var scheduled: seq<Job>

    ghost predicate Valid()
      reads this
    {
      && TasksWellFormed(tasks)
      && (forall j :: j in scheduled ==> j.taskId in tasks)
    }

    constructor (staticRoute: string, naming: NamingConfig, policy: map<string, Value>, sha1: Hasher, sha256: Hasher,
                 artifactMap: map<string, string>, workspaces: map<string, Workspace>, artifactDirs: map<string, ArtifactDir>)
      ensures Valid()
      ensures this.staticRoute == staticRoute && this.naming == naming && this.policy == policy
      ensures this.sha1 == sha1 && this.sha256 == sha256
      ensures tasks == map[] && albumState == map[] && artifactCache == map[] && scheduled == []
      ensures this.artifactMap == artifactMap && this.workspaces == workspaces && this.artifactDirs == artifactDirs
    {
      this.staticRoute := staticRoute;
      this.naming := naming;
      this.policy := policy;
      this.sha1 := sha1;
      this.sha256 := sha256;
      tasks := map[];
      albumState := map[];
      artifactCache := map[];
      this.artifactMap := artifactMap;
      this.workspaces := workspaces;
      this.artifactDirs := artifactDirs;
      scheduled := [];
    }

    /** The branch `submit` takes for a request whose parameter hash is `cacheHash`. */
    function SubmitDecision(req: LegacyRequest, cacheHash: string): Decision
      reads this
    {
      var ws := WorkspaceOf(workspaces, req.albumId);
      Decide(GetArtifact(DirOf(artifactDirs, req.albumId), naming, req.albumId, cacheHash, req.outputFormat),
             IsAlbumComplete(ImagesOnDisk(ws), ws.meta),
             AlbumOf(albumState, req.albumId))
    }

    /**
     * `submit`: registers the task under the fresh id, creates the album's workspace, and
     * answers by the decision; the album's state and the started thread follow it. When
     * counting a complete download's images raises, the task stays queued and the error
     * is returned.
     */
    method Submit(req: LegacyRequest, taskId: string) returns (r: Result<LegacyStatus, string>)
      requires Valid() && taskId !in tasks
      modifies this`tasks, this`workspaces, this`albumState, this`scheduled
      ensures Valid()
      ensures var hash := HashParams(req, sha256);
              var d := old(SubmitDecision(req, hash));
              && (SubmitReturns(d) ==> r == Success(Answer(QueuedStatus(taskId, req, hash), d, staticRoute)))
              && (!SubmitReturns(d) ==> r.Failure?)
              && tasks == old(tasks)[taskId := if r.Success? then r.value else QueuedStatus(taskId, req, hash)]
      ensures var d := old(SubmitDecision(req, HashParams(req, sha256)));
              var after := AlbumAfter(d, AlbumOf(old(albumState), req.albumId));
              albumState == if after.Some? then old(albumState)[req.albumId := after.value] else old(albumState)
      ensures var hash := HashParams(req, sha256);
              var job := JobFor(old(SubmitDecision(req, hash)), taskId, req, hash);
              scheduled == old(scheduled) + (if job.Some? then [job.value] else [])
      ensures workspaces == old(workspaces)[req.albumId := WorkspaceOf(old(workspaces), req.albumId)]
      ensures artifactDirs == old(artifactDirs) && artifactCache == old(artifactCache) && artifactMap == old(artifactMap)
    {
      var hash := HashParams(req, sha256);
      r := SubmitHashed(req, taskId, hash);
    }

    /** `submit` once the parameter hash is known. */
    method SubmitHashed(req: LegacyRequest, taskId: string, hash: string) returns (r: Result<LegacyStatus, string>)
      requires Valid() && taskId !in tasks
      modifies this`tasks, this`workspaces, this`albumState, this`scheduled
      ensures Valid()
      ensures var d := old(SubmitDecision(req, hash));
              && (SubmitReturns(d) ==> r == Success(Answer(QueuedStatus(taskId, req, hash), d, staticRoute)))
              && (!SubmitReturns(d) ==> r.Failure?)
              && tasks == old(tasks)[taskId := if r.Success? then r.value else QueuedStatus(taskId, req, hash)]
      ensures var after := AlbumAfter(old(SubmitDecision(req, hash)), AlbumOf(old(albumState), req.albumId));
              albumState == if after.Some? then old(albumState)[req.albumId := after.value] else old(albumState)
      ensures var job := JobFor(old(SubmitDecision(req, hash)), taskId, req, hash);
              scheduled == old(scheduled) + (if job.Some? then [job.value] else [])
      ensures workspaces == old(workspaces)[req.albumId := WorkspaceOf(old(workspaces), req.albumId)]
      ensures artifactDirs == old(artifactDirs) && artifactCache == old(artifactCache) && artifactMap == old(artifactMap)
    {
      var d := SubmitDecision(req, hash);
      r := SubmitDecided(req, taskId, hash, d);
      assert d == old(SubmitDecision(req, hash));
    }

    /** `submit` once the branch it takes is known. */
    method SubmitDecided(req: LegacyRequest, taskId: string, hash: string, d: Decision) returns (r: Result<LegacyStatus, string>)
      requires Valid() && taskId !in tasks
      requires d.ReturnArtifact? ==> d.filename != ""
      modifies this`tasks, this`workspaces, this`albumState, this`scheduled
      ensures Valid()
      ensures && (SubmitReturns(d) ==> r == Success(Answer(QueuedStatus(taskId, req, hash), d, staticRoute)))
              && (!SubmitReturns(d) ==> r.Failure?)
              && tasks == old(tasks)[taskId := if r.Success? then r.value else QueuedStatus(taskId, req, hash)]
      ensures var after := AlbumAfter(d, AlbumOf(old(albumState), req.albumId));
              albumState == if after.Some? then old(albumState)[req.albumId := after.value] else old(albumState)
      ensures var job := JobFor(d, taskId, req, hash);
              scheduled == old(scheduled) + (if job.Some? then [job.value] else [])
      ensures workspaces == old(workspaces)[req.albumId := WorkspaceOf(old(workspaces), req.albumId)]
    {
      r := RegisterAnswer(req, taskId, hash, d);
      FollowDecision(req, taskId, hash, d);
    }

    /** The task's part of `submit`: the record, queued and then answered unless counting raises. */
    method RegisterAnswer(req: LegacyRequest, taskId: string, hash: string, d: Decision) returns (r: Result<LegacyStatus, string>)
      requires Valid() && taskId !in tasks
      requires d.ReturnArtifact? ==> d.filename != ""
      modifies this`tasks
      ensures Valid() && taskId in tasks
      ensures SubmitReturns(d) ==> r == Success(Answer(QueuedStatus(taskId, req, hash), d, staticRoute))
      ensures !SubmitReturns(d) ==> r == Failure(LenError(Get(d.meta, "images", VList([]))))
      ensures tasks == old(tasks)[taskId := if r.Success? then r.value else QueuedStatus(taskId, req, hash)]
    {
      var queued := QueuedStatus(taskId, req, hash);
      var answer := if SubmitReturns(d) then Answer(queued, d, staticRoute) else queued;
      DoneAnswerReady(queued, d, staticRoute);
      tasks := tasks[taskId := answer];
      r := if SubmitReturns(d) then Success(answer) else Failure(LenError(Get(d.meta, "images", VList([]))));
    }

    /** The album's part of `submit`: its workspace, its state, and the thread started for the task. */
    method FollowDecision(req: LegacyRequest, taskId: string, hash: string, d: Decision)
      requires Valid() && taskId in tasks
      modifies this`workspaces, this`albumState, this`scheduled
      ensures Valid()
      ensures var after := AlbumAfter(d, AlbumOf(old(albumState), req.albumId));
              albumState == if after.Some? then old(albumState)[req.albumId := after.value] else old(albumState)
      ensures var job := JobFor(d, taskId, req, hash);
              scheduled == old(scheduled) + (if job.Some? then [job.value] else [])
      ensures workspaces == old(workspaces)[req.albumId := WorkspaceOf(old(workspaces), req.albumId)]
    {
      var after := AlbumAfter(d, AlbumOf(albumState, req.albumId));
      var job := JobFor(d, taskId, req, hash);
      workspaces := workspaces[req.albumId := WorkspaceOf(workspaces, req.albumId)];
      albumState := if after.Some? then albumState[req.albumId := after.value] else albumState;
      scheduled := scheduled + (if job.Some? then [job.value] else []);
    }

    /** `get`: the task's record, if any. */
    function GetTask(taskId: string): (r: Option<LegacyStatus>)
      reads this
      ensures r.Some? <==> taskId in tasks
      ensures r.Some? ==> r.value == tasks[taskId]
    {
      if taskId in tasks then Some(tasks[taskId]) else None
    }

    /** `on_before_image`: counts the image against its album, if the album is known. */
    method OnBeforeImage(albumId: string, url: Value)
      modifies this
      ensures albumId in old(albumState) ==> albumState == old(albumState)[albumId := ImageSeen(old(albumState)[albumId], url)]
      ensures albumId !in old(albumState) ==> albumState == old(albumState)
      ensures tasks == old(tasks) && workspaces == old(workspaces) && artifactDirs == old(artifactDirs)
      ensures scheduled == old(scheduled) && artifactCache == old(artifactCache) && artifactMap == old(artifactMap)
    {
      if albumId in albumState {
        albumState := albumState[albumId := ImageSeen(albumState[albumId], url)];
      }
    }

    /**
     * `on_after_album`: marks a known album done, records the image count found on disk,
     * and writes the finished metadata to the workspace's meta.json.
     */
    method OnAfterAlbum(albumId: string)
      modifies this
      ensures albumId in old(albumState) ==>
                var st := old(albumState)[albumId];
                var ws := WorkspaceOf(old(workspaces), albumId);
                var meta := FinishedMeta(st.metadata, ImagesOnDisk(ws));
                && albumState == old(albumState)[albumId := st.(status := AlbumDone, totalImages := Some(ImagesOnDisk(ws)), metadata := meta)]
                && workspaces == old(workspaces)[albumId := ws.(meta := JsonDoc(VDict(meta)))]
      ensures albumId !in old(albumState) ==> albumState == old(albumState) && workspaces == old(workspaces)
      ensures tasks == old(tasks) && artifactDirs == old(artifactDirs)
      ensures scheduled == old(scheduled) && artifactCache == old(artifactCache) && artifactMap == old(artifactMap)
    {
      if albumId in albumState {
        var st := albumState[albumId];
        var ws := WorkspaceOf(workspaces, albumId);
        var onDisk := ImagesOnDisk(ws);
        var meta := FinishedMeta(st.metadata, onDisk);
        albumState := albumState[albumId := st.(status := AlbumDone, totalImages := Some(onDisk), metadata := meta)];
        workspaces := workspaces[albumId := ws.(meta := JsonDoc(VDict(meta)))];
      }
    }

    /**
     * `_artifact_dir_for`: the album's directory name, computed by the configured rule the
     * first time and remembered in the artifact map.
     */
    method ArtifactDirFor(albumId: string, today: string, draws: Draws) returns (r: Result<string, string>)
      modifies this
      ensures albumId in old(artifactMap) && old(artifactMap)[albumId] != "" ==>
                r == Success(old(artifactMap)[albumId]) && artifactMap == old(artifactMap)
      ensures !(albumId in old(artifactMap) && old(artifactMap)[albumId] != "") ==>
                var computed := ComputeDirName(albumId, naming, sha1, today, draws);
                && r == computed
                && artifactMap == if computed.Success? then old(artifactMap)[albumId := computed.value] else old(artifactMap)
      ensures tasks == old(tasks) && albumState == old(albumState) && workspaces == old(workspaces)
      ensures artifactDirs == old(artifactDirs) && scheduled == old(scheduled) && artifactCache == old(artifactCache)
    {
      if albumId in artifactMap && artifactMap[albumId] != "" {
        return Success(artifactMap[albumId]);
      }
      var computed := ComputeDirName(albumId, naming, sha1, today, draws);
      if computed.Failure? {
        return computed;
      }
      var (name, memo) := MemoDirName(artifactMap, albumId, computed.value);
      artifactMap := memo;
      r := Success(name);
    }

    /**
     * `_build_artifact`: packages the workspace's images (ordered by file name, each zip
     * entry under its file's own name) into a new artifact named by the configured rule, records it in the album's index and in
     * the in-memory cache, and keeps the password in a `.pwd` file when encrypting. With
     * no images it fails before touching anything.
     */
    method BuildArtifact(req: LegacyRequest, cacheHash: string, today: string, nameDraws: Draws, passwordDraws: Draws)
      returns (r: Result<string, string>)
      requires ValidLegacyRequest(req)
      modifies this`artifactDirs, this`artifactCache
      ensures var images := Sort(WalkImages(WorkspaceOf(workspaces, req.albumId).walk), NameLe);
              && r == BuildOutcome(images, req, cacheHash, naming, today, nameDraws)
              && artifactDirs == DirsAfterBuild(old(artifactDirs), images, req, cacheHash, FinalPassword(req, policy, passwordDraws), r)
              && artifactCache == CacheAfterBuild(old(artifactCache), req.albumId, cacheHash, r)
      ensures var images := Sort(WalkImages(WorkspaceOf(workspaces, req.albumId).walk), NameLe);
              images == [] ==> r == Failure("no images found for packaging") && artifactDirs == old(artifactDirs)
      ensures var images := Sort(WalkImages(WorkspaceOf(workspaces, req.albumId).walk), NameLe);
              var base := BuildBase(req.albumId, cacheHash, naming, today, nameDraws);
              images != [] && base.Failure? ==> r == Failure(base.error)
      ensures r.Success? ==>
                var images := Sort(WalkImages(WorkspaceOf(workspaces, req.albumId).walk), NameLe);
                var dir := DirOf(old(artifactDirs), req.albumId).GetOr(ArtifactDir(map[], NoFile, map[]));
                var base := BuildBase(req.albumId, cacheHash, naming, today, nameDraws);
                && base.Success? && r.value == ArtifactFileName(base.value, req.outputFormat)
                && artifactDirs == old(artifactDirs)[req.albumId := StoredDir(dir, req, cacheHash, images, FinalPassword(req, policy, passwordDraws), r.value)]
      ensures r.Success? ==>
                artifactCache == old(artifactCache)[req.albumId := CacheOf(old(artifactCache), req.albumId)[cacheHash := r.value]]
      ensures r.Success? ==>
                var dir := DirOf(old(artifactDirs), req.albumId).GetOr(ArtifactDir(map[], NoFile, map[]));
                (IndexWritable(dir.index) || LookupBase(req.albumId, cacheHash, naming).Some?) ==>
                  GetArtifact(DirOf(artifactDirs, req.albumId), naming, req.albumId, cacheHash, req.outputFormat) == Some(r.value)
      ensures r.Success? ==> req.albumId in artifactDirs && r.value in artifactDirs[req.albumId].archives && r.value != ""
      ensures r.Failure? ==> artifactCache == old(artifactCache)
    {
      var images := CollectImagesByName(WorkspaceOf(workspaces, req.albumId).walk);
      if images == [] {
        return Failure("no images found for packaging");
      }
      r := StoreArtifact(req, cacheHash, images, today, nameDraws, passwordDraws);
    }

    /** `_build_artifact` once the images are known to be there. */
    method StoreArtifact(req: LegacyRequest, cacheHash: string, images: seq<Path>, today: string, nameDraws: Draws,
                         passwordDraws: Draws) returns (r: Result<string, string>)
      requires ValidLegacyRequest(req)
      modifies this`artifactDirs, this`artifactCache
      ensures images != [] ==>
                && r == BuildOutcome(images, req, cacheHash, naming, today, nameDraws)
                && artifactDirs == DirsAfterBuild(old(artifactDirs), images, req, cacheHash, FinalPassword(req, policy, passwordDraws), r)
      ensures artifactCache == CacheAfterBuild(old(artifactCache), req.albumId, cacheHash, r)
      ensures var base := BuildBase(req.albumId, cacheHash, naming, today, nameDraws);
              base.Failure? ==> r == Failure(base.error)
      ensures r.Success? ==>
                var dir := DirOf(old(artifactDirs), req.albumId).GetOr(ArtifactDir(map[], NoFile, map[]));
                var base := BuildBase(req.albumId, cacheHash, naming, today, nameDraws);
                && base.Success? && r.value == ArtifactFileName(base.value, req.outputFormat)
                && artifactDirs == old(artifactDirs)[req.albumId := StoredDir(dir, req, cacheHash, images, FinalPassword(req, policy, passwordDraws), r.value)]
      ensures r.Success? ==>
                artifactCache == old(artifactCache)[req.albumId := CacheOf(old(artifactCache), req.albumId)[cacheHash := r.value]]
      ensures r.Success? ==>
                var dir := DirOf(old(artifactDirs), req.albumId).GetOr(ArtifactDir(map[], NoFile, map[]));
                (IndexWritable(dir.index) || LookupBase(req.albumId, cacheHash, naming).Some?) ==>
                  GetArtifact(DirOf(artifactDirs, req.albumId), naming, req.albumId, cacheHash, req.outputFormat) == Some(r.value)
      ensures r.Success? ==> req.albumId in artifactDirs && r.value in artifactDirs[req.albumId].archives && r.value != ""
      ensures r.Failure? ==> artifactCache == old(artifactCache)
    {
      var dir := DirOf(artifactDirs, req.albumId).GetOr(ArtifactDir(map[], NoFile, map[]));
      artifactDirs := artifactDirs[req.albumId := dir];
      var password := FinalPassword(req, policy, passwordDraws);
      var base := BuildBase(req.albumId, cacheHash, naming, today, nameDraws);
      if base.Failure? {
        return Failure(base.error);
      }
      var filename := ArtifactFileName(base.value, req.outputFormat);
      StoredDirFound(dir, naming, req, cacheHash, images, password, today, nameDraws);
      artifactDirs := artifactDirs[req.albumId := StoredDir(dir, req, cacheHash, images, password, filename)];
      artifactCache := artifactCache[req.albumId := CacheOf(artifactCache, req.albumId)[cacheHash := filename]];
      r := Success(filename);
    }

    /**
     * `_package_task`: reuses the artifact for these parameters or builds one, then marks
     * the task done with its file name, URL, the album's metadata and image count, and the
     * stored password; a failed build marks the task failed with the error.
     */
    method PackageTask(taskId: string, req: LegacyRequest, cacheHash: string, today: string, nameDraws: Draws,
                       passwordDraws: Draws)
      requires Valid() && ValidLegacyRequest(req)
      modifies this`tasks, this`artifactDirs, this`artifactCache
      ensures Valid()
      ensures tasks.Keys == old(tasks).Keys
      ensures taskId in old(tasks) ==> tasks[taskId].status in {Done, Failed}
      ensures taskId in old(tasks) && tasks[taskId].status == Done ==>
                && tasks[taskId].artifactFilename.Some?
                && req.albumId in artifactDirs && tasks[taskId].artifactFilename.value in artifactDirs[req.albumId].archives
      ensures var existing := old(GetArtifact(DirOf(artifactDirs, req.albumId), naming, req.albumId, cacheHash, req.outputFormat));
              taskId in old(tasks) && existing.Some? ==>
                && artifactDirs == old(artifactDirs) && artifactCache == old(artifactCache)
                && tasks == old(tasks)[taskId := Packaged(old(tasks)[taskId], existing.value,
                                                        ArtifactUrl(staticRoute, req.albumId, existing.value),
                                                        AlbumOf(albumState, req.albumId),
                                                        ImagesOnDisk(WorkspaceOf(workspaces, req.albumId)),
                                                        StoredPassword(old(artifactDirs), req.albumId, cacheHash))]
      ensures var existing := old(GetArtifact(DirOf(artifactDirs, req.albumId), naming, req.albumId, cacheHash, req.outputFormat));
              var images := Sort(WalkImages(WorkspaceOf(workspaces, req.albumId).walk), NameLe);
              var built := BuildOutcome(images, req, cacheHash, naming, today, nameDraws);
              existing.None? ==>
                && artifactDirs == DirsAfterBuild(old(artifactDirs), images, req, cacheHash, FinalPassword(req, policy, passwordDraws), built)
                && artifactCache == CacheAfterBuild(old(artifactCache), req.albumId, cacheHash, built)
                && tasks == if taskId in old(tasks) then old(tasks)[taskId := MarkedRecord(old(tasks)[taskId], built, staticRoute, req.albumId,
                                                                                          AlbumOf(albumState, req.albumId),
                                                                                          ImagesOnDisk(WorkspaceOf(workspaces, req.albumId)),
                                                                                          StoredPassword(artifactDirs, req.albumId, cacheHash))]
                            else old(tasks)
      ensures forall t :: t in old(tasks) && t != taskId ==> tasks[t] == old(tasks)[t]
    {
      var existing := GetArtifact(DirOf(artifactDirs, req.albumId), naming, req.albumId, cacheHash, req.outputFormat);
      if existing.Some? {
        MarkDone(taskId, req, cacheHash, existing.value);
      } else {
        BuildAndMark(taskId, req, cacheHash, today, nameDraws, passwordDraws);
      }
    }

    /** `_package_task` when no artifact exists yet: build one, then mark the task done or failed. */
    method BuildAndMark(taskId: string, req: LegacyRequest, cacheHash: string, today: string, nameDraws: Draws,
                        passwordDraws: Draws)
      requires Valid() && ValidLegacyRequest(req)
      modifies this`tasks, this`artifactDirs, this`artifactCache
      ensures Valid()
      ensures tasks.Keys == old(tasks).Keys
      ensures taskId in old(tasks) ==> tasks[taskId].status in {Done, Failed}
      ensures taskId in old(tasks) && tasks[taskId].status == Done ==>
                && tasks[taskId].artifactFilename.Some?
                && req.albumId in artifactDirs && tasks[taskId].artifactFilename.value in artifactDirs[req.albumId].archives
      ensures var images := Sort(WalkImages(WorkspaceOf(workspaces, req.albumId).walk), NameLe);
              var built := BuildOutcome(images, req, cacheHash, naming, today, nameDraws);
              && artifactDirs == DirsAfterBuild(old(artifactDirs), images, req, cacheHash, FinalPassword(req, policy, passwordDraws), built)
              && artifactCache == CacheAfterBuild(old(artifactCache), req.albumId, cacheHash, built)
              && tasks == if taskId in old(tasks) then old(tasks)[taskId := MarkedRecord(old(tasks)[taskId], built, staticRoute, req.albumId,
                                                                                        AlbumOf(albumState, req.albumId),
                                                                                        ImagesOnDisk(WorkspaceOf(workspaces, req.albumId)),
                                                                                        StoredPassword(artifactDirs, req.albumId, cacheHash))]
                          else old(tasks)
      ensures forall t :: t in old(tasks) && t != taskId ==> tasks[t] == old(tasks)[t]
    {
      var built := BuildArtifact(req, cacheHash, today, nameDraws, passwordDraws);
      MarkBuilt(taskId, req, cacheHash, built);
    }

    /** The end of `_package_task` after a build: done with the stored file, or failed with the error. */
    method MarkBuilt(taskId: string, req: LegacyRequest, cacheHash: string, built: Result<string, string>)
      requires Valid()
      requires built.Success? ==> req.albumId in artifactDirs && built.value in artifactDirs[req.albumId].archives && built.value != ""
      modifies this`tasks
      ensures Valid()
      ensures tasks.Keys == old(tasks).Keys
      ensures taskId in old(tasks) ==> tasks[taskId].status == (if built.Success? then Done else Failed)
      ensures taskId in old(tasks) && built.Success? ==> tasks[taskId].artifactFilename == Some(built.value)
      ensures taskId in old(tasks) && built.Failure? ==> tasks[taskId].error == Some(built.error)
      ensures tasks == if taskId in old(tasks) then old(tasks)[taskId := MarkedRecord(old(tasks)[taskId], built, staticRoute, req.albumId,
                                                                                     AlbumOf(albumState, req.albumId),
                                                                                     ImagesOnDisk(WorkspaceOf(workspaces, req.albumId)),
                                                                                     StoredPassword(artifactDirs, req.albumId, cacheHash))]
                       else old(tasks)
      ensures forall t :: t in old(tasks) && t != taskId ==> tasks[t] == old(tasks)[t]
    {
      if built.Failure? {
        MarkFailed(taskId, built.error);
      } else {
        MarkDone(taskId, req, cacheHash, built.value);
      }
    }

    /** The failure branch of `_package_task`: the task, if known, is failed with the error. */
    method MarkFailed(taskId: string, error: string)
      requires Valid()
      modifies this`tasks
      ensures Valid()
      ensures taskId in old(tasks) ==> tasks == old(tasks)[taskId := old(tasks)[taskId].(status := Failed, error := Some(error))]
      ensures taskId !in old(tasks) ==> tasks == old(tasks)
    {
      if taskId in tasks {
        tasks := tasks[taskId := tasks[taskId].(status := Failed, error := Some(error))];
      }
    }

    /** The success branch of `_package_task`: the task, if known, is done with the artifact. */
    method MarkDone(taskId: string, req: LegacyRequest, cacheHash: string, filename: string)
      requires Valid() && filename != ""
      modifies this`tasks
      ensures Valid()
      ensures taskId in old(tasks) ==>
                tasks == old(tasks)[taskId := Packaged(old(tasks)[taskId], filename, ArtifactUrl(staticRoute, req.albumId, filename),
                                                     AlbumOf(albumState, req.albumId),
                                                     ImagesOnDisk(WorkspaceOf(workspaces, req.albumId)),
                                                     StoredPassword(artifactDirs, req.albumId, cacheHash))]
      ensures taskId !in old(tasks) ==> tasks == old(tasks)
    {
      if taskId in tasks {
        var url := ArtifactUrl(staticRoute, req.albumId, filename);
        var done := Packaged(tasks[taskId], filename, url, AlbumOf(albumState, req.albumId),
                             ImagesOnDisk(WorkspaceOf(workspaces, req.albumId)),
                             StoredPassword(artifactDirs, req.albumId, cacheHash));
        tasks := tasks[taskId := done];
      }
    }
  }

  /** The album's entry of `artifact_cache`, empty when it has none. */
  function CacheOf(cache: map<string, map<string, string>>, albumId: string): map<string, string> {
    if albumId in cache then cache[albumId] else map[]
  }

  /** An index `_build_artifact` can add an entry to: none yet, or a readable object. */
  predicate IndexWritable(index: JsonFile) {
    index.NoFile? || (index.JsonDoc? && index.v.VDict?)
  }

  /** The album's directory after `_build_artifact` wrote `filename`: the artifact, the index entry, the `.pwd` file. */
  function StoredDir(dir: ArtifactDir, req: LegacyRequest, cacheHash: string, images: seq<Path>, password: Option<string>,
                     filename: string): (r: ArtifactDir)
    ensures r.archives == dir.archives[filename := ArchiveFor(images, req, password)]
    ensures r.index == RecordInIndex(dir.index, cacheHash, filename)
    ensures req.encrypt && Truthy(password) ==> cacheHash in r.passwords && r.passwords[cacheHash] == password.value
    ensures !req.encrypt ==> r.passwords == dir.passwords
  {
    RecordPassword(Built(dir, cacheHash, filename, ArchiveFor(images, req, password)), cacheHash, req, password)
  }

  /**
   * What `_build_artifact` returns or raises for the workspace's `images`: with none it
   * raises "no images found for packaging"; a naming rule that cannot produce a base
   * raises that rule's error; otherwise it returns the base with the format's suffix.
   */
  function BuildOutcome(images: seq<Path>, req: LegacyRequest, cacheHash: string, cfg: NamingConfig, today: string,
                        draws: Draws): (r: Result<string, string>)
    ensures r.Failure? <==> images == [] || BuildBase(req.albumId, cacheHash, cfg, today, draws).Failure?
    ensures images == [] ==> r == Failure("no images found for packaging")
    ensures images != [] && BuildBase(req.albumId, cacheHash, cfg, today, draws).Failure? ==>
              r == Failure(BuildBase(req.albumId, cacheHash, cfg, today, draws).error)
    ensures r.Success? && ValidLegacyRequest(req) ==>
              r.value == BuildBase(req.albumId, cacheHash, cfg, today, draws).value + "." + req.outputFormat
  {
    if images == [] then Failure("no images found for packaging")
    else
      var base := BuildBase(req.albumId, cacheHash, cfg, today, draws);
      if base.Failure? then Failure(base.error) else Success(ArtifactFileName(base.value, req.outputFormat))
  }

  /**
   * The artifact directories after `_build_artifact` with outcome `built`: untouched when
   * there was no image; otherwise the album's directory exists (it is created before the
   * name is chosen), and after a successful build it holds the stored artifact.
   */
  function DirsAfterBuild(dirs: map<string, ArtifactDir>, images: seq<Path>, req: LegacyRequest, cacheHash: string,
                          password: Option<string>, built: Result<string, string>): (r: map<string, ArtifactDir>)
    ensures images == [] ==> r == dirs
    ensures images != [] ==> r.Keys == dirs.Keys + {req.albumId}
    ensures forall a :: a in dirs && a != req.albumId ==> r[a] == dirs[a]
    ensures images != [] && built.Failure? && req.albumId in dirs ==> r == dirs
    ensures images != [] && built.Success? ==>
              built.value in r[req.albumId].archives
              && r[req.albumId].archives[built.value] == ArchiveFor(images, req, password)
  {
    var dir := DirOf(dirs, req.albumId).GetOr(ArtifactDir(map[], NoFile, map[]));
    if images == [] then dirs
    else if built.Failure? then dirs[req.albumId := dir]
    else dirs[req.albumId := StoredDir(dir, req, cacheHash, images, password, built.value)]
  }

  /** `_cache_artifact`'s in-memory entry after a build: the hash maps to the file on success. */
  function CacheAfterBuild(cache: map<string, map<string, string>>, albumId: string, cacheHash: string,
                           built: Result<string, string>): (r: map<string, map<string, string>>)
    ensures built.Failure? ==> r == cache
    ensures built.Success? ==> albumId in r && cacheHash in r[albumId] && r[albumId][cacheHash] == built.value
    ensures built.Success? ==> forall h :: h in CacheOf(cache, albumId) && h != cacheHash ==> h in r[albumId] && r[albumId][h] == cache[albumId][h]
    ensures forall a :: a in cache && a != albumId ==> a in r && r[a] == cache[a]
  {
    if built.Success? then cache[albumId := CacheOf(cache, albumId)[cacheHash := built.value]] else cache
  }

  /**
   * The task at the end of `_package_task` with outcome `built`: done with the file, its
   * URL, the album's metadata and count and the stored password; or failed with the error.
   */
  function MarkedRecord(ts: LegacyStatus, built: Result<string, string>, staticRoute: string, albumId: string,
                        album: Option<AlbumState>, onDisk: nat, storedPassword: Option<string>): (r: LegacyStatus)
    ensures r.status == (if built.Success? then Done else Failed)
    ensures r.taskId == ts.taskId
    ensures built.Success? ==> r.artifactFilename == Some(built.value) && r.downloadUrl == Some(ArtifactUrl(staticRoute, albumId, built.value))
    ensures built.Failure? ==> r == ts.(status := Failed, error := Some(built.error))
  {
    if built.Success? then Packaged(ts, built.value, ArtifactUrl(staticRoute, albumId, built.value), album, onDisk, storedPassword)
    else ts.(status := Failed, error := Some(built.error))
  }

  /**
   * The stored artifact is in the directory, and a later lookup with the same hash finds
   * it whenever the index could record it or the rule reconstructs the name.
   */
  lemma StoredDirFound(dir: ArtifactDir, cfg: NamingConfig, req: LegacyRequest, cacheHash: string, images: seq<Path>,
                       password: Option<string>, today: string, draws: Draws)
    requires ValidLegacyRequest(req) && BuildBase(req.albumId, cacheHash, cfg, today, draws).Success?
    ensures var filename := ArtifactFileName(BuildBase(req.albumId, cacheHash, cfg, today, draws).value, req.outputFormat);
            var stored := StoredDir(dir, req, cacheHash, images, password, filename);
            && filename in stored.archives && filename != ""
            && ((IndexWritable(dir.index) || LookupBase(req.albumId, cacheHash, cfg).Some?) ==>
                  GetArtifact(Some(stored), cfg, req.albumId, cacheHash, req.outputFormat) == Some(filename))
  {
    var base := BuildBase(req.albumId, cacheHash, cfg, today, draws).value;
    var filename := ArtifactFileName(base, req.outputFormat);
    var archive := ArchiveFor(images, req, password);
    LookupFindsBuiltName(req.albumId, cacheHash, cfg, today, draws);
    LookupAfterBuild(dir, cfg, req.albumId, cacheHash, req.outputFormat, base, archive);
    var built := Built(dir, cacheHash, filename, archive);
    assert GetArtifact(Some(StoredDir(dir, req, cacheHash, images, password, filename)), cfg, req.albumId, cacheHash, req.outputFormat)
        == GetArtifact(Some(built), cfg, req.albumId, cacheHash, req.outputFormat);
  }

  /** A done answer names an artifact and a URL. */
  lemma DoneAnswerReady(st: LegacyStatus, d: Decision, staticRoute: string)
    requires d.ReturnArtifact? ==> d.filename != ""
    ensures Answer(st, d, staticRoute).status == Done ==> DownloadReady(Answer(st, d, staticRoute))
    ensures Answer(st, d, staticRoute).taskId == st.taskId
  {
  }
}
