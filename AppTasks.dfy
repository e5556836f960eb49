/**
 * The task manager of the server (app/tasks.py): deduplicated submission by cache key,
 * the run of one task with its clamped progress reports, and the status read that
 * derives a download URL. The downloader's run is a parameter here: its progress
 * reports in order and its outcome (the packaged result, or the exception's text).
 */
module AppTasks {
  import opened Common
  import opened Ordering
  import opened Json
  import opened Decimal
  import opened AppModels
  import opened AppStorage
  import opened AppDownloader

  // ---- the cache key of a request (TaskManager.submit) ----

  /** `str(a)` of an album id. */
  function IdString(a: AlbumId): string {
    match a
    case IntId(i) => IntToDecimal(i)
    case StrId(s) => s
  }

  function IdStrings(ids: seq<AlbumId>): (r: seq<string>)
    ensures |r| == |ids|
  {
    seq(|ids|, i requires 0 <= i < |ids| => IdString(ids[i]))
  }

  function OptInt(x: Option<int>): Json {
    if x.Some? then JInt(x.value) else JNull
  }

  /**
   * The payload `submit` hashes: the sorted string forms of the ids, the format's value,
   * and None password, proxy and option file all written as "". The `cache` flag is not
   * part of it.
   */
  function CachePayload(req: TaskRequest): (p: seq<Entry>)
    ensures DistinctKeys(p)
    ensures |p| == 8 && p[4] == ("password", JStr(OrElse(req.password, "")))
  {
    var ids, format, quality := JStrList(Sort(IdStrings(req.albumIds), StrLe)), JStr(FormatValue(req.outputFormat)), OptInt(req.quality);
    var password, compression := JStr(OrElse(req.password, "")), OptInt(req.compression);
    var proxy, optionFile := JStr(OrElse(req.proxy, "")), JStr(OrElse(req.optionFile, ""));
    PayloadKeysDistinct(ids, format, quality, JBool(req.encrypt), password, compression, proxy, optionFile);
    [("album_ids", ids), ("output_format", format), ("quality", quality), ("encrypt", JBool(req.encrypt)),
     ("password", password), ("compression", compression), ("proxy", proxy), ("option_file", optionFile)]
  }

  /** The eight keys of the payload are distinct: by length, and by first letter where lengths agree. */
  lemma PayloadKeysDistinct(ids: Json, format: Json, quality: Json, encrypt: Json, password: Json, compression: Json,
                            proxy: Json, optionFile: Json)
    ensures DistinctKeys([("album_ids", ids), ("output_format", format), ("quality", quality), ("encrypt", encrypt),
                          ("password", password), ("compression", compression), ("proxy", proxy), ("option_file", optionFile)])
  {
    var p := [("album_ids", ids), ("output_format", format), ("quality", quality), ("encrypt", encrypt),
              ("password", password), ("compression", compression), ("proxy", proxy), ("option_file", optionFile)];
    var lens := [9, 13, 7, 7, 8, 11, 5, 11];
    var firsts := ['a', 'o', 'q', 'e', 'p', 'c', 'p', 'o'];
    assert forall i :: 0 <= i < 8 ==> |p[i].0| == lens[i] && p[i].0[0] == firsts[i];
    forall i, j | 0 <= i < j < |p| ensures p[i].0 != p[j].0 {
      assert lens[i] != lens[j] || firsts[i] != firsts[j];
    }
  }

  /** The key of a request: its payload always holds a str password, so hashing never fails. */
  function TaskCacheKey(req: TaskRequest, sha256: Hasher): (key: string)
    ensures CacheKey(CachePayload(req), sha256) == Success(key)
  {
    var p := CachePayload(req);
    ToMapAt(p, 4);
    CacheKey(p, sha256).value
  }

  /**
   * Requests that differ only in the order or the type of their album ids (5 and "5"),
   * in a None against an empty password, proxy or option file, or in the `cache` flag
   * share one key, and so one deduplicated task.
   */
  lemma CacheKeyOfEquivalentRequests(a: TaskRequest, b: TaskRequest, sha256: Hasher)
    requires multiset(IdStrings(a.albumIds)) == multiset(IdStrings(b.albumIds))
    requires a.outputFormat == b.outputFormat && a.quality == b.quality && a.encrypt == b.encrypt
    requires a.compression == b.compression
    requires OrElse(a.password, "") == OrElse(b.password, "")
    requires OrElse(a.proxy, "") == OrElse(b.proxy, "")
    requires OrElse(a.optionFile, "") == OrElse(b.optionFile, "")
    ensures TaskCacheKey(a, sha256) == TaskCacheKey(b, sha256)
  {
    StrLeIsTotal();
    SortIgnoresOrder(IdStrings(a.albumIds), IdStrings(b.albumIds), StrLe);
    assert CachePayload(a) == CachePayload(b);
  }

  // ---- task records ----

  /** The record `_task_state` creates for an unknown id. */
  function DefaultRecord(taskId: string): TaskRecord {
    TaskRecord(taskId, Queued, 0.0, None, None, None, None, None, None, None)
  }

  /** `_task_state`'s answer: the stored record, or a fresh default one. */
  function StateOf(tasks: map<string, TaskRecord>, taskId: string): (r: TaskRecord)
    ensures taskId !in tasks ==> r.status == Queued && r.progress == 0.0 && r.request.None?
  {
    if taskId in tasks then tasks[taskId] else DefaultRecord(taskId)
  }

  /** The record of a newly created task: the default one, with its request and key. */
  function NewTaskRecord(taskId: string, req: TaskRequest, key: string): (r: TaskRecord)
    ensures r.status == Queued && r.request == Some(req) && r.cacheKey == Some(key)
  {
    DefaultRecord(taskId).(request := Some(req), cacheKey := Some(key))
  }

  /** `self._dedup.get(cache_key) or uuid.uuid4().hex` */
  function HitId(dedup: map<string, string>, key: string, freshId: string): (id: string)
    ensures key in dedup && dedup[key] != "" ==> id == dedup[key]
    ensures !(key in dedup && dedup[key] != "") ==> id == freshId
  {
    if key in dedup && dedup[key] != "" then dedup[key] else freshId
  }

  /**
   * The cache-hit update as written: completed, progress 1, the cached file as artifact;
   * the request and the key are not recorded.
   */
  function CacheHitRecordAsWritten(state: TaskRecord, path: Path): (r: TaskRecord)
    ensures r.status == Completed && r.progress == 1.0 && r.artifactPath == Some(path)
    ensures r.(status := state.status, progress := state.progress, artifactPath := state.artifactPath) == state
  {
    state.(status := Completed, progress := 1.0, artifactPath := Some(path))
  }

  /**
   * Corrected: the cache-hit update with the request and key recorded when the record has
   * none, so that the record stays readable as a `TaskStatus`.
   */
  function CacheHitRecord(state: TaskRecord, path: Path, req: TaskRequest, key: string): (r: TaskRecord)
    ensures r.status == Completed && r.progress == 1.0 && r.artifactPath == Some(path)
    ensures r.request.Some? && (state.request.Some? ==> r.request == state.request)
    ensures r.taskId == state.taskId && r.error == state.error && r.metadata == state.metadata
  {
    CacheHitRecordAsWritten(state, path).(
      request := if state.request.Some? then state.request else Some(req),
      cacheKey := if state.cacheKey.Some? then state.cacheKey else Some(key))
  }

  // ---- reading a status (TaskManager.get_status) ----

  function DownloadUrl(taskId: string, artifact: Path): string {
    "/tasks/" + taskId + "/download/" + Basename(artifact)
  }

  /** The record after `get_status` filled in a missing download URL from the artifact path. */
  function WithDownloadUrl(taskId: string, rec: TaskRecord): (r: TaskRecord)
    ensures r.(downloadUrl := rec.downloadUrl) == rec
    ensures Truthy(rec.downloadUrl) ==> r == rec
    ensures Truthy(rec.artifactPath) ==> Truthy(r.downloadUrl)
  {
    if Truthy(rec.artifactPath) && !Truthy(rec.downloadUrl)
    then rec.(downloadUrl := Some(DownloadUrl(taskId, rec.artifactPath.value)))
    else rec
  }

  /**
   * The URL is derived once and then kept; every record with an artifact ends up with a
   * URL whose last component is the artifact's file name; nothing else changes.
   */
  lemma DownloadUrlDerivation(taskId: string, rec: TaskRecord)
    ensures WithDownloadUrl(taskId, WithDownloadUrl(taskId, rec)) == WithDownloadUrl(taskId, rec)
    ensures WithDownloadUrl(taskId, rec).(downloadUrl := rec.downloadUrl) == rec
    ensures Truthy(rec.artifactPath) ==> Truthy(WithDownloadUrl(taskId, rec).downloadUrl)
    ensures Truthy(rec.artifactPath) && !Truthy(rec.downloadUrl) ==>
              Basename(WithDownloadUrl(taskId, rec).downloadUrl.value) == Basename(rec.artifactPath.value)
  {
    if Truthy(rec.artifactPath) && !Truthy(rec.downloadUrl) {
      var name := Basename(rec.artifactPath.value);
      assert DownloadUrl(taskId, rec.artifactPath.value) == Child("/tasks/" + taskId + "/download", name);
      BasenameOfChild("/tasks/" + taskId + "/download", name);
    }
  }

  /** `TaskStatus(**st)`: the model requires `request`; a record without one fails to validate. */
  function StatusView(rec: TaskRecord): (r: Result<TaskRecord, string>)
    ensures r.Success? <==> rec.request.Some?
    ensures r.Success? ==> r.value == rec
  {
    if rec.request.Some? then Success(rec) else Failure("request: Field required")
  }

  /**
   * The cache-hit path as written, on an id that is new to the registry, leaves a record
   * whose status cannot be read: `get_status` raises for the id `submit` returned.
   */
  lemma AsWrittenCacheHitUnreadable(tasks: map<string, TaskRecord>, freshId: string, path: Path)
    requires freshId !in tasks
    ensures StatusView(WithDownloadUrl(freshId, CacheHitRecordAsWritten(StateOf(tasks, freshId), path))).Failure?
  {
  }

  /**
   * The as-written cache hit on a fresh id leaves the key pointing at a task without a
   * request, so the deduplicated tasks are no longer all readable.
   */
  lemma AsWrittenCacheHitBreaksReadable(dedup: map<string, string>, tasks: map<string, TaskRecord>, key: string,
                                        freshId: string, path: Path)
    requires freshId !in tasks
    ensures !DedupReadable(dedup[key := freshId], tasks[freshId := CacheHitRecordAsWritten(StateOf(tasks, freshId), path)])
  {
    var tasks' := tasks[freshId := CacheHitRecordAsWritten(StateOf(tasks, freshId), path)];
    assert key in dedup[key := freshId] && tasks'[freshId].request.None?;
  }

  /** With the request recorded, the cache-hit record reads back as completed, with its URL. */
  lemma CacheHitRecordReadable(state: TaskRecord, path: Path, req: TaskRequest, key: string)
    requires path != ""
    ensures var r := StatusView(WithDownloadUrl(state.taskId, CacheHitRecord(state, path, req, key)));
            && r.Success? && r.value.status == Completed && r.value.progress == 1.0
            && Truthy(r.value.downloadUrl)
  {
    DownloadUrlDerivation(state.taskId, CacheHitRecord(state, path, req, key));
  }

  /** Every task the dedup table points to is registered and has a readable status. */
  predicate DedupReadable(dedup: map<string, string>, tasks: map<string, TaskRecord>) {
    forall k :: k in dedup ==> dedup[k] in tasks && tasks[dedup[k]].request.Some?
  }

  /** Storing a record keeps the dedup table readable when the record has a request or no key names it. */
  lemma DedupReadableStore(dedup: map<string, string>, tasks: map<string, TaskRecord>, id: string, rec: TaskRecord)
    requires DedupReadable(dedup, tasks)
    requires id in dedup.Values ==> rec.request.Some?
    ensures DedupReadable(dedup, tasks[id := rec])
  {
    forall k | k in dedup ensures dedup[k] in tasks[id := rec] && tasks[id := rec][dedup[k]].request.Some? {
      if dedup[k] == id {
        assert id in dedup.Values;
      }
    }
  }

  /**
   * Corrected: the cache hit that records the request keeps every deduplicated task
   * readable, whether the key already named a task or a fresh one.
   */
  lemma CacheHitKeepsReadable(dedup: map<string, string>, tasks: map<string, TaskRecord>, key: string,
                              id: string, path: Path, req: TaskRequest)
    requires DedupReadable(dedup, tasks)
    ensures DedupReadable(dedup[key := id], tasks[id := CacheHitRecord(StateOf(tasks, id), path, req, key)])
  {
    var rec := CacheHitRecord(StateOf(tasks, id), path, req, key);
    DedupReadableStore(dedup, tasks, id, rec);
  }

  /** Every task the dedup table points to is registered. */
  predicate DedupRegistered(dedup: map<string, string>, tasks: map<string, TaskRecord>) {
    forall k :: k in dedup ==> dedup[k] in tasks
  }

  // ---- running a task (TaskManager._run_task) ----

  /** `max(0.0, min(0.99, float(p)))` */
  function Clamp(p: real): (r: real)
    ensures 0.0 <= r <= 0.99
    ensures 0.0 <= p <= 0.99 ==> r == p
    ensures p < 0.0 ==> r == 0.0
    ensures p > 0.99 ==> r == 0.99
  {
    if p < 0.0 then 0.0 else if p > 0.99 then 0.99 else p
  }

  /** A progress report of the downloader: fraction and message. */
  type Report = (real, string)

  /** The record after the reports were applied in order, each as `progress_cb` does. */
  function Reported(rec: TaskRecord, reports: seq<Report>): (r: TaskRecord)
    ensures r.taskId == rec.taskId && r.status == rec.status && r.request == rec.request
    ensures r.cacheKey == rec.cacheKey && r.artifactPath == rec.artifactPath
    ensures reports != [] ==> 0.0 <= r.progress <= 0.99
  {
    if reports == [] then rec
    else
      var last := reports[|reports| - 1];
      Reported(rec, reports[..|reports| - 1]).(progress := Clamp(last.0), message := Some(last.1))
  }

  /**
   * Reports move only the progress and the message: the progress is the clamp of the
   * last report, within [0, 0.99], and the message is the last report's.
   */
  lemma {:induction false} ReportedFields(rec: TaskRecord, reports: seq<Report>)
    ensures Reported(rec, reports).(progress := rec.progress, message := rec.message) == rec
    ensures reports == [] ==> Reported(rec, reports).progress == rec.progress
    ensures reports != [] ==> Reported(rec, reports).progress == Clamp(reports[|reports| - 1].0)
    ensures reports != [] ==> 0.0 <= Reported(rec, reports).progress <= 0.99
    ensures reports != [] ==> Reported(rec, reports).message == Some(reports[|reports| - 1].1)
  {
    if reports != [] {
      ReportedFields(rec, reports[..|reports| - 1]);
    }
  }

  /**
   * The record after the download ended: completed with the published path when the
   * download succeeded, the record has a cache key and the artifact could be published;
   * failed with the error text otherwise.
   */
  function Finished(rec: TaskRecord, outcome: Result<DownloadResult, string>, cacheDir: Path, files: FileSystem): (r: TaskRecord)
    ensures r.status == Completed || r.status == Failed
    ensures r.taskId == rec.taskId && r.request == rec.request && r.cacheKey == rec.cacheKey
    ensures r.status == Failed ==> r.error.Some? && r.progress == rec.progress
  {
    match outcome
    case Failure(e) => rec.(status := Failed, error := Some(e))
    case Success(res) =>
      if rec.cacheKey.None? then rec.(status := Failed, error := Some("'cache_key'"))
      else
        var dst := Child(cacheDir, ArtifactName(rec.cacheKey.value, res.suffix));
        if res.artifactPath != dst && res.artifactPath !in files
        then rec.(status := Failed, error := Some(NoSuchFile(res.artifactPath)))
        else rec.(status := Completed, progress := 1.0, artifactPath := Some(dst), metadata := Some(res.metadata))
  }

  /**
   * A run ends completed or failed, and keeps the request and the key. It completes
   * exactly when the download succeeded, the record has a key and the artifact could be
   * published (it exists, or already is the published file).
   */
  lemma FinishedStatus(rec: TaskRecord, outcome: Result<DownloadResult, string>, cacheDir: Path, files: FileSystem)
    ensures var r := Finished(rec, outcome, cacheDir, files);
            && r.status in {Completed, Failed}
            && r.request == rec.request && r.cacheKey == rec.cacheKey && r.taskId == rec.taskId
            && (r.status == Completed <==>
                  outcome.Success? && rec.cacheKey.Some?
                  && (outcome.value.artifactPath in files
                      || outcome.value.artifactPath == Child(cacheDir, ArtifactName(rec.cacheKey.value, outcome.value.suffix))))
  {
  }

  /**
   * Completed means progress 1, the download's metadata, and an artifact in the cache
   * directory whose name starts with the task's key (for a key and suffix without '/');
   * failed means an error, with the progress and artifact the record had.
   */
  lemma FinishedFields(rec: TaskRecord, outcome: Result<DownloadResult, string>, cacheDir: Path, files: FileSystem)
    ensures var r := Finished(rec, outcome, cacheDir, files);
            && (r.status == Completed ==>
                  && r.progress == 1.0 && r.metadata == Some(outcome.value.metadata)
                  && ('/' !in rec.cacheKey.value && '/' !in outcome.value.suffix ==>
                        StartsWith(Basename(r.artifactPath.value), rec.cacheKey.value + ".")))
            && (r.status == Failed ==> r.error.Some? && r.progress == rec.progress && r.artifactPath == rec.artifactPath)
  {
    var r := Finished(rec, outcome, cacheDir, files);
    if r.status == Completed {
      var key, suffix := rec.cacheKey.value, outcome.value.suffix;
      if '/' !in key && '/' !in suffix {
        NoSlashName(key, suffix);
        BasenameOfChild(cacheDir, ArtifactName(key, suffix));
      }
    }
  }

  /** A key and a suffix without '/' make a plain file name. */
  lemma NoSlashName(key: string, suffix: string)
    ensures '/' !in key && '/' !in suffix ==> '/' !in ArtifactName(key, suffix)
  {
    if '/' !in key && '/' !in suffix {
      var s := LStrip(suffix, '.');
      assert '/' !in s by {
        forall k | 0 <= k < |s| ensures s[k] != '/' {
          assert s[k] == suffix[|suffix| - |s| + k];
        }
      }
      NoSlashConcat(key, ".");
      NoSlashConcat(key + ".", s);
    }
  }

  /**
   * A failed run ends below 1 exactly when it reported progress or started below 1. A
   * record that a cache hit completed while its run was still scheduled starts at 1, so
   * a run of it that fails before any report is left failed at progress 1.
   */
  lemma FailedRunBelowOne(rec: TaskRecord, reports: seq<Report>, outcome: Result<DownloadResult, string>,
                          cacheDir: Path, files: FileSystem)
    ensures var r := Finished(Reported(rec.(status := Running), reports), outcome, cacheDir, files);
            r.status == Failed ==> (r.progress <= 0.99 <==> reports != [] || rec.progress <= 0.99)
  {
    ReportedFields(rec.(status := Running), reports);
    FinishedFields(Reported(rec.(status := Running), reports), outcome, cacheDir, files);
  }

  /**
   * The parameters `_run_task` hands the downloader: ids as strings, a compression of
   * None or 0 replaced by 6, the server's default proxy when the request names none, and
   * the option file only when it is a non-empty string.
   */
  function NormaliseParams(req: TaskRequest, defaultProxy: Option<string>): (r: DownloadParams)
    ensures |r.albumIds| == |req.albumIds|
    ensures r.compression != 0
    ensures req.proxy.Some? ==> r.proxy == req.proxy
    ensures r.optionFile.Some? ==> r.optionFile.value != ""
  {
    DownloadParams(
      IdStrings(req.albumIds),
      FormatValue(req.outputFormat),
      req.quality,
      req.encrypt,
      req.password,
      if req.compression.None? || req.compression.value == 0 then 6 else req.compression.value,
      if req.proxy.Some? then req.proxy else defaultProxy,
      if Truthy(req.optionFile) then req.optionFile else None)
  }

  /**
   * For a validated request the level handed on is within 1..9: level 0, though
   * accepted, is replaced by the default 6. An explicit empty proxy is kept, and so
   * overrides the default proxy.
   */
  lemma NormalisedParams(req: TaskRequest, defaultProxy: Option<string>)
    requires ValidRequest(req)
    ensures var p := NormaliseParams(req, defaultProxy);
            && 1 <= p.compression <= 9
            && (req.compression == Some(0) ==> p.compression == 6)
            && (req.compression.Some? && req.compression.value != 0 ==> p.compression == req.compression.value)
            && (req.proxy == Some("") ==> p.proxy == Some(""))
            && (req.proxy.None? ==> p.proxy == defaultProxy)
            && |p.albumIds| == |req.albumIds|
  {
  }

  // ---- the task manager ----

  class TaskManager {
    const storage: Storage
    const defaultProxy: Option<string>
    const sha256: Hasher
    /** cache key to task id */
    var dedup: map<string, string>
    /** The `_run_task` runs `submit` scheduled, in order. */
    var scheduled: seq<(string, TaskRequest)>

    /**
     * Every deduplicated task is registered, and a writable state file mirrors the
     * registry. (That its status is also readable is not kept: see
     * `AsWrittenCacheHitBreaksReadable`.)
     */
    ghost predicate Valid()
      reads this, storage
    {
      && DedupRegistered(dedup, storage.tasks)
      && (storage.stateWritable ==> LoadedTasks(storage.stateFile) == storage.tasks)
    }

    constructor (storage: Storage, defaultProxy: Option<string>, sha256: Hasher)
      requires storage.stateWritable ==> LoadedTasks(storage.stateFile) == storage.tasks
      ensures this.storage == storage && this.defaultProxy == defaultProxy && this.sha256 == sha256
      ensures dedup == map[] && scheduled == []
      ensures Valid()
    {
      this.storage := storage;
      this.defaultProxy := defaultProxy;
      this.sha256 := sha256;
      dedup := map[];
      scheduled := [];
    }

    /** `_task_state`: the stored record, or a default one that is stored first. */
    method TaskState(taskId: string) returns (state: TaskRecord)
      requires Valid()
      modifies storage`tasks, storage`stateFile
      ensures state == StateOf(old(storage.tasks), taskId)
      ensures storage.tasks == old(storage.tasks)[taskId := state]
      ensures Valid()
    {
      var st := storage.GetTaskState(taskId);
      if st.None? {
        state := DefaultRecord(taskId);
        storage.SetTaskState(taskId, state);
      } else {
        state := st.value;
      }
    }

    /**
     * `submit`: a cached artifact completes the request at once, under the task the key
     * already names or a fresh one; otherwise a task already holding the key is returned;
     * otherwise a fresh task is registered and scheduled. `freshId` is the uuid drawn.
     */
    method Submit(req: TaskRequest, freshId: string, listing: seq<string>) returns (resp: SubmitResponse)
      requires Valid()
      requires freshId !in storage.tasks && freshId !in dedup.Values
      modifies this`dedup, this`scheduled, storage`tasks, storage`stateFile
      ensures Valid()
      ensures var key := TaskCacheKey(req, sha256);
              var entry := if req.cache then old(storage.CacheLookup(key, listing)) else None;
              entry.Some? ==>
                var id := HitId(old(dedup), key, freshId);
                && resp == SubmitResponse(id, Completed, true)
                && dedup == old(dedup)[key := id]
                && storage.tasks == old(storage.tasks)[id := CacheHitRecordAsWritten(StateOf(old(storage.tasks), id), entry.value.path)]
                && scheduled == old(scheduled)
      ensures var key := TaskCacheKey(req, sha256);
              var entry := if req.cache then old(storage.CacheLookup(key, listing)) else None;
              entry.None? && key in old(dedup) ==>
                && resp == SubmitResponse(old(dedup)[key], old(storage.tasks)[old(dedup)[key]].status, true)
                && dedup == old(dedup) && storage.tasks == old(storage.tasks) && scheduled == old(scheduled)
      ensures var key := TaskCacheKey(req, sha256);
              var entry := if req.cache then old(storage.CacheLookup(key, listing)) else None;
              entry.None? && key !in old(dedup) ==>
                && resp == SubmitResponse(freshId, Queued, false)
                && dedup == old(dedup)[key := freshId]
                && storage.tasks == old(storage.tasks)[freshId := NewTaskRecord(freshId, req, key)]
                && scheduled == old(scheduled) + [(freshId, req)]
    {
      var key := TaskCacheKey(req, sha256);
      resp := SubmitKeyed(req, key, freshId, listing);
    }

    /** The body of `submit` once the request's cache key is computed. */
    method SubmitKeyed(req: TaskRequest, key: string, freshId: string, listing: seq<string>) returns (resp: SubmitResponse)
      requires Valid()
      requires freshId !in storage.tasks && freshId !in dedup.Values
      modifies this`dedup, this`scheduled, storage`tasks, storage`stateFile
      ensures Valid()
      ensures var entry := if req.cache then old(storage.CacheLookup(key, listing)) else None;
              entry.Some? ==>
                var id := HitId(old(dedup), key, freshId);
                && resp == SubmitResponse(id, Completed, true)
                && dedup == old(dedup)[key := id]
                && storage.tasks == old(storage.tasks)[id := CacheHitRecordAsWritten(StateOf(old(storage.tasks), id), entry.value.path)]
                && scheduled == old(scheduled)
      ensures var entry := if req.cache then old(storage.CacheLookup(key, listing)) else None;
              entry.None? && key in old(dedup) ==>
                && resp == SubmitResponse(old(dedup)[key], old(storage.tasks)[old(dedup)[key]].status, true)
                && dedup == old(dedup) && storage.tasks == old(storage.tasks) && scheduled == old(scheduled)
      ensures var entry := if req.cache then old(storage.CacheLookup(key, listing)) else None;
              entry.None? && key !in old(dedup) ==>
                && resp == SubmitResponse(freshId, Queued, false)
                && dedup == old(dedup)[key := freshId]
                && storage.tasks == old(storage.tasks)[freshId := NewTaskRecord(freshId, req, key)]
                && scheduled == old(scheduled) + [(freshId, req)]
    {
      var entry := LookupCache(req.cache, key, listing);
      if entry.Some? {
        resp := CompleteFromCache(key, entry.value.path, freshId);
      } else if key in dedup {
        resp := ReturnExisting(key);
      } else {
        resp := RegisterTask(req, key, freshId);
      }
    }

    /** `self.storage.cached_artifact(cache_key) if req.cache else None` */
    method LookupCache(cache: bool, key: string, listing: seq<string>) returns (entry: Option<CacheEntry>)
      ensures entry == if cache then storage.CacheLookup(key, listing) else None
    {
      entry := None;
      if cache {
        entry := storage.CachedArtifact(key, listing);
      }
    }

    /** The dedup branch of `submit`: the task already holding the key, with its current status. */
    method ReturnExisting(key: string) returns (resp: SubmitResponse)
      requires Valid() && key in dedup
      modifies storage`tasks, storage`stateFile
      ensures storage.tasks == old(storage.tasks) && Valid()
      ensures resp == SubmitResponse(dedup[key], storage.tasks[dedup[key]].status, true)
    {
      var taskId := dedup[key];
      var st := TaskState(taskId);
      resp := SubmitResponse(taskId, st.status, true);
    }

    /**
     * The cache-hit branch of `submit`: a completed task pointing at the cached file. The
     * record gets no request, so on a fresh id its status read fails (see the findings).
     */
    method CompleteFromCache(key: string, path: Path, freshId: string) returns (resp: SubmitResponse)
      requires Valid()
      requires freshId !in dedup.Values
      modifies this`dedup, storage`tasks, storage`stateFile
      ensures Valid()
      ensures var id := HitId(old(dedup), key, freshId);
              && resp == SubmitResponse(id, Completed, true)
              && dedup == old(dedup)[key := id]
              && storage.tasks == old(storage.tasks)[id := CacheHitRecordAsWritten(StateOf(old(storage.tasks), id), path)]
    {
      var taskId := HitId(dedup, key, freshId);
      var state := TaskState(taskId);
      state := CacheHitRecordAsWritten(state, path);
      storage.SetTaskState(taskId, state);
      dedup := dedup[key := taskId];
      resp := SubmitResponse(taskId, Completed, true);
    }

    /** The last branch of `submit`: a fresh queued task with its request and key, scheduled to run. */
    method RegisterTask(req: TaskRequest, key: string, freshId: string) returns (resp: SubmitResponse)
      requires Valid()
      requires freshId !in storage.tasks && freshId !in dedup.Values
      modifies this`dedup, this`scheduled, storage`tasks, storage`stateFile
      ensures Valid()
      ensures resp == SubmitResponse(freshId, Queued, false)
      ensures dedup == old(dedup)[key := freshId]
      ensures storage.tasks == old(storage.tasks)[freshId := NewTaskRecord(freshId, req, key)]
      ensures scheduled == old(scheduled) + [(freshId, req)]
    {
      var state := TaskState(freshId);
      state := state.(request := Some(req), cacheKey := Some(key));
      storage.SetTaskState(freshId, state);
      dedup := dedup[key := freshId];
      scheduled := scheduled + [(freshId, req)];
      resp := SubmitResponse(freshId, Queued, false);
    }

    /** One `progress_cb` call. */
    method ReportProgress(taskId: string, report: Report)
      requires Valid()
      modifies storage`tasks, storage`stateFile
      ensures var s := StateOf(old(storage.tasks), taskId);
              storage.tasks == old(storage.tasks)[taskId := s.(progress := Clamp(report.0), message := Some(report.1))]
      ensures Valid()
    {
      var s := TaskState(taskId);
      s := s.(progress := Clamp(report.0), message := Some(report.1));
      storage.SetTaskState(taskId, s);
    }

    /** The start of `_run_task`: the task is marked running. */
    method StartRun(taskId: string)
      requires Valid()
      modifies storage`tasks, storage`stateFile
      ensures storage.tasks == old(storage.tasks)[taskId := StateOf(old(storage.tasks), taskId).(status := Running)]
      ensures Valid()
    {
      var state := TaskState(taskId);
      state := state.(status := Running);
      storage.SetTaskState(taskId, state);
    }

    /**
     * The end of `_run_task`: the artifact is published under the task's key and the task
     * completed, or the failure is recorded. Publishing copies the artifact into the cache.
     */
    method FinishRun(taskId: string, outcome: Result<DownloadResult, string>)
      requires Valid()
      modifies storage`tasks, storage`stateFile, storage`files, storage`cacheDirExists
      ensures Valid()
      ensures var fin := Finished(StateOf(old(storage.tasks), taskId), outcome, storage.cacheDir, old(storage.files));
              && storage.tasks == old(storage.tasks)[taskId := fin]
              && storage.files == if fin.status == Completed && outcome.value.artifactPath in old(storage.files)
                                  then old(storage.files)[fin.artifactPath.value := old(storage.files)[outcome.value.artifactPath]]
                                  else old(storage.files)
    {
      ghost var before := storage.tasks;
      var state := TaskState(taskId);
      state := Publish(state, outcome);
      assert state == Finished(StateOf(before, taskId), outcome, storage.cacheDir, old(storage.files));
      assert before[taskId := StateOf(before, taskId)][taskId := state] == before[taskId := state];
      storage.SetTaskState(taskId, state);
    }

    /** The outcome of a run applied to the task's record, publishing a successful artifact. */
    method Publish(rec: TaskRecord, outcome: Result<DownloadResult, string>) returns (state: TaskRecord)
      modifies storage`files, storage`cacheDirExists
      ensures state == Finished(rec, outcome, storage.cacheDir, old(storage.files))
      ensures storage.files == if state.status == Completed && outcome.value.artifactPath in old(storage.files)
                               then old(storage.files)[state.artifactPath.value := old(storage.files)[outcome.value.artifactPath]]
                               else old(storage.files)
    {
      if outcome.Failure? {
        state := rec.(status := Failed, error := Some(outcome.error));
      } else if rec.cacheKey.None? {
        state := rec.(status := Failed, error := Some("'cache_key'"));
      } else {
        state := PublishArtifact(rec, outcome.value);
      }
    }

    /** The successful run of a keyed task: its artifact is copied into the cache. */
    method PublishArtifact(rec: TaskRecord, res: DownloadResult) returns (state: TaskRecord)
      requires rec.cacheKey.Some?
      modifies storage`files, storage`cacheDirExists
      ensures state == Finished(rec, Success(res), storage.cacheDir, old(storage.files))
      ensures storage.files == if state.status == Completed && res.artifactPath in old(storage.files)
                               then old(storage.files)[state.artifactPath.value := old(storage.files)[res.artifactPath]]
                               else old(storage.files)
    {
      var cached := storage.PutArtifact(rec.cacheKey.value, res.artifactPath, res.suffix);
      if cached.Failure? {
        state := rec.(status := Failed, error := Some(cached.error));
      } else {
        state := rec.(status := Completed, progress := 1.0, artifactPath := Some(cached.value),
                      metadata := Some(res.metadata));
      }
    }

    /**
     * `_run_task`: marks the task running, applies the downloader's reports in order, then
     * finishes the task. Returns the parameters the downloader was called with.
     */
    method RunTask(taskId: string, req: TaskRequest, reports: seq<Report>, outcome: Result<DownloadResult, string>)
        returns (params: DownloadParams)
      requires Valid()
      modifies storage`tasks, storage`stateFile, storage`files, storage`cacheDirExists
      ensures Valid()
      ensures params == NormaliseParams(req, defaultProxy)
      ensures var reported := Reported(StateOf(old(storage.tasks), taskId).(status := Running), reports);
              var fin := Finished(reported, outcome, storage.cacheDir, old(storage.files));
              && storage.tasks == old(storage.tasks)[taskId := fin]
              && storage.files == if fin.status == Completed && outcome.value.artifactPath in old(storage.files)
                                  then old(storage.files)[fin.artifactPath.value := old(storage.files)[outcome.value.artifactPath]]
                                  else old(storage.files)
    {
      ghost var started := StateOf(storage.tasks, taskId).(status := Running);
      ghost var reported := Reported(started, reports);
      StartRun(taskId);
      params := NormaliseParams(req, defaultProxy);
      ReportAll(taskId, reports);
      UpdateTwice(old(storage.tasks), taskId, started, reported);
      assert storage.tasks[taskId] == reported;
      ghost var files := storage.files;
      assert files == old(storage.files);
      FinishRun(taskId, outcome);
      UpdateTwice(old(storage.tasks), taskId, reported, storage.tasks[taskId]);
    }

    /** The progress callbacks of one run, applied in order to the task's record. */
    method ReportAll(taskId: string, reports: seq<Report>)
      requires Valid() && taskId in storage.tasks
      modifies storage`tasks, storage`stateFile
      ensures Valid()
      ensures storage.tasks == old(storage.tasks)[taskId := Reported(StateOf(old(storage.tasks), taskId), reports)]
    {
      ghost var start := StateOf(storage.tasks, taskId);
      assert storage.tasks == storage.tasks[taskId := start];
      var i := 0;
      while i < |reports|
        invariant 0 <= i <= |reports|
        invariant Valid()
        invariant storage.tasks == old(storage.tasks)[taskId := Reported(start, reports[..i])]
      {
        ReportProgress(taskId, reports[i]);
        assert reports[..i + 1][..i] == reports[..i];
        i := i + 1;
      }
      assert reports[..i] == reports;
    }

    /**
     * `get_status`: None for an unknown id; otherwise the record, with a missing download
     * URL derived from the artifact path and saved, validated as a `TaskStatus`.
     */
    method GetStatus(taskId: string) returns (r: Option<Result<TaskRecord, string>>)
      requires Valid()
      modifies storage`tasks, storage`stateFile
      ensures Valid()
      ensures taskId !in old(storage.tasks) ==> r.None? && storage.tasks == old(storage.tasks)
      ensures taskId in old(storage.tasks) ==>
                var rec := WithDownloadUrl(taskId, old(storage.tasks)[taskId]);
                storage.tasks == old(storage.tasks)[taskId := rec] && r == Some(StatusView(rec))
    {
      var st := storage.GetTaskState(taskId);
      if st.None? {
        return None;
      }
      var rec := st.value;
      if Truthy(rec.artifactPath) && !Truthy(rec.downloadUrl) {
        rec := rec.(downloadUrl := Some(DownloadUrl(taskId, rec.artifactPath.value)));
        storage.SetTaskState(taskId, rec);
      } else {
        assert storage.tasks == old(storage.tasks)[taskId := rec];
      }
      return Some(StatusView(rec));
    }

    /** `list_tasks`: the whole registry. */
    method ListTasks() returns (r: map<string, TaskRecord>)
      ensures r == storage.tasks
    {
      r := storage.IterTasks();
    }
  }
}
