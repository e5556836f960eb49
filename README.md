# jmcomic download server: a verified model of its task bookkeeping

The server takes requests to download comic albums and package them as a zip or a PDF,
optionally re-encoded and optionally password-protected. It keeps a registry of tasks and
reuses earlier work. The repository holds two generations of the engine, and this project
models both:

- **The `app/` engine.** The request model validates fields, coerces album ids and defines
  the task statuses. Storage computes a cache key in which the password appears only as
  its hash, keeps a content-addressed artifact store (`<key>.<suffix>`) and a task registry
  saved best-effort. The task manager deduplicates submissions by cache key: a cache hit,
  a task already holding the key, or a fresh queued task. It then runs a task through
  running to completed or failed, with progress clamped below 1. The downloader keeps one
  lock per album, orders the images recorded by the download events (pages first,
  ascending, ties by name), falls back to a directory scan, stages and re-encodes files
  under numbered names, chooses the zip compressor and applies the password.
- **The single-album engine (`src/main.py`).** It hashes the request parameters and names
  artifact directories and files by a configured rule (`album_id`, `short_hash`, `random`,
  `date`). It looks artifacts up index-first, decides whether an album on disk is
  complete, and runs a per-album state machine that decides what `submit` does. Download
  callbacks count images and finish an album's metadata. Packaging builds or reuses an
  artifact. A random password is generated under a configurable policy, and the download
  link is guarded by the file name.

Outside effects are inputs:

- SHA-256 and SHA-1 hex digests are function-typed parameters.
- JSON serialisation with sorted keys is written out.
- Fresh uuids are parameters known not to be in the registry.
- The `secrets` draws are a function from position to index.
- The clock is a formatted string.
- Directory walks are sequences of paths. The `walk` the app engine's fallback scan takes is the walk of the whole shared download base (`<cache_dir>/work`, app/downloader.py:328-333), which holds every album downloaded there, not only the requested ones.
- Files are a map from path to bytes.

Threads and asyncio are replaced by explicit sequential calls: `submit` records the job it
would start, and the task body is a method called afterwards.

Modules: `Common`, `Decimal`, `Ordering`, `Json` and `Values` hold Python's semantics
(truthiness, `str` order, stable `list.sort`, `json.dumps(sort_keys=True)`, `f"{n:05d}"`).
`AppModels`, `AppStorage`, `AppTasks`, `AppDownloader`, `AppScan` and `AppPackage` follow
`app/`. `LegacyNaming`, `LegacyDisk` and `LegacyTasks` follow `src/main.py`.

Where the code does something its authors evidently did not intend (see Findings), the
model follows the code as written, and separately named members (`Corrected…`,
`CacheHitRecord`) state the intended behaviour and what is proved about it.

## Model

| member | source | states |
|---|---|---|
| AppModels.ParseFormat | app/models.py:10-12 | exactly "zip" and "pdf" are output formats, and each parses back to its own value |
| AppModels.ParseFormatValue | app/models.py:10-12 | every format's value parses back to that format |
| AppModels.ParseStatus | app/models.py:40-45 | exactly the five strings queued, running, completed, failed, canceled are statuses |
| AppModels.StatusValueRoundTrip | app/models.py:40-45 | status values round-trip and distinct statuses have distinct values |
| AppModels.CoerceIds | app/models.py:32-37 | a lone int or str id becomes a one-element list; None becomes []; a sequence is kept as is |
| AppModels.InvalidFields | app/models.py:16-30 | a field is rejected iff album_ids is missing, the format is not zip/pdf, quality is outside 1..100, or compression (default 6) is outside 0..9 |
| AppModels.Validate | app/models.py:15-37 | validation succeeds iff no field is rejected; a valid request satisfies the bounds and carries the coerced ids; a failure lists the rejected fields |
| AppModels.ValidateDefaults | app/models.py:16-30 | a request naming only its ids gets zip, no quality, no encryption, no password, compression 6, cache on, no proxy, no option file |
| AppModels.ValidateAcceptsNoAlbums | app/models.py:32-37 | an empty id list is accepted: nothing requires an album |
| Json.Remove | app/storage.py:64-65 | popping a key leaves the same dict without that key |
| Json.Put | app/storage.py:67 | setting a key adds or replaces just that key |
| Json.SortKeysIgnoresInsertionOrder | app/storage.py:68 | two dicts with the same contents sort to the same entry list |
| Json.SortKeys | app/storage.py:68 | the entries are rearranged, none gained or lost, into key order |
| Json.DumpSortedIgnoresInsertionOrder | app/storage.py:68 | the sorted-key JSON text depends only on the dict's contents, not on insertion order |
| AppStorage.SafePayload | app/storage.py:64-67 | the hashed copy never holds "password"; a None or absent password adds nothing; a str password is replaced by password_hash = sha256(password); any other value fails |
| AppStorage.CacheKey | app/storage.py:61-70 | the key exists exactly when the safe payload can be built |
| AppStorage.CacheKeyIgnoresInsertionOrder | app/storage.py:68-70 | payloads with the same contents get the same key, whatever their insertion order |
| AppStorage.CacheKeySeesOnlyPasswordHash | app/storage.py:62-70 | payloads that agree except on passwords hashing alike get the same key: the plaintext never reaches the hash |
| AppStorage.ArtifactName | app/storage.py:88 | the published name is the key, a dot, then the suffix with leading dots stripped |
| AppStorage.LoadedTasks | app/storage.py:32-38 | a missing or unreadable state file yields an empty registry |
| AppStorage.Storage.constructor | app/storage.py:24-29 | the registry starts as what the state file holds |
| AppStorage.Storage.SaveState | app/storage.py:40-45 | a writable state file then holds exactly the registry; a failed write leaves the old file |
| AppStorage.Storage.GetTaskState | app/storage.py:47-49 | the stored record of a known id, None for an unknown one |
| AppStorage.Storage.SetTaskState | app/storage.py:51-54 | the id maps to the new record, every other id is unchanged, and the file is saved |
| AppStorage.Storage.IterTasks | app/storage.py:56-58 | a copy of the whole registry |
| AppStorage.Storage.CachedArtifact | app/storage.py:72-83 | None when the cache dir is missing; otherwise the first listed file named `key.*` that still exists, with entry key equal to the key; None only when no listed name qualifies |
| AppStorage.Storage.CacheLookup | app/storage.py:72-83 | nothing when the cache directory is missing; a found entry carries the asked key and names a file that exists |
| AppStorage.Storage.PutArtifact | app/storage.py:85-95 | publishes to cache_dir/ArtifactName; no copy when source and destination coincide; otherwise the destination gets the source's bytes and the source stays; a missing source fails with `[Errno 2] No such file or directory: '<src>'`, the `str` of the error `read_bytes` raises |
| AppStorage.PublishThenLookup | app/storage.py:72-95 | after publishing an existing file, a lookup of the same key hits |
| AppTasks.CachePayload | app/tasks.py:47-56 | the payload has eight fields and its password is the request's or "" |
| AppTasks.PayloadKeysDistinct | app/tasks.py:47-56 | the eight payload keys are pairwise distinct |
| AppTasks.TaskCacheKey | app/tasks.py:47-57 | hashing the payload of any request succeeds: its password is always a str |
| AppTasks.CacheKeyOfEquivalentRequests | app/tasks.py:47-57 | permuted ids, ids 5 vs "5", None vs "" for password/proxy/option file, and the cache flag do not change the key |
| AppTasks.StateOf | app/tasks.py:29-43 | an unknown id gets a queued record with progress 0 and no request; a known id gets its stored record |
| AppTasks.NewTaskRecord | app/tasks.py:84-88 | a new task is queued with its request and key |
| AppTasks.HitId | app/tasks.py:63 | the id already mapped to the key is reused when non-empty, else the fresh uuid |
| AppTasks.CacheHitRecordAsWritten | app/tasks.py:65-74 | as written: a cache hit sets completed, progress 1.0 and the cached path and leaves every other field as it was, so no request is added |
| AppTasks.CacheHitRecord | app/tasks.py:62-74 | corrected (see Findings): a cache hit gives completed, progress 1.0 and the cached path, and also records the request and the key; id, error and metadata are kept |
| AppTasks.StatusView | app/tasks.py:158 | a record converts to a TaskStatus iff it has a request |
| AppTasks.DownloadUrlDerivation | app/tasks.py:152-157 | deriving the URL is idempotent and changes only the URL; a record with an artifact ends with a URL whose last component is the artifact's file name |
| AppTasks.WithDownloadUrl | app/tasks.py:152-157 | only the URL can change; a record that already has a URL is returned unchanged; a record with an artifact always ends with a URL |
| AppTasks.AsWrittenCacheHitUnreadable | app/tasks.py:63-75 | the cache-hit record of a fresh id, as written, cannot be read back by get_status |
| AppTasks.CacheHitRecordReadable | app/tasks.py:63-75 | the corrected cache-hit record reads back as completed with progress 1.0 and a URL |
| AppTasks.DedupReadableStore | app/tasks.py:24 | storing a record with a request keeps every deduplicated task readable |
| AppTasks.AsWrittenCacheHitBreaksReadable | app/tasks.py:62-74 | as written, a cache hit on a fresh id leaves a deduplicated task whose status cannot be read back (also line 158) |
| AppTasks.CacheHitKeepsReadable | app/tasks.py:62-74 | with the corrected record, a cache hit keeps every deduplicated task readable |
| AppTasks.Clamp | app/tasks.py:106 | the result lies in [0, 0.99]: values inside are kept, values below become 0, values above become 0.99 |
| AppTasks.Reported | app/tasks.py:104-109 | reports never touch id, status, request, key or artifact; after at least one report the progress lies in [0, 0.99] |
| AppTasks.ReportedFields | app/tasks.py:104-109 | progress reports change only progress and message; the progress is the clamp of the last report, in [0, 0.99] |
| AppTasks.Finished | app/tasks.py:124-146 | a run ends completed or failed and keeps id, request and key; a failed run carries an error and its previous progress |
| AppTasks.FinishedStatus | app/tasks.py:124-146 | a run ends completed or failed, keeping request and key; completed iff the download succeeded, the key is present and the artifact could be published |
| AppTasks.FinishedFields | app/tasks.py:124-146 | completed means progress 1.0, the download's metadata and an artifact named `<key>.…`; failed means an error, with progress and artifact unchanged |
| AppTasks.FailedRunBelowOne | app/tasks.py:104-146 | a failed run ends at most 0.99 exactly when it reported progress or its record started at most 0.99; a record a cache hit already completed (progress 1.0) whose scheduled run fails before any report stays at 1.0 |
| AppTasks.NormalisedParams | app/tasks.py:112-121 | compression None or 0 becomes 6 and others are kept (so 1..9); a None proxy falls back to the default, and "" is kept; the id count is unchanged |
| AppTasks.NormaliseParams | app/tasks.py:112-121 | one id string per requested id; the compression is never 0; a request proxy is kept; an option file, when passed, is non-empty |
| AppTasks.TaskManager.constructor | app/tasks.py:19-24 | the dedup table starts empty, so every deduplicated task is registered |
| AppTasks.TaskManager.TaskState | app/tasks.py:29-43 | returns StateOf and stores it, so an unknown id is registered with the default record |
| AppTasks.TaskManager.Submit | app/tasks.py:45-93 | cache hit (cache on, artifact found): the as-written completed record (no request), duplicate, id reused or fresh, key mapped to it; dedup hit: that task with its status, duplicate, nothing scheduled; otherwise: fresh queued task with request and key, not duplicate, key mapped, one run scheduled |
| AppTasks.TaskManager.SubmitKeyed | app/tasks.py:59-93 | the three branches of Submit once the key is computed; every deduplicated task stays registered |
| AppTasks.TaskManager.LookupCache | app/tasks.py:60 | the store is consulted only when the request allows the cache |
| AppTasks.TaskManager.ReturnExisting | app/tasks.py:78-81 | the task holding the key and its current status, registry unchanged |
| AppTasks.TaskManager.CompleteFromCache | app/tasks.py:61-75 | the key maps to HitId's id, whose record becomes CacheHitRecordAsWritten of its state: no request is added |
| AppTasks.TaskManager.RegisterTask | app/tasks.py:84-93 | a fresh queued record with request and key, the key mapped to it, its run scheduled |
| AppTasks.TaskManager.ReportProgress | app/tasks.py:104-109 | one report sets the clamped progress and the message of the task's record |
| AppTasks.TaskManager.StartRun | app/tasks.py:96-98 | the task's record becomes running |
| AppTasks.TaskManager.FinishRun | app/tasks.py:124-146 | the record becomes Finished(...), and the cache gains a copy of the artifact exactly when the task completed by copying |
| AppTasks.TaskManager.ReportAll | app/tasks.py:104-109 | the reports of one run are applied in order: the record becomes Reported(record, reports) |
| AppTasks.TaskManager.RunTask | app/tasks.py:95-146 | running, then every report in order, then finished; the downloader gets NormaliseParams |
| AppTasks.TaskManager.GetStatus | app/tasks.py:148-158 | None for an unknown id; otherwise the record with its derived URL is stored and returned as a TaskStatus, or as the validation failure |
| AppTasks.TaskManager.ListTasks | app/tasks.py:160-161 | the whole registry |
| AppDownloader.AsList | app/downloader.py:84 | a list is kept, any other value is wrapped in a one-element list |
| AppDownloader.ListOf | app/downloader.py:87 | `list(tags)`: a list gives its items, a dict its keys, each key once and nothing else; any other value raises |
| AppDownloader.AlbumMetaOf | app/downloader.py:75-96 | id and title from the first present attribute; authors absent iff `author or authors` is None (author falsy and authors missing or None), else as a list, so an empty authors list is kept as []; tags absent for None, a str wrapped, a list kept, a dict listed by its keys (once each); bool or int tags make the hook swallow the error and report nothing |
| AppDownloader.AuthorsAlwaysList | app/downloader.py:82-84 | a lone author string is reported as a one-element list |
| AppDownloader.AlbumLocks.constructor | app/downloader.py:149 | the lock table starts empty |
| AppDownloader.AlbumLocks.GetAlbumLock | app/downloader.py:155-164 | an album's existing lock is returned with the table unchanged; otherwise a new lock is created and entered; the table only grows |
| AppDownloader.LockIsShared | app/downloader.py:155-164 | two lookups of one album, with any other lookup between, return the identical lock, and every lock that existed before is kept as it was |
| AppDownloader.DownloadProgress | app/downloader.py:372-374 | the fraction is at least 0.05 and is 0.05 only at index 0, which the loop never reports since it counts albums from 1; so every report lies strictly above 0.05 (DownloadProgressBounds gives the 0.45 bound) |
| AppDownloader.DownloadProgressBounds | app/downloader.py:372-374 | each per-album progress value lies in (0.05, 0.45] |
| AppDownloader.DownloadAlbums | app/downloader.py:370-384 | one report per album, the i-th equal to 0.05+0.4·i/n; every album gets a lock, and every lock that existed before is kept as it was |
| AppDownloader.IdText | app/downloader.py:350 | the album id text is empty exactly for a missing id, 0 or "" |
| AppDownloader.ImageCollector.constructor | app/downloader.py:347 | no images are recorded at first |
| AppDownloader.ImageCollector.OnImageEvent | app/downloader.py:349-363 | only "after" events with a non-empty album id append (path, page, filename) to that album's list; progress is reported iff there is an album id and an image id |
| AppDownloader.ImageCollector.SelectImages | app/downloader.py:389-394 | the selection is SelectedPaths, and each listed album's list is left sorted in place |
| AppDownloader.KeyLessIsStrictTotal | app/downloader.py:393 | tuple order on (page is None, page or 0, name) is a strict total order |
| AppDownloader.ItemLeTotal | app/downloader.py:393 | the sort's comparison is a total preorder, so the stable sort is well defined |
| AppDownloader.SortedAlbumsAt | app/downloader.py:389-394 | after the loop a listed album's list is its sorted list and others are untouched |
| AppDownloader.SortedAlbums | app/downloader.py:389-394 | the in-place sorts keep the same albums recorded |
| AppDownloader.SelectedFromRequested | app/downloader.py:389-394 | every selected path is a recorded path of one of the requested albums (the converse is SelectedCount) |
| AppDownloader.SortAgain | app/downloader.py:393 | sorting again after earlier in-place sorts gives the same order |
| AppDownloader.SortedItemsOrder | app/downloader.py:392-393 | a permutation in which numbered pages come first, ascending, unnumbered last, and ties are ordered by filename-or-path |
| AppDownloader.SelectedCount | app/downloader.py:394 | every recorded item of a listed album is selected |
| AppScan.Suffix | app/downloader.py:251 | `Path.suffix`: empty, or a dot-led proper tail of the name |
| AppScan.ImageFiles | app/downloader.py:249-252 | only files of the walk with an image suffix are kept |
| AppScan.PathLessIsStrictTotal | app/downloader.py:253 | pathlib's component order is a strict total order |
| AppScan.PathLeIsTotal | app/downloader.py:253 | the scan's sort comparison is a total preorder and antisymmetric |
| AppScan.CollectImages | app/downloader.py:245-254 | the walk's image files, sorted by path |
| AppScan.CollectedImages | app/downloader.py:245-254 | the scan is sorted, holds exactly the walk's files with an image suffix, and ignores the walk's order |
| AppPackage.ReencodedPaths | app/downloader.py:261-262 | one output per input |
| AppPackage.ReencodedNamesDistinct | app/downloader.py:262 | different positions give different output files |
| AppPackage.ReencodedPathsDistinct | app/downloader.py:261-262 | the outputs of one call are pairwise different, so no output overwrites another |
| AppPackage.StageOne | app/downloader.py:263-272 | an image can be staged iff it decodes or exists; it is re-encoded when it decodes and copied otherwise |
| AppPackage.ReencodeImages | app/downloader.py:256-273 | image i becomes staging/{i+1:05d}.jpg, and made[i] says it was re-encoded when it decodes, copied otherwise; the call fails iff some image can be neither decoded nor copied, with the `FileNotFoundError` text naming the first such image, whose copy raises |
| AppPackage.StagedName | app/downloader.py:445 | a staged name is one path component starting `{index:05d}_` |
| AppPackage.ArcBasename | app/downloader.py:288 | an entry's file name is its staged name (also line 445) |
| AppPackage.StagedItems | app/downloader.py:437-450 | at most one link per item, indices consecutive from the start value |
| AppPackage.StagedAlbums | app/downloader.py:433-450 | the staging index runs from 1 across all albums |
| AppPackage.StageAlbum | app/downloader.py:437-450 | the inner staging loop computes StagedItems |
| AppPackage.StageAlbums | app/downloader.py:433-450 | the staging loop computes StagedAlbums |
| AppPackage.StagedItemsPaths | app/downloader.py:437-443 | an album's staged files are its existing recorded images, in order; missing ones are skipped |
| AppPackage.StagedAlbumsPaths | app/downloader.py:389-394 | after the sorts, the staging links exactly the selected images that exist, in selection order (also lines 433-450) |
| AppPackage.LinksDistinct | app/downloader.py:445 | consecutively numbered staged files have pairwise distinct entry names |
| AppPackage.PaddedPrefixesDiffer | app/downloader.py:445 | names with different `{n:05d}_` prefixes differ |
| AppPackage.ZipMethodFor | app/downloader.py:279 | LZMA iff compression >= 7, deflate otherwise |
| AppPackage.ArchivePassword | app/downloader.py:281-283 | a password is applied iff encrypt is set and the password is non-empty, and it is the request's (also lines 299-301, 422, 454, 466) |
| AppPackage.ArtifactBaseName | app/downloader.py:412 | the base name starts "JM_" |
| AppPackage.SuffixFor | app/downloader.py:413 | the suffix is "zip" iff the format is "zip", else "pdf" (also lines 459, 467) |
| AppPackage.Selection | app/downloader.py:389-398 | the event-recorded selection when non-empty, else the sorted directory scan |
| AppPackage.ReencodedMembers | app/downloader.py:285-289 | one zip entry per re-encoded file |
| AppPackage.ScanItems | app/downloader.py:437-446 | corrected staging only: each scanned path becomes an item without page or file name, so the staging loop can link it under its own name |
| AppPackage.PackLinks | app/downloader.py:426-450 | as written: the event lists after the selection sorts, staged album by album and numbered from 1; the directory scan is not consulted |
| AppPackage.CorrectedPackLinks | app/downloader.py:426-450 | corrected: the same staging when the events selected something, else the scanned selection, numbered from 1 (also lines 395-398) |
| AppPackage.FirstUnstageable | app/downloader.py:260-272 | the index of the first image that neither decodes nor exists, every image before it being stageable: the copy that raises |
| AppPackage.FirstMissing | app/downloader.py:297 | the index of the first missing page, every page before it present: the read that raises |
| AppPackage.NoSuchFileIsNotNoImages | app/downloader.py:296-297 | a missing file's error text is never the converter's empty-input error, so the two failures are told apart |
| AppPackage.ReadPages | app/downloader.py:297 | every page is read in order; a missing page fails the call with the `FileNotFoundError` text naming the first missing page |
| AppPackage.SelectForPackage | app/downloader.py:389-398 | the selection is Selection (events first, else the sorted scan), and each listed album's list is left sorted |
| AppPackage.BuildPackage | app/downloader.py:400-468 | the archive is ArchiveOf for the selection, staging the sorted event lists (never the scan) |
| AppPackage.DownloadAndPackage | app/downloader.py:386-479 | the result is PackageOf of the recorded lists (as-written staging), and those lists are left sorted |
| AppPackage.ArchiveOf | app/downloader.py:400-468 | a re-encoding with an unstageable image fails naming the first one, a PDF of the originals with a missing page fails naming the first missing page, and a PDF of an empty selection gets the converter's error; the archive kind follows the format; ids and metadata pass through; a zip of the originals always succeeds with the staged members |
| AppPackage.PackageOf | app/downloader.py:386-479 | over the selection, a re-encoding fails naming the first unstageable image and a PDF of the originals the first missing page; a PDF gets the converter's error whenever neither the events nor the scan selected anything; the archive kind follows the format; a zip without re-encoding always succeeds with the as-written staging's members |
| AppPackage.ZipHoldsRecorded | app/downloader.py:426-456 | as written: a zip of the originals holds exactly the existing event-recorded images, under distinct names whose `{n:05d}_` prefixes number them in selection order; when the events selected something that is the whole selection |
| AppPackage.ZipHoldsSelection | app/downloader.py:426-456 | corrected: the corrected staging holds exactly the selected images that exist, under distinct names whose `{n:05d}_` prefixes number them in selection order, whether they came from events or from the scan |
| AppPackage.PackagedZipHoldsSelection | app/downloader.py:413-460 | as written: a zip without re-encoding always succeeds and holds the existing event-recorded images; when the events recorded none it is empty, whatever the scan found |
| AppPackage.ReencodedPackage | app/downloader.py:400-424 | with a quality the package succeeds iff every image can be staged and, for a PDF, there is at least one; the zip has one distinctly named entry per image; the PDF's pages are the re-encoded files (also lines 461-468) |
| AppPackage.ReencodedMembersDistinct | app/downloader.py:262 | re-encoded zip entries have pairwise distinct names (also lines 285-289) |
| AppPackage.PackageFailures | app/downloader.py:263-272 | a package fails iff a re-encoded image is neither decodable nor present, a PDF of the originals lacks a page, or a PDF has no image; the converter's error is raised exactly in the last case (also lines 294-297, 437-443) |
| AppPackage.PackageShape | app/downloader.py:411-479 | the archive kind follows the format; path is work/JM_…_ts.suffix; password iff encrypt with a non-empty password; LZMA iff level >= 7; ids and metadata are passed through |
| AppPackage.AsWrittenZipDropsScan | app/downloader.py:395-398 | as written, staging reads only the event lists, so a scan-based zip without re-encoding stages nothing (also lines 433-450) |
| AppPackage.ScanOnlyZipIsEmpty | app/downloader.py:395-398 | one album, no events, one image on disk: the selection holds it but the as-written staging is empty (also lines 433-450) |
| Ordering.SortSorted | app/downloader.py:253 | the stable insertion sort modelling `list.sort` yields a sorted list |
| Ordering.SortIgnoresOrder | app/downloader.py:253 | under an antisymmetric order, sorting depends only on the multiset of elements |
| Ordering.Sort | app/downloader.py:393 | sorting rearranges the elements: the same multiset, the same length |
| Ordering.SortStable | app/downloader.py:393 | the sort is stable: the elements that tie with any given one keep their input order (for items, equal page and name keep their event order) |
| Ordering.SortedKeys | app/downloader.py:87 | a dict's keys listed once each, every key, in ascending order |
| Ordering.StrLeIsTotal | src/main.py:567 | `str` comparison is a total preorder and antisymmetric |
| Decimal.ZeroPaddedRoundTrip | app/downloader.py:262 | `{n:05d}` denotes n (also line 445) |
| Decimal.ZeroPaddedInjective | app/downloader.py:262 | different numbers pad to different texts (also line 445) |
| LegacyNaming.HashKeysDistinct | src/main.py:472-479 | the six hashed keys are pairwise distinct |
| LegacyNaming.HashPayload | src/main.py:471-479 | password_hash is sha256 of a non-empty password, else null; six fields, no proxy |
| LegacyNaming.HashParamsIgnores | src/main.py:471-481 | the proxy, and passwords that hash alike (missing vs empty included), do not change the hash |
| LegacyNaming.PyPrefix | src/main.py:159 | Python slicing `s[:n]`: a prefix of length n clipped to the string, with negative n counting from the end (also lines 536, 587) |
| LegacyNaming.RandomString | src/main.py:169 | exactly n characters (none for n <= 0), all from the charset (also line 728) |
| LegacyNaming.PyInt | src/main.py:713 | `int(v)`: ints are kept; None, lists and dicts fail |
| LegacyNaming.PyIntOfDecimal | src/main.py:713 | signed and unsigned decimal numerals parse to their value |
| LegacyNaming.RandomName | src/main.py:164-169 | fails iff a positive length meets an empty charset; otherwise exactly max(length, 0) characters of the charset |
| LegacyNaming.ComputeDirName | src/main.py:152-170 | default rule album_id; album_id or an unknown rule gives the id; short_hash gives a prefix of sha1(id); date gives the date; random gives RandomName |
| LegacyNaming.MemoDirName | src/main.py:172-177 | a non-empty memo entry is reused unchanged; otherwise the computed name is recorded |
| LegacyNaming.MemoDirNameStable | src/main.py:172-177 | once a non-empty name is recorded, later calls return it whatever a new computation gives; other albums are untouched |
| LegacyNaming.BuildBase | src/main.py:581-599 | default rule short_hash; album_id, short_hash, random and date as named; an unknown rule gives the first 8 hash characters |
| LegacyNaming.LookupBase | src/main.py:530-539 | a name is reconstructed iff the rule is album_id or short_hash |
| LegacyNaming.LookupFindsBuiltName | src/main.py:530-542 | under a deterministic rule the lookup reconstructs exactly the built name; under any other rule it reconstructs nothing (also lines 581-599) |
| LegacyNaming.ArtifactFileName | src/main.py:601-608 | the file name is base.zip or base.pdf |
| LegacyNaming.PasswordPolicy | src/main.py:705-719 | length 12 when missing or unparsable, else int(length); charset the configured non-empty string, else the default; never empty |
| LegacyNaming.GeneratePassword | src/main.py:721-728 | exactly the policy's length (none below 1), every character from its charset |
| LegacyNaming.DefaultPassword | src/main.py:705-728 | with no policy, 12 characters of the default charset |
| LegacyDisk.NameLeIsTotal | src/main.py:567 | ordering by file name is a total preorder |
| LegacyDisk.WalkImageFiles | src/main.py:560-564 | the loop over the walk keeps exactly the files with an image ending (WalkImages), in walk order |
| LegacyDisk.WalkImages | src/main.py:560-564 | only files of the walk with an image ending are kept |
| LegacyDisk.CollectImagesByName | src/main.py:558-568 | as written: the walk's image files (case-insensitive endings), stably sorted by file name alone |
| LegacyDisk.EntryNamesAsWritten | src/main.py:631-633 | as written: one entry name per image, its file name |
| LegacyDisk.ChaptersInterleaved | src/main.py:558-568 | two chapter directories with renumbered pages: the name sort interleaves chapters and two entries share a name (also lines 631-633) |
| LegacyDisk.ChaptersInterleavedExample | src/main.py:558-568 | A/00001, A/00002, B/00001 collect as A1, B1, A2, and the first two entries are both 00001.jpg (also lines 631-633) |
| LegacyDisk.CollectImagesByPath | src/main.py:558-568 | corrected: the walk's image files sorted by path |
| LegacyDisk.CollectedByPath | src/main.py:558-568 | the corrected collection is sorted, holds exactly the walk's image files, and ignores walk order |
| LegacyDisk.EntryName | src/main.py:631-633 | corrected entry names start with the zero-padded position |
| LegacyDisk.EntryNames | src/main.py:631-633 | corrected: the i-th entry is numbered i+1 |
| LegacyDisk.EntryNamesDistinct | src/main.py:631-633 | corrected entry names never collide |
| LegacyDisk.IsAlbumComplete | src/main.py:489-513 | complete iff at least one image, meta is a dict with truthy "complete", and no positive int page_count exceeds the image count; an unreadable meta counts as incomplete |
| LegacyDisk.CompleteStaysComplete | src/main.py:489-513 | more images never make a complete album incomplete |
| LegacyDisk.WithJpgSuffix | src/main.py:646 | the path keeps its stem and ends ".jpg" |
| LegacyDisk.MakeZip | src/main.py:624-634 | as written: one entry per image, in order, each under its file's own name (names may repeat); a password iff it is non-empty |
| LegacyDisk.CorrectedMakeZip | src/main.py:624-634 | corrected: one entry per image, in order, under distinct numbered names |
| LegacyDisk.MakePdf | src/main.py:635-661 | one page per image, in order (the images themselves without a quality); a password iff it is non-empty |
| LegacyDisk.PdfPage | src/main.py:644-646 | without a quality the page is the image itself; otherwise the image or a .jpg copy of it |
| LegacyDisk.IndexEntry | src/main.py:523-525 | an index entry names a non-empty file |
| LegacyDisk.GetArtifact | src/main.py:515-542 | no directory gives None; an index entry decides alone (its file if present); otherwise the rule's reconstructed name if its file is present; anything found is present and non-empty |
| LegacyDisk.RecordInIndex | src/main.py:610-619 | a missing or dict index gains hash → filename and keeps other entries; an unreadable or non-dict index is left alone |
| LegacyDisk.LookupAfterBuild | src/main.py:515-542 | after a build, the lookup of that hash finds the file when the index could record it or the rule is deterministic; otherwise nothing is found (also lines 601-619) |
| LegacyDisk.AlbumIdNameShared | src/main.py:533-542 | under album_id, a lookup for other parameters returns the artifact built for the first (also lines 584-585) |
| LegacyTasks.RequestMetadata | src/main.py:195-201 | the task metadata holds exactly cache_hash, output_format, quality, encrypt, compression, proxy |
| LegacyTasks.ArtifactUrl | src/main.py:209 | the URL is non-empty and under the static route (also line 403) |
| LegacyTasks.Decide | src/main.py:205-253 | an existing artifact decides first; a complete album on disk is packaged with its meta; a fresh download starts only when nothing is complete, running or done |
| LegacyTasks.Answer | src/main.py:205-253 | status and stage agree; the answer is done iff an artifact was found; only status, stage, file name, URL and the duplicate flag change |
| LegacyTasks.AlbumAfter | src/main.py:218-253 | an artifact leaves the album state alone; every other branch records one; a download start marks it downloading; a complete album is done with its meta |
| LegacyTasks.JobFor | src/main.py:218-253 | no thread for an artifact or a raising count; a thread for the task and its hash otherwise; a download thread exactly when starting a download |
| LegacyTasks.DuplicateIffReused | src/main.py:205-256 | duplicate iff an artifact exists, the album is complete on disk, or a download is running; status equals stage |
| LegacyTasks.SecondSubmitJoins | src/main.py:235-256 | after a download starts, a second submit awaits it; a done album is packaged; a failed or idle album downloads again |
| LegacyTasks.ArtifactAnsweredAtOnce | src/main.py:205-215 | done iff an artifact exists; that answer is downloadable, leaves the album state alone and starts no thread |
| LegacyTasks.DoneAnswerReady | src/main.py:205-215 | a done answer has a URL and a file name, and keeps the task id |
| LegacyTasks.ImageSeen | src/main.py:325-338 | progress +1; a truthy URL is appended to a list-valued images entry (created empty when missing); other fields and keys are unchanged |
| LegacyTasks.FinishedMeta | src/main.py:294-308 | page_count is the existing truthy value, else the disk count if non-zero, else the recorded image count; total_images is the disk count; complete is true; other keys are kept |
| LegacyTasks.FinishedMetaCompletes | src/main.py:304-309 | the written meta makes the album complete iff it has an image and no positive int page_count exceeds it (also lines 489-513) |
| LegacyTasks.FinalPassword | src/main.py:577-579 | the request's password, or a generated one of the policy's length when encrypting without one |
| LegacyTasks.RecordPassword | src/main.py:544-550 | archives and index untouched; the .pwd entry is written exactly when encrypting with a non-empty password (also line 621) |
| LegacyTasks.EncryptionGate | src/main.py:577-579 | the artifact is protected, and a .pwd records the same password, iff encrypt is set with a non-empty final password; without encrypt nothing is recorded (also lines 621, 544-550, 628, 658) |
| LegacyTasks.ArchiveFor | src/main.py:601-661 | as written: a zip iff the format is "zip", with one entry per image under its file's own name; a PDF page per image; a password iff encrypting with a non-empty one |
| LegacyTasks.CorrectedArchiveFor | src/main.py:558-661 | corrected: the images sorted by path, then the numbered zip; the kind follows the format and a password is set iff encrypting with a non-empty one |
| LegacyTasks.CorrectedBuildOrdered | src/main.py:558-634 | corrected: the images are in path order, the zip has one entry per image under distinct names, and a PDF without quality has exactly the images as pages |
| LegacyTasks.StoredDir | src/main.py:601-622 | the built file joins the archives (others unchanged), the index records it, and the .pwd is written when encrypting with a non-empty password and never without encrypt |
| LegacyTasks.DownloadLink | src/main.py:689-696 | succeeds iff the task exists with a URL and a file name equal to the one asked, returning the URL; otherwise "artifact not found" or "filename mismatch" |
| LegacyTasks.DoneTasksDownloadable | src/main.py:403-410 | a done task's link is served for its own file name and no other (also lines 689-696) |
| LegacyTasks.Packaged | src/main.py:403-425 | done with file name and URL; the album's metadata merged in; total_images from the album if truthy, else the disk count; a stored password replaces the task's |
| LegacyTasks.LegacyTaskManager.constructor | src/main.py:123-134 | empty tasks, album states and caches; the loaded artifact map |
| LegacyTasks.LegacyTaskManager.Submit | src/main.py:182-256 | registers the task and answers per the decision; album state, started thread and workspace follow it; a failing image count leaves the task queued and returns the error |
| LegacyTasks.LegacyTaskManager.SubmitHashed | src/main.py:195-256 | the same as Submit once the hash is known |
| LegacyTasks.LegacyTaskManager.SubmitDecided | src/main.py:203-256 | the task is answered per the decision; album state and started thread are AlbumAfter and JobFor; a raising count leaves the task queued |
| LegacyTasks.LegacyTaskManager.RegisterAnswer | src/main.py:184-256 | the task is stored queued, then answered unless counting raises, in which case it stays queued and the call fails with the TypeError text "object of type '<type>' has no len()" for the value under "images" |
| LegacyTasks.LegacyTaskManager.FollowDecision | src/main.py:203 | the workspace exists; album state and scheduled thread follow AlbumAfter and JobFor (also lines 218-253) |
| LegacyTasks.LegacyTaskManager.GetTask | src/main.py:258-260 | the task's record iff known |
| LegacyTasks.LegacyTaskManager.OnBeforeImage | src/main.py:325-338 | a known album is updated by ImageSeen; an unknown one is ignored; nothing else changes |
| LegacyTasks.LegacyTaskManager.OnAfterAlbum | src/main.py:287-309 | a known album becomes done with the disk count and FinishedMeta, which is written to its meta.json; an unknown one is ignored |
| LegacyTasks.LegacyTaskManager.ArtifactDirFor | src/main.py:172-180 | a non-empty remembered name is returned unchanged; otherwise the computed name is returned and remembered |
| LegacyTasks.LegacyTaskManager.BuildArtifact | src/main.py:570-622 | as written: images by file name, each zip entry under its own file name; no images: fails "no images found for packaging" and changes nothing; a naming failure propagates; success stores the artifact, index entry and password, caches the name, and a later lookup finds it whenever the index or the rule allows; result, directories and cache are exactly BuildOutcome, DirsAfterBuild and CacheAfterBuild |
| LegacyTasks.LegacyTaskManager.StoreArtifact | src/main.py:574-622 | the as-written build once images exist: the same storage, cache and lookup guarantees, with result, directories and cache exactly BuildOutcome, DirsAfterBuild and CacheAfterBuild |
| LegacyTasks.LegacyTaskManager.PackageTask | src/main.py:396-431 | the task ends done or failed; a done task's file is in the album's artifacts; an existing artifact is reused with directories and cache unchanged; otherwise the tasks become MarkedRecord of the build's outcome and the directories and cache DirsAfterBuild and CacheAfterBuild; other tasks are untouched |
| LegacyTasks.LegacyTaskManager.BuildAndMark | src/main.py:402-431 | the build branch of packaging: the tasks become MarkedRecord of BuildOutcome, the directories DirsAfterBuild and the cache CacheAfterBuild |
| LegacyTasks.LegacyTaskManager.MarkFailed | src/main.py:426-431 | a known task becomes failed with the error |
| LegacyTasks.LegacyTaskManager.MarkDone | src/main.py:403-425 | a known task becomes Packaged with the artifact's URL |
| LegacyTasks.LegacyTaskManager.MarkBuilt | src/main.py:403-431 | a build's result marks the task done with its file, or failed with the error; the new task is exactly MarkedRecord, and no task is added or removed |
| LegacyTasks.BuildOutcome | src/main.py:570-600 | `_build_artifact`'s result: no images raises "no images found for packaging", a naming rule that cannot produce a base raises its error, otherwise the base with the format's suffix |
| LegacyTasks.DirsAfterBuild | src/main.py:570-622 | no images leaves the artifact directories untouched; otherwise the album's directory exists afterwards, other albums' directories are unchanged, and a successful build stores the artifact with the images, format and password it was built from |
| LegacyTasks.CacheAfterBuild | src/main.py:544-547 | a successful build maps the album's hash to the file, keeping its other hashes and the other albums; a failed one leaves the cache alone (also line 621) |
| LegacyTasks.MarkedRecord | src/main.py:403-431 | the packaged task is done with the file and its URL `<route>/<album>/<file>`, or failed with the error's text and otherwise unchanged; the task id is kept |
| LegacyTasks.StoredDirFound | src/main.py:601-622 | the stored file is present and non-empty, and found by the lookup when the index or the rule allows (also lines 515-542) |

## Left out

- HTTP transport (the FastAPI routes of app/main.py and src/main.py, the MCP server): outside the bookkeeping. Only the `download_link` guard is modelled.
- The proxy check of `submit_task` in src/main.py (`":"` in the proxy): route-level validation.
- Configuration loading, directory bootstrapping, `_build_option`, `_prefetch_metadata` and `_download_album`: YAML/env parsing and calls into the jmcomic library, which is not part of this model.
- Threads, asyncio and locking: `submit` records the job it would start, and the task body is an explicit method. The polling loop of `_await_and_package` and the bodies of `_download_then_package` / `_await_and_package` are not modelled. Lock exclusivity is not claimed; only the get-or-create table of album locks is modelled.
- The hook plumbing of both engines beyond what is modelled: `on_before_album`, the photo callbacks, and `on_after_image` (a no-op) in src/main.py; `after_image` progress reports in app/.
- Timestamps (`created_at`, `updated_at`, mtime, size) and the `message` of progress reports other than as data.
- Cryptographic hashes, uuid, `secrets` and the clock are parameters; image decoding, PDF conversion and zip/PDF encryption are black boxes, except that converting no image to a PDF fails (with an error text of the model's own, NoImages). Archives are modelled by their entries, pages, compressor and password.
- The persistence of the artifact map (`_load_artifact_map` / `_save_artifact_map`): the map is a field given at construction.
- `_artifact_dir_for` is modelled (ArtifactDirFor), but nothing in src/main.py calls it: builds and lookups use `artifacts_dir/<album id>` directly. Its default rule "album_id" also differs from the "short_hash" default of `_build_artifact` and `_get_artifact`. Both are modelled as written.
- The album status "processing" is tested by `submit` but never assigned by any code path; it is kept as a state that is never entered.
- `TaskStatus.progress` in src/main.py is never updated after creation; it stays 0.
- `_make_pdf` with a quality writes JPEG copies next to the originals inside the workspace, which later scans count; the model passes those paths to the PDF but does not add the files to the workspace.
- `_collect_images` in `_build_artifact` creates the workspace when it is missing; the model treats a missing workspace as an empty walk.
- `_is_album_complete` swallows any exception; the model covers an unreadable meta.json. Exceptions from the walk itself are not modelled.
- `cache_key` works on a copy: in the model payloads are values, so the caller's payload cannot change.
- LegacyNaming.NamingConfig: the configured short-hash and random lengths are taken as integers, so `int(...)` of a numeral string and the `TypeError` that `int(None)` raises (src/main.py:158, 167, 587, 590) are not modelled.
- Common.NoSuchFile: Python quotes the path with `repr`, which switches to double quotes or escapes characters for a path holding a quote, a backslash or a non-printable character; the model always wraps the path in single quotes.
- LegacyNaming.PyInt: states ints and non-numeric types; strings are characterised for decimal numerals (PyIntOfDecimal). Whitespace and underscores inside numerals are not modelled.
- AppDownloader.SelectedCount: a `Path` is always truthy, so the `if it.get("path")` filter drops nothing; the model keeps every recorded item, which is what the code does.
- AppDownloader.ListOf: a dict's keys are listed in ascending order, not in insertion order, because the model's dict is a map; dict tags with non-string keys are not modelled.
- LegacyDisk.WithJpgSuffix: states the ".jpg" ending and the kept stem, not that a name without a suffix gains one.
- AppPackage.Archive: a zip's members are listed in staging order, which their `{n:05d}_` name prefixes record; the order in which `_make_zip` adds the files (the order of `os.walk`) is not modelled.
- AppTasks.StateOf: `if not state` also treats a stored empty record as missing; a modelled record always carries its fields, so an empty stored record cannot occur.
- Progress monotonicity is not claimed: the download loop's 0.05..0.45 reports can be followed by 0.2 from image events.

## Findings

| source | as written | input that shows it | evidently intended | confidence | as-written member | corrected member |
|---|---|---|---|---|---|---|
| app/downloader.py:395-398, 433-450 | a zip without re-encoding stages only the lists the image events recorded; when they recorded none, the directory-scan fallback selection is ignored | album "1", no image events, one file /cache/work/1/00001.jpg on disk: the selection holds it, the staged tree (and so the zip) is empty | the zip holds the selected images, including those found by the scan | not executed | AppPackage.ScanOnlyZipIsEmpty | AppPackage.ZipHoldsSelection |
| app/tasks.py:63-75 | the cache-hit branch creates a record for a fresh id without "request"; `get_status` then builds `TaskStatus(**st)`, which requires it | a request whose key has a cached artifact and no deduplicated task: `submit` returns a completed id, whose status read fails validation | the cache-hit record keeps the request so that its status reads back as completed | not executed | AppTasks.AsWrittenCacheHitUnreadable | AppTasks.CacheHitRecordReadable |
| src/main.py:558-568, 624-634 | `_collect_images` sorts by file name alone, and `_make_zip` names entries by file name; pages live in one directory per chapter, renumbered in each | pages w/1/A/00001.jpg, w/1/A/00002.jpg, w/1/B/00001.jpg: collected as A1, B1, A2, and two zip entries are named 00001.jpg | chapters in order with their pages in order, under distinct entry names | not executed | LegacyDisk.ChaptersInterleavedExample | LegacyTasks.CorrectedBuildOrdered |
