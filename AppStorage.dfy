/**
 * The task server's storage (app/storage.py): the cache key of a request payload, the
 * content-addressed artifact store under the cache directory, and the registry of task
 * records with its best-effort state file.
 */
module AppStorage {
  import opened Common
  import opened Json
  import opened AppModels

  /** `hashlib.sha256(text.encode("utf-8")).hexdigest()`, taken as given. */
  type Hasher = string -> string

  /**
   * The copy of the payload that gets hashed: "password" is popped, and when it was not
   * None its hash is stored under "password_hash". A password that is not a str has no
   * `encode`, so the source raises.
   */
  function SafePayload(p: Payload, sha256: Hasher): (r: Result<Payload, string>)
    ensures r.Success? <==> Lookup(p, "password") in {None, Some(JNull)} || Lookup(p, "password").value.JStr?
    ensures r.Success? ==> "password" !in Keys(r.value)
    ensures r.Success? && Lookup(p, "password") in {None, Some(JNull)} ==> ToMap(r.value) == ToMap(p) - {"password"}
    ensures r.Success? && Lookup(p, "password").Some? && Lookup(p, "password").value.JStr? ==>
              ToMap(r.value) == (ToMap(p) - {"password"})["password_hash" := JStr(sha256(Lookup(p, "password").value.s))]
  {
    var safe := Remove(p, "password");
    match Lookup(p, "password")
    case None => Success(safe)
    case Some(JNull) => Success(safe)
    case Some(JStr(pwd)) => Success(Put(safe, "password_hash", JStr(sha256(pwd))))
    case Some(_) => Failure("'password' has no attribute 'encode'")
  }

  /** `Storage.cache_key`: the hash of the sorted-key JSON text of the safe payload. */
  function CacheKey(p: Payload, sha256: Hasher): (r: Result<string, string>)
    ensures r.Success? <==> SafePayload(p, sha256).Success?
  {
    match SafePayload(p, sha256)
    case Success(safe) => Success(sha256(DumpSorted(safe)))
    case Failure(e) => Failure(e)
  }

  /** The key does not depend on the order in which the payload's fields were inserted. */
  lemma CacheKeyIgnoresInsertionOrder(p: Payload, q: Payload, sha256: Hasher)
    requires ToMap(p) == ToMap(q)
    ensures CacheKey(p, sha256) == CacheKey(q, sha256)
  {
    var sp, sq := SafePayload(p, sha256), SafePayload(q, sha256);
    if sp.Success? {
      DumpSortedIgnoresInsertionOrder(sp.value, sq.value);
    }
  }

  /**
   * The plaintext password reaches the key only through its hash: two payloads that
   * agree on every other field and whose passwords hash alike get the same key.
   */
  lemma CacheKeySeesOnlyPasswordHash(p: Payload, q: Payload, a: string, b: string, sha256: Hasher)
    requires ToMap(p) - {"password"} == ToMap(q) - {"password"}
    requires Lookup(p, "password") == Some(JStr(a)) && Lookup(q, "password") == Some(JStr(b))
    requires sha256(a) == sha256(b)
    ensures CacheKey(p, sha256) == CacheKey(q, sha256)
  {
    var sp, sq := SafePayload(p, sha256), SafePayload(q, sha256);
    DumpSortedIgnoresInsertionOrder(sp.value, sq.value);
  }

  /** The file name an artifact is published under: `f"{key}.{suffix.lstrip('.')}"`. */
  function ArtifactName(key: string, suffix: string): (name: string)
    ensures StartsWith(name, key + ".")
  {
    key + "." + LStrip(suffix, '.')
  }

  /** A hit of the artifact store. Its mtime and size are not modelled. */
  datatype CacheEntry = CacheEntry(key: string, path: Path)

  /**
   * The state file as `_load_state` finds it: missing, unreadable or not a JSON object,
   * or an object with or without a "tasks" member.
   */
  datatype StateFile = NoStateFile | Unreadable | StateDoc(tasks: Option<map<string, TaskRecord>>)

  /** The registry `_load_state` leaves: the saved tasks, or empty for anything else. */
  function LoadedTasks(f: StateFile): (t: map<string, TaskRecord>)
    ensures f.NoStateFile? || f.Unreadable? ==> t == map[]
  {
    match f
    case StateDoc(Some(tasks)) => tasks
    case _ => map[]
  }

  class Storage {
    const cacheDir: Path
    var cacheDirExists: bool
    var files: FileSystem
    var tasks: map<string, TaskRecord>
    var stateFile: StateFile
    /** Whether writing the state file succeeds; its failures are swallowed. */
    const stateWritable: bool

    /** `Storage.__init__` followed by `_load_state`. */
    constructor (cacheDir: Path, cacheDirExists: bool, files: FileSystem, stateFile: StateFile, stateWritable: bool)
      ensures this.cacheDir == cacheDir && this.cacheDirExists == cacheDirExists && this.files == files
      ensures this.stateFile == stateFile && this.stateWritable == stateWritable
      ensures tasks == LoadedTasks(stateFile)
    {
      this.cacheDir := cacheDir;
      this.cacheDirExists := cacheDirExists;
      this.files := files;
      this.stateFile := stateFile;
      this.stateWritable := stateWritable;
      tasks := LoadedTasks(stateFile);
    }

    /** `_save_state`: best effort; a failed write leaves the old file. */
    method SaveState()
      modifies this`stateFile
      ensures stateWritable ==> stateFile == StateDoc(Some(tasks))
      ensures !stateWritable ==> stateFile == old(stateFile)
      ensures stateWritable ==> LoadedTasks(stateFile) == tasks
    {
      if stateWritable {
        stateFile := StateDoc(Some(tasks));
      }
    }

    method GetTaskState(taskId: string) returns (r: Option<TaskRecord>)
      ensures r.Some? <==> taskId in tasks
      ensures r.Some? ==> r.value == tasks[taskId]
    {
      r := if taskId in tasks then Some(tasks[taskId]) else None;
    }

    /** Stores the record under its id, leaves every other id alone, and saves. */
    method SetTaskState(taskId: string, state: TaskRecord)
      modifies this`tasks, this`stateFile
      ensures tasks == old(tasks)[taskId := state]
      ensures stateWritable ==> LoadedTasks(stateFile) == tasks
      ensures !stateWritable ==> stateFile == old(stateFile)
    {
      tasks := tasks[taskId := state];
      SaveState();
    }

    /** A copy of the registry: a map value, so changing it cannot reach the registry. */
    method IterTasks() returns (r: map<string, TaskRecord>)
      ensures r == tasks
    {
      r := tasks;
    }

    /** `name` matches the glob `key.*` and is still present when it is stat'ed. */
    predicate IsCachedFile(key: string, name: string)
      reads this
    {
      StartsWith(name, key + ".") && Child(cacheDir, name) in files
    }

    /** The first cached file of `key` among `listing[i..]`, scanning in listing order. */
    function CachedFrom(key: string, listing: seq<string>, i: nat): (r: Option<CacheEntry>)
      requires i <= |listing|
      reads this
      ensures r.Some? ==> r.value.key == key && r.value.path in files
      decreases |listing| - i
    {
      if i == |listing| then None
      else if IsCachedFile(key, listing[i]) then Some(CacheEntry(key, Child(cacheDir, listing[i])))
      else CachedFrom(key, listing, i + 1)
    }

    /** What `cached_artifact` finds: nothing when the cache directory is missing. */
    function CacheLookup(key: string, listing: seq<string>): (r: Option<CacheEntry>)
      reads this
      ensures !cacheDirExists ==> r.None?
      ensures r.Some? ==> r.value.key == key && r.value.path in files
    {
      if cacheDirExists then CachedFrom(key, listing, 0) else None
    }

    /**
     * `cached_artifact`: the first name of the directory listing that matches `key.*` and
     * still exists; a name that vanished before its stat is skipped.
     */
    method CachedArtifact(key: string, listing: seq<string>) returns (r: Option<CacheEntry>)
      ensures r == CacheLookup(key, listing)
      ensures !cacheDirExists ==> r.None?
      ensures r.Some? ==> r.value.key == key
      ensures r.Some? ==> exists i :: 0 <= i < |listing| && IsCachedFile(key, listing[i])
                                   && r.value.path == Child(cacheDir, listing[i])
                                   && forall j :: 0 <= j < i ==> !IsCachedFile(key, listing[j])
      ensures cacheDirExists && r.None? ==> forall i :: 0 <= i < |listing| ==> !IsCachedFile(key, listing[i])
    {
      if !cacheDirExists {
        return None;
      }
      var i := 0;
      while i < |listing|
        invariant 0 <= i <= |listing|
        invariant forall j :: 0 <= j < i ==> !IsCachedFile(key, listing[j])
        invariant CachedFrom(key, listing, i) == CachedFrom(key, listing, 0)
      {
        var name := listing[i];
        if StartsWith(name, key + ".") {
          var p := Child(cacheDir, name);
          if p in files {
            return Some(CacheEntry(key, p));
          }
        }
        i := i + 1;
      }
      return None;
    }

    /**
     * `put_artifact`: publishes `src` as `cache_dir/key.<suffix without leading dots>`,
     * copying the bytes (the source stays) unless source and destination are one file.
     * A missing source raises.
     */
    method PutArtifact(key: string, src: Path, suffix: string) returns (r: Result<Path, string>)
      modifies this`cacheDirExists, this`files
      ensures cacheDirExists
      ensures r.Success? ==> r.value == Child(cacheDir, ArtifactName(key, suffix))
      ensures src == Child(cacheDir, ArtifactName(key, suffix)) ==> r.Success? && files == old(files)
      ensures src != Child(cacheDir, ArtifactName(key, suffix)) ==>
                if src in old(files)
                then r.Success? && files == old(files)[r.value := old(files)[src]]
                else r.Failure? && files == old(files)
      ensures r.Failure? ==> r.error == NoSuchFile(src)
      ensures r.Success? && r.value in files ==> IsCachedFile(key, ArtifactName(key, suffix))
    {
      cacheDirExists := true;
      var dst := Child(cacheDir, ArtifactName(key, suffix));
      if src == dst {
        return Success(dst);
      }
      if src !in files {
        return Failure(NoSuchFile(src));
      }
      files := files[dst := files[src]];
      return Success(dst);
    }
  }

  /** After a publish, a lookup of the same key over a listing that shows the new file hits. */
  method PublishThenLookup(s: Storage, key: string, src: Path, suffix: string, listing: seq<string>)
      returns (r: Result<Path, string>, hit: Option<CacheEntry>)
    requires src in s.files
    requires ArtifactName(key, suffix) in listing
    modifies s
    ensures r.Success? && hit.Some? && hit.value.key == key
  {
    var name := ArtifactName(key, suffix);
    r := s.PutArtifact(key, src, suffix);
    assert r.value in s.files;
    assert s.IsCachedFile(key, name);
    hit := s.CachedArtifact(key, listing);
  }
}
