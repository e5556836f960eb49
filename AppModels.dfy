/**
 * The request and status records of the task server (app/models.py): the accepted
 * values of each request field, its defaults, the coercion of album ids into a list,
 * the task-status values and the stored task record.
 */
module AppModels {
  import opened Common
  import opened Values

  datatype OutputFormat = Zip | Pdf

  function FormatValue(f: OutputFormat): string {
    match f
    case Zip => "zip"
    case Pdf => "pdf"
  }

  /** The enum's constructor from its value: only "zip" and "pdf" are accepted. */
  function ParseFormat(s: string): (r: Option<OutputFormat>)
    ensures r.Some? <==> s == "zip" || s == "pdf"
    ensures r.Some? ==> FormatValue(r.value) == s
  {
    if s == "zip" then Some(Zip) else if s == "pdf" then Some(Pdf) else None
  }

  lemma ParseFormatValue(f: OutputFormat)
    ensures ParseFormat(FormatValue(f)) == Some(f)
  {
  }

  datatype TaskStatusEnum = Queued | Running | Completed | Failed | Canceled

  function StatusValue(s: TaskStatusEnum): string {
    match s
    case Queued => "queued"
    case Running => "running"
    case Completed => "completed"
    case Failed => "failed"
    case Canceled => "canceled"
  }

  /** The enum's constructor from its value: exactly five strings are statuses. */
  function ParseStatus(s: string): (r: Option<TaskStatusEnum>)
    ensures r.Some? <==> s in {"queued", "running", "completed", "failed", "canceled"}
    ensures r.Some? ==> StatusValue(r.value) == s
  {
    if s == "queued" then Some(Queued)
    else if s == "running" then Some(Running)
    else if s == "completed" then Some(Completed)
    else if s == "failed" then Some(Failed)
    else if s == "canceled" then Some(Canceled)
    else None
  }

  /** Distinct statuses have distinct values, and every value parses back. */
  lemma StatusValueRoundTrip(s: TaskStatusEnum, t: TaskStatusEnum)
    ensures ParseStatus(StatusValue(s)) == Some(s)
    ensures StatusValue(s) == StatusValue(t) ==> s == t
  {
  }

  /** An album id as a client sends it: an int or a str. */
  datatype AlbumId = IntId(i: int) | StrId(s: string)

  /** What a client may send as `album_ids`: one id, None, or a sequence of ids. */
  datatype RawIds = OneId(id: AlbumId) | NoIds | IdSeq(ids: seq<AlbumId>)

  /** `_coerce_ids`: a lone int or str becomes a one-element list; anything else is `list(v or [])`. */
  function CoerceIds(v: RawIds): (r: seq<AlbumId>)
    ensures v.OneId? ==> r == [v.id]
    ensures v.NoIds? ==> r == []
    ensures v.IdSeq? ==> r == v.ids
  {
    match v
    case OneId(id) => [id]
    case NoIds => []
    case IdSeq(ids) => ids
  }

  /** A request field as received: left out (the default applies) or given. */
  datatype Field<+T> = Omitted | Given(value: T)

  function FieldOr<T>(f: Field<T>, default: T): T {
    match f
    case Omitted => default
    case Given(v) => v
  }

  datatype RequestInput = RequestInput(
    albumIds: Field<RawIds>,
    outputFormat: Field<string>,
    quality: Field<Option<int>>,
    encrypt: Field<bool>,
    password: Field<Option<string>>,
    compression: Field<Option<int>>,
    cache: Field<bool>,
    proxy: Field<Option<string>>,
    optionFile: Field<Option<string>>)

  datatype TaskRequest = TaskRequest(
    albumIds: seq<AlbumId>,
    outputFormat: OutputFormat,
    quality: Option<int>,
    encrypt: bool,
    password: Option<string>,
    compression: Option<int>,
    cache: bool,
    proxy: Option<string>,
    optionFile: Option<string>)

  /** The field bounds a validated request satisfies. */
  predicate ValidRequest(r: TaskRequest) {
    && (r.quality.Some? ==> 1 <= r.quality.value <= 100)
    && (r.compression.Some? ==> 0 <= r.compression.value <= 9)
  }

  predicate QualityOk(q: Option<int>) {
    q.Some? ==> 1 <= q.value <= 100
  }

  predicate CompressionOk(c: Option<int>) {
    c.Some? ==> 0 <= c.value <= 9
  }

  /** The names of the fields the model rejects, in declaration order. */
  function InvalidFields(inp: RequestInput): (errs: seq<string>)
    ensures "album_ids" in errs <==> inp.albumIds.Omitted?
    ensures "output_format" in errs <==> inp.outputFormat.Given? && ParseFormat(inp.outputFormat.value).None?
    ensures "quality" in errs <==> !QualityOk(FieldOr(inp.quality, None))
    ensures "compression" in errs <==> !CompressionOk(FieldOr(inp.compression, Some(6)))
  {
    (if inp.albumIds.Omitted? then ["album_ids"] else [])
    + (if inp.outputFormat.Given? && ParseFormat(inp.outputFormat.value).None? then ["output_format"] else [])
    + (if !QualityOk(FieldOr(inp.quality, None)) then ["quality"] else [])
    + (if !CompressionOk(FieldOr(inp.compression, Some(6))) then ["compression"] else [])
  }

  /**
   * `TaskRequest(**fields)`: every field is checked, and the request is built with the
   * declared defaults when none is rejected.
   */
  function Validate(inp: RequestInput): (r: Result<TaskRequest, seq<string>>)
    ensures r.Success? <==> InvalidFields(inp) == []
    ensures r.Success? ==> ValidRequest(r.value)
    ensures r.Success? ==> r.value.albumIds == CoerceIds(inp.albumIds.value)
    ensures r.Failure? ==> r.error == InvalidFields(inp)
  {
    var errs := InvalidFields(inp);
    if errs != [] then Failure(errs)
    else
      Success(TaskRequest(
        CoerceIds(inp.albumIds.value),
        if inp.outputFormat.Given? then ParseFormat(inp.outputFormat.value).value else Zip,
        FieldOr(inp.quality, None),
        FieldOr(inp.encrypt, false),
        FieldOr(inp.password, None),
        FieldOr(inp.compression, Some(6)),
        FieldOr(inp.cache, true),
        FieldOr(inp.proxy, None),
        FieldOr(inp.optionFile, None)))
  }

  /** A request naming only its album ids gets the declared defaults. */
  lemma {:induction false} ValidateDefaults(ids: RawIds)
    ensures Validate(RequestInput(Given(ids), Omitted, Omitted, Omitted, Omitted, Omitted, Omitted, Omitted, Omitted))
         == Success(TaskRequest(CoerceIds(ids), Zip, None, false, None, Some(6), true, None, None))
  {
    var inp := RequestInput(Given(ids), Omitted, Omitted, Omitted, Omitted, Omitted, Omitted, Omitted, Omitted);
    assert InvalidFields(inp) == [];
  }

  /** An empty id list is not rejected: nothing checks that there is an album to fetch. */
  lemma ValidateAcceptsNoAlbums()
    ensures Validate(RequestInput(Given(NoIds), Omitted, Omitted, Omitted, Omitted, Omitted, Omitted, Omitted, Omitted)).Success?
  {
    ValidateDefaults(NoIds);
  }

  /** Album metadata as `before_album` reports it (one entry of `metadata["albums"]`). */
  datatype AlbumMeta = AlbumMeta(
    albumId: Value,
    title: Value,
    authors: Option<seq<Value>>,
    tags: Option<seq<Value>>,
    chapterCount: Option<nat>)

  /**
   * A stored task record (the dict behind `TaskStatus`). `metadata` is `None` for the
   * empty dict and `Some(albums)` for `{"albums": albums}`; `request` and `cacheKey`
   * are `None` when the key is absent. Timestamps are not modelled.
   */
  datatype TaskRecord = TaskRecord(
    taskId: string,
    status: TaskStatusEnum,
    progress: real,
    message: Option<string>,
    error: Option<string>,
    metadata: Option<seq<AlbumMeta>>,
    artifactPath: Option<string>,
    downloadUrl: Option<string>,
    request: Option<TaskRequest>,
    cacheKey: Option<string>)

  datatype SubmitResponse = SubmitResponse(taskId: string, status: TaskStatusEnum, duplicate: bool)
}
