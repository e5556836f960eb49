/**
 * Naming in the single-album engine (src/main.py): the parameter hash an artifact is
 * cached under, the rules that name artifact directories and files, the memo of
 * directory names, and the random-password policy. Hashes, the clock and the random
 * source are parameters.
 */
module LegacyNaming {
  import opened Common
  import opened Values
  import opened Json
  import opened Decimal

  /** `hashlib.<algorithm>(text.encode("utf-8")).hexdigest()`, taken as given. */
  type Hasher = string -> string

  /** The i-th `secrets.choice` draw, as an index reduced into the alphabet it picks from. */
  type Draws = nat -> nat

  /** A request of the single-album engine, as validated. */
  datatype LegacyRequest = LegacyRequest(
    albumId: string,
    outputFormat: string,
    quality: Option<int>,
    encrypt: bool,
    password: Option<string>,
    compression: int,
    proxy: Option<string>)

  /** What the request model admits: "zip" or "pdf", a quality in 1..100 if any, a compression level in 0..9. */
  predicate ValidLegacyRequest(req: LegacyRequest) {
    && req.outputFormat in {"zip", "pdf"}
    && (req.quality.Some? ==> 1 <= req.quality.value <= 100)
    && 0 <= req.compression <= 9
  }

  // ---- the parameter hash (TaskManager._hash_params) ----

  /** The six keys of the payload are distinct: by length, and by first letter where lengths agree. */
  lemma HashKeysDistinct(albumId: Json, format: Json, quality: Json, encrypt: Json, compression: Json, passwordHash: Json)
    ensures DistinctKeys([("album_id", albumId), ("output_format", format), ("quality", quality), ("encrypt", encrypt),
                          ("compression", compression), ("password_hash", passwordHash)])
  {
    var p := [("album_id", albumId), ("output_format", format), ("quality", quality), ("encrypt", encrypt),
              ("compression", compression), ("password_hash", passwordHash)];
    var lens := [8, 13, 7, 7, 11, 13];
    var firsts := ['a', 'o', 'q', 'e', 'c', 'p'];
    assert forall i :: 0 <= i < 6 ==> |p[i].0| == lens[i] && p[i].0[0] == firsts[i];
    forall i, j | 0 <= i < j < |p| ensures p[i].0 != p[j].0 {
      assert lens[i] != lens[j] || firsts[i] != firsts[j];
    }
  }

  /**
   * The payload `_hash_params` hashes: the password only as its hash, and null for a
   * missing or empty one; the proxy is not part of it.
   */
  function HashPayload(req: LegacyRequest, sha256: Hasher): (p: Payload)
    ensures |p| == 6
    ensures Truthy(req.password) ==> p[5] == ("password_hash", JStr(sha256(req.password.value)))
    ensures !Truthy(req.password) ==> p[5] == ("password_hash", JNull)
  {
    var quality := if req.quality.Some? then JInt(req.quality.value) else JNull;
    var passwordHash := if Truthy(req.password) then JStr(sha256(req.password.value)) else JNull;
    HashKeysDistinct(JStr(req.albumId), JStr(req.outputFormat), quality, JBool(req.encrypt), JInt(req.compression), passwordHash);
    [("album_id", JStr(req.albumId)), ("output_format", JStr(req.outputFormat)), ("quality", quality),
     ("encrypt", JBool(req.encrypt)), ("compression", JInt(req.compression)), ("password_hash", passwordHash)]
  }

  /** `_hash_params`: sha256 of the sorted-key JSON text of the payload. */
  function HashParams(req: LegacyRequest, sha256: Hasher): string {
    sha256(DumpSorted(HashPayload(req, sha256)))
  }

  /**
   * Requests that differ only in their proxy, or in passwords that hash alike (a missing
   * and an empty password among them), share a hash and so share cached artifacts.
   */
  lemma HashParamsIgnores(a: LegacyRequest, b: LegacyRequest, sha256: Hasher)
    requires a.albumId == b.albumId && a.outputFormat == b.outputFormat && a.quality == b.quality
    requires a.encrypt == b.encrypt && a.compression == b.compression
    requires Truthy(a.password) == Truthy(b.password)
    requires Truthy(a.password) ==> sha256(a.password.value) == sha256(b.password.value)
    ensures HashParams(a, sha256) == HashParams(b, sha256)
  {
    if Truthy(a.password) {
      assert JStr(sha256(a.password.value)) == JStr(sha256(b.password.value));
    }
    assert HashPayload(a, sha256) == HashPayload(b, sha256);
  }

  // ---- Python helpers ----

  /** `s[:n]` for any int `n`: a negative `n` drops that many characters from the end. */
  function PyPrefix(s: string, n: int): (r: string)
    ensures |r| <= |s| && r == s[..|r|]
    ensures 0 <= n <= |s| ==> |r| == n
    ensures n > |s| ==> r == s
    ensures n < 0 ==> |r| == if |s| + n > 0 then |s| + n else 0
  {
    if n >= 0 then (if n <= |s| then s[..n] else s)
    else if |s| + n > 0 then s[..|s| + n] else ""
  }

  /** `"".join(secrets.choice(charset) for _ in range(n))`; `range` of a negative `n` is empty. */
  function RandomString(n: int, charset: string, draws: Draws): (r: string)
    requires n <= 0 || charset != ""
    ensures |r| == if n > 0 then n else 0
    ensures forall i :: 0 <= i < |r| ==> r[i] in charset
  {
    if n <= 0 then ""
    else seq(n, i requires 0 <= i < n => charset[draws(i) % |charset|])
  }

  /**
   * `int(v)` on a configuration value: ints and booleans as they are, strings of an
   * optional sign and decimal digits parsed; anything else raises (None here).
   */
  function PyInt(v: Value): (r: Option<int>)
    ensures v.VInt? ==> r == Some(v.i)
    ensures v.VNone? || v.VList? || v.VDict? ==> r.None?
  {
    match v
    case VInt(i) => Some(i)
    case VBool(b) => Some(if b then 1 else 0)
    case VStr(s) =>
      if |s| > 1 && s[0] == '-' && AllDigits(s[1..]) then Some(-(DecimalValue(s[1..]) as int))
      else if |s| > 1 && s[0] == '+' && AllDigits(s[1..]) then Some(DecimalValue(s[1..]))
      else if s != "" && AllDigits(s) then Some(DecimalValue(s))
      else None
    case _ => None
  }

  /** A decimal numeral, with or without a sign, parses back to its number. */
  lemma PyIntOfDecimal(n: nat)
    ensures PyInt(VStr(NatToDecimal(n))) == Some(n)
    ensures PyInt(VStr("+" + NatToDecimal(n))) == Some(n)
    ensures n > 0 ==> PyInt(VStr("-" + NatToDecimal(n))) == Some(-(n as int))
  {
    var d := NatToDecimal(n);
    NatToDecimalRoundTrip(n);
    assert ("+" + d)[1..] == d;
    assert ("-" + d)[1..] == d;
    assert IsDigit(d[0]);
  }

  // ---- artifact directory and file names ----

  /** The `server.artifact_name` section; `None` marks a key that is absent. */
  datatype NamingConfig = NamingConfig(
    rule: Option<string>,
    hashLength: Option<int>,
    randomLength: Option<int>,
    randomCharset: Option<string>)

  const DefaultNameCharset := "ABCDEFGHJKLMNPQRSTUVWXYZabcdefghijkmnopqrstuvwxyz23456789"

  /** The "random" rule: `length` characters of the charset; an empty charset raises when one is needed. */
  function RandomName(cfg: NamingConfig, draws: Draws): (r: Result<string, string>)
    ensures var n := cfg.randomLength.GetOr(8);
            var cs := cfg.randomCharset.GetOr(DefaultNameCharset);
            && (r.Failure? <==> n > 0 && cs == "")
            && (r.Success? ==> |r.value| == (if n > 0 then n else 0) && forall i :: 0 <= i < |r.value| ==> r.value[i] in cs)
  {
    var n := cfg.randomLength.GetOr(8);
    var cs := cfg.randomCharset.GetOr(DefaultNameCharset);
    if n > 0 && cs == "" then Failure("Cannot choose from an empty sequence")
    else Success(RandomString(n, cs, draws))
  }

  /**
   * `_compute_dir_name`: the directory name of an album under the configured rule
   * (default "album_id"). `today` is the clock formatted with the configured format.
   */
  function ComputeDirName(albumId: string, cfg: NamingConfig, sha1: Hasher, today: string, draws: Draws): (r: Result<string, string>)
    ensures var rule := cfg.rule.GetOr("album_id");
            && (rule !in {"short_hash", "date", "random"} ==> r == Success(albumId))
            && (rule == "short_hash" ==> r == Success(PyPrefix(sha1(albumId), cfg.hashLength.GetOr(8))))
            && (rule == "date" ==> r == Success(today))
            && (rule == "random" ==> r == RandomName(cfg, draws))
  {
    var rule := cfg.rule.GetOr("album_id");
    if rule == "album_id" then Success(albumId)
    else if rule == "short_hash" then Success(PyPrefix(sha1(albumId), cfg.hashLength.GetOr(8)))
    else if rule == "date" then Success(today)
    else if rule == "random" then RandomName(cfg, draws)
    else Success(albumId)
  }

  /**
   * `_artifact_dir_for`'s memo: a non-empty recorded name is reused; otherwise the
   * computed name is recorded (and an empty one will be computed again next time).
   */
  function MemoDirName(memo: map<string, string>, albumId: string, computed: string): (r: (string, map<string, string>))
    ensures albumId in memo && memo[albumId] != "" ==> r == (memo[albumId], memo)
    ensures !(albumId in memo && memo[albumId] != "") ==> r == (computed, memo[albumId := computed])
  {
    if albumId in memo && memo[albumId] != "" then (memo[albumId], memo)
    else (computed, memo[albumId := computed])
  }

  /**
   * Once an album has a non-empty directory name, every later call returns that name and
   * leaves the memo as it is, whatever a fresh computation would give; other albums'
   * names are never touched.
   */
  lemma MemoDirNameStable(memo: map<string, string>, albumId: string, first: string, later: string)
    ensures var (d, m) := MemoDirName(memo, albumId, first);
            && (d != "" ==> MemoDirName(m, albumId, later) == (d, m))
            && (forall a :: a in memo && a != albumId ==> a in m && m[a] == memo[a])
            && m.Keys == memo.Keys + {albumId}
  {
  }

  /**
   * The base name `_build_artifact` gives a new artifact under the configured rule
   * (default "short_hash"); an unknown rule falls back to the first 8 characters of the
   * hash.
   */
  function BuildBase(albumId: string, cacheHash: string, cfg: NamingConfig, today: string, draws: Draws): (r: Result<string, string>)
    ensures var rule := cfg.rule.GetOr("short_hash");
            && (rule == "album_id" ==> r == Success(albumId))
            && (rule == "short_hash" ==> r == Success(PyPrefix(cacheHash, cfg.hashLength.GetOr(8))))
            && (rule == "random" ==> r == RandomName(cfg, draws))
            && (rule == "date" ==> r == Success(today))
            && (rule !in {"album_id", "short_hash", "random", "date"} ==> r == Success(PyPrefix(cacheHash, 8)))
  {
    var rule := cfg.rule.GetOr("short_hash");
    if rule == "album_id" then Success(albumId)
    else if rule == "short_hash" then Success(PyPrefix(cacheHash, cfg.hashLength.GetOr(8)))
    else if rule == "random" then RandomName(cfg, draws)
    else if rule == "date" then Success(today)
    else Success(PyPrefix(cacheHash, 8))
  }

  /**
   * The base name `_get_artifact` reconstructs when the index has no entry: only the
   * deterministic rules have one.
   */
  function LookupBase(albumId: string, cacheHash: string, cfg: NamingConfig): (r: Option<string>)
    ensures r.Some? <==> cfg.rule.GetOr("short_hash") in {"album_id", "short_hash"}
  {
    var rule := cfg.rule.GetOr("short_hash");
    if rule == "album_id" then Some(albumId)
    else if rule == "short_hash" then Some(PyPrefix(cacheHash, cfg.hashLength.GetOr(8)))
    else None
  }

  /**
   * Under a deterministic rule the lookup reconstructs exactly the name the build chose,
   * whatever the clock and the random source; under any other rule, including an
   * unknown one the build still names by the hash, it reconstructs nothing.
   */
  lemma LookupFindsBuiltName(albumId: string, cacheHash: string, cfg: NamingConfig, today: string, draws: Draws)
    ensures LookupBase(albumId, cacheHash, cfg).Some? ==>
              BuildBase(albumId, cacheHash, cfg, today, draws) == Success(LookupBase(albumId, cacheHash, cfg).value)
    ensures cfg.rule.GetOr("short_hash") !in {"album_id", "short_hash"} ==> LookupBase(albumId, cacheHash, cfg).None?
  {
  }

  /** The artifact file name: the base and the format's extension. */
  function ArtifactFileName(base: string, outputFormat: string): (name: string)
    ensures outputFormat in {"zip", "pdf"} ==> name == base + "." + outputFormat
  {
    base + (if outputFormat == "zip" then ".zip" else ".pdf")
  }

  // ---- the password policy (get_password_policy, generate_password) ----

  const DefaultPasswordCharset := "ABCDEFGHJKLMNPQRSTUVWXYZabcdefghijkmnopqrstuvwxyz23456789@#-_"

  /**
   * `get_password_policy`: the length is 12 when it is missing or does not parse as an
   * int; the charset is the default when it is missing, not a string, or empty.
   */
  function PasswordPolicy(policy: map<string, Value>): (r: (int, string))
    ensures r.1 != ""
    ensures "length" !in policy ==> r.0 == 12
    ensures "length" in policy ==> r.0 == PyInt(policy["length"]).GetOr(12)
    ensures "charset" in policy && policy["charset"].VStr? && policy["charset"].s != "" ==> r.1 == policy["charset"].s
    ensures !("charset" in policy && policy["charset"].VStr? && policy["charset"].s != "") ==> r.1 == DefaultPasswordCharset
  {
    var length := PyInt(Get(policy, "length", VInt(12))).GetOr(12);
    var cs := Get(policy, "charset", VStr(DefaultPasswordCharset));
    (length, if cs.VStr? && cs.s != "" then cs.s else DefaultPasswordCharset)
  }

  /**
   * `generate_password`: exactly the policy's length in characters (none for a length
   * below 1), every one from the policy's charset.
   */
  function GeneratePassword(policy: map<string, Value>, draws: Draws): (pw: string)
    ensures var (n, cs) := PasswordPolicy(policy);
            |pw| == (if n > 0 then n else 0) && forall i :: 0 <= i < |pw| ==> pw[i] in cs
  {
    var (n, cs) := PasswordPolicy(policy);
    RandomString(n, cs, draws)
  }

  /** With no password section the password is 12 characters of the default charset. */
  lemma DefaultPassword(draws: Draws)
    ensures |GeneratePassword(map[], draws)| == 12
    ensures forall i :: 0 <= i < 12 ==> GeneratePassword(map[], draws)[i] in DefaultPasswordCharset
  {
    assert PasswordPolicy(map[]) == (12, DefaultPasswordCharset);
  }
}
