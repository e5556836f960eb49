/** Small value types and string helpers shared by both engines. */
module Common {

  /** Python's `Optional[T]`: `None` or a value. */
  datatype Option<+T> = None | Some(value: T) {
    function GetOr(default: T): T {
      match this
      case Some(v) => v
      case None => default
    }
  }

  /** The outcome of an operation that raises on failure in the source. */
  datatype Result<+R, +E> = Success(value: R) | Failure(error: E)

  newtype byte = x: int | 0 <= x < 256

  /** A filesystem path, already resolved to an absolute, normalised string. */
  type Path = string

  /** The files a component can see: path to contents. Directories are implicit. */
  type FileSystem = map<Path, seq<byte>>

  /**
   * `str(e)` of the `FileNotFoundError` an open of a missing file raises: errno 2 and
   * the path, quoted.
   */
  function NoSuchFile(p: Path): string {
    "[Errno 2] No such file or directory: '" + p + "'"
  }

  predicate StartsWith(s: string, prefix: string) {
    |prefix| <= |s| && s[..|prefix|] == prefix
  }

  /** Python's truthiness of an optional string: `bool(x)` is false for None and "". */
  predicate Truthy(x: Option<string>) {
    x.Some? && x.value != ""
  }

  /** `x or default` on an optional string. */
  function OrElse(x: Option<string>, default: string): (r: string)
    ensures Truthy(x) ==> r == x.value
    ensures !Truthy(x) ==> r == default
  {
    if Truthy(x) then x.value else default
  }

  /** `s.lstrip(c)`: drops every leading occurrence of `c`. */
  function LStrip(s: string, c: char): (r: string)
    ensures |r| <= |s| && r == s[|s| - |r|..]
    ensures r == [] || r[0] != c
    ensures forall i :: 0 <= i < |s| - |r| ==> s[i] == c
  {
    if s == [] || s[0] != c then s else LStrip(s[1..], c)
  }

  /** `path / name` on a directory path. */
  function Child(dir: Path, name: string): Path {
    dir + "/" + name
  }

  /** Index just past the last '/' in `p` (0 when there is none). */
  function NameStart(p: string): (k: nat)
    ensures k <= |p|
    ensures k > 0 ==> p[k - 1] == '/'
    ensures forall i :: k <= i < |p| ==> p[i] != '/'
  {
    if p == [] then 0
    else if p[|p| - 1] == '/' then |p|
    else NameStart(p[..|p| - 1])
  }

  /** `Path(p).name` for a path that does not end in '/': the last component. */
  function Basename(p: Path): (r: string)
    ensures '/' !in r
    ensures |r| <= |p| && r == p[|p| - |r|..]
    ensures |r| < |p| ==> p[|p| - |r| - 1] == '/'
  {
    p[NameStart(p)..]
  }

  lemma BasenameOfChild(dir: Path, name: string)
    requires '/' !in name
    ensures Basename(Child(dir, name)) == name
  {
    var p := Child(dir, name);
    var k := NameStart(p);
    assert p[|dir|] == '/';
    assert forall i :: |dir| < i < |p| ==> p[i] == name[i - |dir| - 1];
    assert k == |dir| + 1;
    assert p[|dir| + 1..] == name;
  }

  /** `sep.join(parts)`. */
  function Join(parts: seq<string>, sep: string): string {
    if parts == [] then ""
    else if |parts| == 1 then parts[0]
    else parts[0] + sep + Join(parts[1..], sep)
  }

  /** `s.split(sep)` for a one-character separator: never empty, and no part holds `sep`. */
  function Split(s: string, sep: char): (parts: seq<string>)
    ensures |parts| >= 1
    ensures forall i :: 0 <= i < |parts| ==> sep !in parts[i]
  {
    if s == [] then [""]
    else
      var rest := Split(s[1..], sep);
      if s[0] == sep then [""] + rest
      else [[s[0]] + rest[0]] + rest[1..]
  }

  lemma {:induction false} JoinSplit(s: string, sep: char)
    ensures Join(Split(s, sep), [sep]) == s
  {
    if s != [] {
      var rest := Split(s[1..], sep);
      JoinSplit(s[1..], sep);
      if s[0] != sep {
        if |rest| > 1 {
          assert Split(s, sep)[1..] == rest[1..];
          assert Join(rest, [sep]) == rest[0] + [sep] + Join(rest[1..], [sep]);
        }
      }
    }
  }

  /** `s.lower()` restricted to ASCII letters, which is all a file suffix test needs. */
  function LowerAscii(s: string): (r: string)
    ensures |r| == |s|
  {
    if s == [] then ""
    else [if 'A' <= s[0] <= 'Z' then (s[0] as int + 32) as char else s[0]] + LowerAscii(s[1..])
  }

  /** The elements `keep` accepts, in order: a list comprehension with an `if`. */
  function Filter<T>(xs: seq<T>, keep: T -> bool): (r: seq<T>)
    ensures |r| <= |xs|
    ensures forall x :: x in r ==> x in xs && keep(x)
  {
    if xs == [] then []
    else
      var pre := Filter(xs[..|xs| - 1], keep);
      if keep(xs[|xs| - 1]) then pre + [xs[|xs| - 1]] else pre
  }

  lemma FilterOfOne<T>(x: T, keep: T -> bool)
    requires keep(x)
    ensures Filter([x], keep) == [x]
  {
    assert [x][..0] == [];
  }

  /** A list comprehension over three elements that all pass keeps them all. */
  lemma FilterOfThree<T>(x: T, y: T, z: T, keep: T -> bool)
    requires keep(x) && keep(y) && keep(z)
    ensures Filter([x, y, z], keep) == [x, y, z]
  {
    assert [x][..0] == [] && Filter([x], keep) == [x];
    assert [x, y][..1] == [x] && Filter([x, y], keep) == [x, y];
    assert [x, y, z][..2] == [x, y];
  }

  lemma FilterStep<T>(xs: seq<T>, i: nat, keep: T -> bool)
    requires i < |xs|
    ensures Filter(xs[..i + 1], keep) == Filter(xs[..i], keep) + (if keep(xs[i]) then [xs[i]] else [])
  {
    assert xs[..i + 1][..i] == xs[..i];
  }

  /** Each accepted element keeps its number of occurrences; the others are gone. */
  lemma {:induction false} FilterCount<T>(xs: seq<T>, keep: T -> bool, x: T)
    ensures multiset(Filter(xs, keep))[x] == if keep(x) then multiset(xs)[x] else 0
  {
    if xs != [] {
      var pre, y := xs[..|xs| - 1], xs[|xs| - 1];
      FilterCount(pre, keep, x);
      assert xs == pre + [y];
      assert multiset(xs) == multiset(pre) + multiset{y};
    }
  }

  lemma PrefixStarts(p: string, s: string)
    ensures StartsWith(p + s, p)
  {
    assert (p + s)[..|p|] == p;
  }

  lemma PrefixCancel(p: string, x: string, y: string)
    requires p + x == p + y
    ensures x == y
  {
    assert x == (p + x)[|p|..];
    assert y == (p + y)[|p|..];
  }

  lemma SuffixCancel(x: string, y: string, s: string)
    requires x + s == y + s
    ensures x == y
  {
    assert x == (x + s)[..|x|];
    assert y == (y + s)[..|y|];
  }

  lemma NoSlashConcat(a: string, b: string)
    requires '/' !in a && '/' !in b
    ensures '/' !in a + b
  {
    assert forall k :: 0 <= k < |a + b| ==> (a + b)[k] == if k < |a| then a[k] else b[k - |a|];
  }

  /** A second update of the same key overrides the first. */
  lemma UpdateTwice<K, V>(m: map<K, V>, k: K, a: V, b: V)
    ensures m[k := a][k := b] == m[k := b]
  {
  }

  /** Updates of different keys commute. */
  lemma UpdatesCommute<K, V>(m: map<K, V>, k1: K, v1: V, k2: K, v2: V)
    requires k1 != k2
    ensures m[k1 := v1][k2 := v2] == m[k2 := v2][k1 := v1]
  {
  }

  /** Removing a key forgets any update of it. */
  lemma UpdateThenRemove<K, V>(m: map<K, V>, k: K, v: V)
    ensures m[k := v] - {k} == m - {k}
  {
  }

  /** Removing one key and updating another commute. */
  lemma RemoveThenUpdate<K, V>(m: map<K, V>, k: K, k2: K, v2: V)
    requires k != k2
    ensures (m - {k})[k2 := v2] == m[k2 := v2] - {k}
  {
  }
}
