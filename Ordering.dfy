/**
 * Python's ordering of strings and paths, and the stable sort `sorted` / `list.sort`
 * performs, stated once for every key order the engines use.
 */
module Ordering {

  ghost predicate StrictTotalOrder<T(!new)>(less: (T, T) -> bool) {
    && (forall x :: !less(x, x))
    && (forall x, y, z :: less(x, y) && less(y, z) ==> less(x, z))
    && (forall x, y :: x != y ==> less(x, y) || less(y, x))
  }

  /** What `sort` needs of `le`: every pair is comparable, and `le` is transitive. */
  ghost predicate TotalPreorder<T(!new)>(le: (T, T) -> bool) {
    && (forall x, y :: le(x, y) || le(y, x))
    && (forall x, y, z :: le(x, y) && le(y, z) ==> le(x, z))
  }

  /** Lexicographic order on sequences; a proper prefix comes first (Python's `<` on str and list). */
  predicate LexLess<T(==)>(a: seq<T>, b: seq<T>, less: (T, T) -> bool) {
    if |a| == 0 then |b| > 0
    else if |b| == 0 then false
    else less(a[0], b[0]) || (a[0] == b[0] && LexLess(a[1..], b[1..], less))
  }

  lemma {:induction false} LexLessIrreflexive<T(!new)>(a: seq<T>, less: (T, T) -> bool)
    requires StrictTotalOrder(less)
    ensures !LexLess(a, a, less)
  {
    if |a| > 0 {
      LexLessIrreflexive(a[1..], less);
    }
  }

  lemma {:induction false} LexLessTransitive<T(!new)>(a: seq<T>, b: seq<T>, c: seq<T>, less: (T, T) -> bool)
    requires StrictTotalOrder(less)
    requires LexLess(a, b, less) && LexLess(b, c, less)
    ensures LexLess(a, c, less)
  {
    if |a| > 0 && |b| > 0 && |c| > 0 {
      if a[0] == b[0] && b[0] == c[0] {
        LexLessTransitive(a[1..], b[1..], c[1..], less);
      }
    }
  }

  lemma {:induction false} LexLessTotal<T(!new)>(a: seq<T>, b: seq<T>, less: (T, T) -> bool)
    requires StrictTotalOrder(less)
    requires a != b
    ensures LexLess(a, b, less) || LexLess(b, a, less)
  {
    if |a| > 0 && |b| > 0 && a[0] == b[0] {
      assert a == [a[0]] + a[1..] && b == [b[0]] + b[1..];
      LexLessTotal(a[1..], b[1..], less);
    }
  }

  lemma LexLessIsStrictTotal<T(!new)>(less: (T, T) -> bool)
    requires StrictTotalOrder(less)
    ensures forall a: seq<T> :: !LexLess(a, a, less)
    ensures forall a: seq<T>, b, c :: LexLess(a, b, less) && LexLess(b, c, less) ==> LexLess(a, c, less)
    ensures forall a: seq<T>, b :: a != b ==> LexLess(a, b, less) || LexLess(b, a, less)
  {
    forall a: seq<T> ensures !LexLess(a, a, less) {
      LexLessIrreflexive(a, less);
    }
    forall a: seq<T>, b, c | LexLess(a, b, less) && LexLess(b, c, less) ensures LexLess(a, c, less) {
      LexLessTransitive(a, b, c, less);
    }
    forall a: seq<T>, b | a != b ensures LexLess(a, b, less) || LexLess(b, a, less) {
      LexLessTotal(a, b, less);
    }
  }

  predicate CharLess(x: char, y: char) {
    x < y
  }

  /** Python's `a < b` on str: code point by code point. */
  predicate StrLess(a: string, b: string) {
    LexLess(a, b, CharLess)
  }

  /** `not (b < a)`, the comparison `sorted` relies on. */
  predicate StrLe(a: string, b: string) {
    !StrLess(b, a)
  }

  lemma StrLessIsStrictTotal()
    ensures StrictTotalOrder(StrLess)
  {
    assert StrictTotalOrder(CharLess);
    LexLessIsStrictTotal(CharLess);
  }

  /** Python's `<` on a list of strings, which is how pathlib compares paths: part by part. */
  predicate PartsLess(a: seq<string>, b: seq<string>) {
    LexLess(a, b, StrLess)
  }

  lemma PartsLessIsStrictTotal()
    ensures StrictTotalOrder(PartsLess)
  {
    StrLessIsStrictTotal();
    LexLessIsStrictTotal(StrLess);
  }

  /** `not (b < a)` for a strict total order is a total preorder (indeed a total order). */
  lemma NotGreaterIsTotal<T(!new)>(less: (T, T) -> bool, le: (T, T) -> bool)
    requires StrictTotalOrder(less)
    requires forall x, y :: le(x, y) == !less(y, x)
    ensures TotalPreorder(le)
    ensures forall x, y :: le(x, y) && le(y, x) ==> x == y
  {
  }

  lemma StrLeIsTotal()
    ensures TotalPreorder(StrLe)
    ensures forall x, y :: StrLe(x, y) && StrLe(y, x) ==> x == y
  {
    StrLessIsStrictTotal();
    NotGreaterIsTotal(StrLess, StrLe);
  }

  /** Every earlier element is `le` every later one. */
  predicate Sorted<T>(xs: seq<T>, le: (T, T) -> bool) {
    forall i, j :: 0 <= i < j < |xs| ==> le(xs[i], xs[j])
  }

  function Insert<T>(x: T, xs: seq<T>, le: (T, T) -> bool): (r: seq<T>)
    ensures multiset(r) == multiset(xs) + multiset{x}
    ensures |r| == |xs| + 1
  {
    if xs == [] then [x]
    else if le(x, xs[0]) then [x] + xs
    else
      assert xs == [xs[0]] + xs[1..];
      [xs[0]] + Insert(x, xs[1..], le)
  }

  /**
   * Python's `sorted(xs, key=...)`: insertion sort; the first of two equal elements is
   * inserted in front of the second, so the sort is stable like Python's.
   */
  function Sort<T>(xs: seq<T>, le: (T, T) -> bool): (r: seq<T>)
    ensures multiset(r) == multiset(xs)
    ensures |r| == |xs|
  {
    if xs == [] then []
    else
      assert xs == [xs[0]] + xs[1..];
      Insert(xs[0], Sort(xs[1..], le), le)
  }

  lemma SortOfOne<T>(x: T, le: (T, T) -> bool)
    ensures Sort([x], le) == [x]
  {
    assert [x][1..] == [];
  }

  /** Sorting three elements where the last one belongs in the middle. */
  lemma SortOfThree<T>(x: T, y: T, z: T, le: (T, T) -> bool)
    requires le(x, z) && !le(y, z)
    ensures Sort([x, y, z], le) == [x, z, y]
  {
    SortOfTwo(y, z, le);
    assert [x, y, z][1..] == [y, z];
    assert Sort([x, y, z], le) == Insert(x, [z, y], le);
  }

  lemma SortOfTwo<T>(y: T, z: T, le: (T, T) -> bool)
    requires !le(y, z)
    ensures Sort([y, z], le) == [z, y]
  {
    SortOfOne(z, le);
    assert [y, z][1..] == [z];
    assert Insert(y, [z], le) == [z] + Insert(y, [], le);
  }

  lemma {:induction false} InsertSorted<T(!new)>(x: T, xs: seq<T>, le: (T, T) -> bool)
    requires TotalPreorder(le)
    requires Sorted(xs, le)
    ensures Sorted(Insert(x, xs, le), le)
  {
    if xs != [] && !le(x, xs[0]) {
      var tail := Insert(x, xs[1..], le);
      InsertSorted(x, xs[1..], le);
      assert le(xs[0], x);
      forall k | 0 <= k < |tail| ensures le(xs[0], tail[k]) {
        assert tail[k] in multiset(tail);
        assert tail[k] in multiset(xs[1..]) + multiset{x};
        if tail[k] != x || tail[k] in multiset(xs[1..]) {
          if tail[k] in multiset(xs[1..]) {
            var j :| 0 <= j < |xs[1..]| && xs[1..][j] == tail[k];
            assert xs[j + 1] == tail[k];
          }
        }
      }
    }
  }

  /** The result of `Sort` is sorted whenever `le` is a total preorder. */
  lemma {:induction false} SortSorted<T(!new)>(xs: seq<T>, le: (T, T) -> bool)
    requires TotalPreorder(le)
    ensures Sorted(Sort(xs, le), le)
  {
    if xs != [] {
      SortSorted(xs[1..], le);
      InsertSorted(xs[0], Sort(xs[1..], le), le);
    }
  }

  lemma SortedHeadIsLeast<T>(a: seq<T>, x: T, le: (T, T) -> bool)
    requires Sorted(a, le)
    requires x in a
    requires le(x, x)
    ensures le(a[0], x)
  {
    var i :| 0 <= i < |a| && a[i] == x;
  }

  lemma MultisetTails<T>(a: seq<T>, b: seq<T>)
    requires |a| > 0 && |b| > 0 && a[0] == b[0]
    requires multiset(a) == multiset(b)
    ensures multiset(a[1..]) == multiset(b[1..])
  {
    MultisetDropHead(a);
    MultisetDropHead(b);
  }

  lemma MultisetDropHead<T>(a: seq<T>)
    requires |a| > 0
    ensures multiset(a[1..]) == multiset(a) - multiset{a[0]}
  {
    assert a == [a[0]] + a[1..];
  }

  /**
   * A sorted arrangement is unique: two sorted sequences with the same elements are equal
   * when `le` relates no two distinct elements both ways.
   */
  lemma {:induction false} SortedUnique<T(!new)>(a: seq<T>, b: seq<T>, le: (T, T) -> bool)
    requires forall x, y :: le(x, y) || le(y, x)
    requires Sorted(a, le) && Sorted(b, le)
    requires multiset(a) == multiset(b)
    requires forall x, y :: x in a && y in a && le(x, y) && le(y, x) ==> x == y
    ensures a == b
  {
    if a == [] {
      assert |b| == |multiset(b)| == 0;
    } else {
      SortedHeadsEqual(a, b, le);
      var a', b' := a[1..], b[1..];
      MultisetTails(a, b);
      forall x, y | x in a' && y in a' && le(x, y) && le(y, x) ensures x == y {
        assert x in a && y in a;
      }
      SortedUnique(a', b', le);
    }
  }

  /** Two sorted arrangements of the same elements start with the same element. */
  lemma SortedHeadsEqual<T(!new)>(a: seq<T>, b: seq<T>, le: (T, T) -> bool)
    requires forall x, y :: le(x, y) || le(y, x)
    requires Sorted(a, le) && Sorted(b, le)
    requires multiset(a) == multiset(b) && a != []
    requires forall x, y :: x in a && y in a && le(x, y) && le(y, x) ==> x == y
    ensures b != [] && a[0] == b[0]
  {
    assert |b| == |multiset(b)| == |a|;
    var x0, y0 := a[0], b[0];
    assert y0 in multiset(a) && x0 in multiset(b);
    assert le(y0, y0) && le(x0, x0);
    SortedHeadIsLeast(a, y0, le);
    SortedHeadIsLeast(b, x0, le);
  }

  /** Sorting depends only on the elements, not on the order they come in. */
  lemma SortIgnoresOrder<T(!new)>(xs: seq<T>, ys: seq<T>, le: (T, T) -> bool)
    requires TotalPreorder(le)
    requires multiset(xs) == multiset(ys)
    requires forall x, y :: x in xs && y in xs && le(x, y) && le(y, x) ==> x == y
    ensures Sort(xs, le) == Sort(ys, le)
  {
    SortSorted(xs, le);
    SortSorted(ys, le);
    var a, b := Sort(xs, le), Sort(ys, le);
    forall x | x in a ensures x in xs {
      assert x in multiset(a);
    }
    SortedUnique(a, b, le);
  }

  /** Sorting a sequence that is already sorted leaves it as it is (the sort is stable). */
  lemma {:induction false} SortOfSorted<T>(xs: seq<T>, le: (T, T) -> bool)
    requires Sorted(xs, le)
    ensures Sort(xs, le) == xs
  {
    if xs != [] {
      assert Sorted(xs[1..], le) by {
        forall i, j | 0 <= i < j < |xs[1..]| ensures le(xs[1..][i], xs[1..][j]) {
          assert xs[1..][i] == xs[i + 1] && xs[1..][j] == xs[j + 1];
        }
      }
      SortOfSorted(xs[1..], le);
      if |xs| > 1 {
        assert le(xs[0], xs[1..][0]);
      }
      assert xs == [xs[0]] + xs[1..];
    }
  }

  /** Sorting twice is sorting once. */
  lemma SortIdempotent<T(!new)>(xs: seq<T>, le: (T, T) -> bool)
    requires TotalPreorder(le)
    ensures Sort(Sort(xs, le), le) == Sort(xs, le)
  {
    SortSorted(xs, le);
    SortOfSorted(Sort(xs, le), le);
  }

  /** Comparing by a key under a strict total order, `not key(y) < key(x)` is a total preorder. */
  lemma KeyedPreorder<A(!new), K(!new)>(key: A -> K, less: (K, K) -> bool, le: (A, A) -> bool)
    requires StrictTotalOrder(less)
    requires forall x, y :: le(x, y) == !less(key(y), key(x))
    ensures TotalPreorder(le)
  {
  }

  /** The elements of `xs` that `le` ties with `x` (each `le` the other), in their order in `xs`. */
  function Ties<T>(xs: seq<T>, x: T, le: (T, T) -> bool): seq<T> {
    if xs == [] then []
    else (if le(x, xs[0]) && le(xs[0], x) then [xs[0]] else []) + Ties(xs[1..], x, le)
  }

  /** Inserting `y` adds it to the ties of `x` exactly when it ties with `x`, at their front. */
  lemma {:induction false} InsertTies<T(!new)>(y: T, ys: seq<T>, x: T, le: (T, T) -> bool)
    requires TotalPreorder(le)
    ensures Ties(Insert(y, ys, le), x, le) == (if le(x, y) && le(y, x) then [y] else []) + Ties(ys, x, le)
  {
    var tieY := if le(x, y) && le(y, x) then [y] else [];
    if ys == [] {
      assert [y][1..] == [];
      assert Ties([y], x, le) == tieY + Ties([], x, le);
    } else if le(y, ys[0]) {
      assert ([y] + ys)[1..] == ys;
      assert Ties([y] + ys, x, le) == tieY + Ties(ys, x, le);
    } else {
      var head, rest := ys[0], ys[1..];
      var tieHead := if le(x, head) && le(head, x) then [head] else [];
      InsertTies(y, rest, x, le);
      var ins := Insert(y, rest, le);
      assert Insert(y, ys, le) == [head] + ins;
      assert ([head] + ins)[1..] == ins;
      assert Ties([head] + ins, x, le) == tieHead + Ties(ins, x, le);
      assert Ties(ys, x, le) == tieHead + Ties(rest, x, le);
      if tieY == [] {
        assert Ties(ins, x, le) == Ties(rest, x, le);
      } else {
        // `head` stands strictly before `y`, so it cannot tie with `x` either.
        assert !le(y, head);
        assert le(y, x) && le(x, head) ==> le(y, head);
        assert tieHead == [];
        assert Ties([head] + ins, x, le) == Ties(ins, x, le);
        assert Ties(ys, x, le) == Ties(rest, x, le);
      }
    }
  }

  /**
   * The sort is stable: for every `x`, the elements that tie with it leave the sort in the
   * order they came in.
   */
  lemma {:induction false} SortStable<T(!new)>(xs: seq<T>, x: T, le: (T, T) -> bool)
    requires TotalPreorder(le)
    ensures Ties(Sort(xs, le), x, le) == Ties(xs, x, le)
  {
    if xs != [] {
      SortStable(xs[1..], x, le);
      InsertTies(xs[0], Sort(xs[1..], le), x, le);
    }
  }

  /** A least element of a finite, non-empty set under a total preorder. */
  lemma {:induction false} Least<T(!new)>(xs: set<T>, le: (T, T) -> bool) returns (k: T)
    requires TotalPreorder(le)
    requires xs != {}
    ensures k in xs && forall j :: j in xs ==> le(k, j)
    decreases |xs|
  {
    var x :| x in xs;
    var rest := xs - {x};
    assert le(x, x) by {
      assert le(x, x) || le(x, x);
    }
    if rest == {} {
      k := x;
      forall j | j in xs ensures le(k, j) {
        assert j !in rest;
      }
    } else {
      var m := Least(rest, le);
      if le(x, m) {
        k := x;
        forall j | j in xs ensures le(k, j) {
          if j != x {
            assert j in rest;
            assert le(m, j);
          }
        }
      } else {
        k := m;
        assert le(m, x);
        forall j | j in xs ensures le(k, j) {
          if j != x {
            assert j in rest;
          }
        }
      }
    }
  }

  lemma LeastExists<T(!new)>(xs: set<T>, le: (T, T) -> bool)
    requires TotalPreorder(le)
    requires xs != {}
    ensures exists k :: k in xs && forall j :: j in xs ==> le(k, j)
  {
    var k := Least(xs, le);
  }

  /** A set listed once each, in ascending order of an antisymmetric total preorder. */
  function SortedSet<T(!new)>(xs: set<T>, le: (T, T) -> bool): (r: seq<T>)
    requires TotalPreorder(le)
    requires forall x, y :: le(x, y) && le(y, x) ==> x == y
    ensures |r| == |xs|
    ensures forall k :: k in r <==> k in xs
    ensures Sorted(r, le)
    decreases |xs|
  {
    if xs == {} then []
    else
      LeastExists(xs, le);
      var k :| k in xs && forall j :: j in xs ==> le(k, j);
      [k] + SortedSet(xs - {k}, le)
  }

  /** A set of strings listed once each, in ascending order. */
  function SortedKeys(keys: set<string>): (r: seq<string>)
    ensures |r| == |keys|
    ensures forall k :: k in r <==> k in keys
    ensures Sorted(r, StrLe)
  {
    StrLeIsTotal();
    SortedSet(keys, StrLe)
  }
}
