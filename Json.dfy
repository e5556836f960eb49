/**
 * The flat JSON objects both engines hash to build cache keys: a Python dict of scalars and
 * string lists, kept in insertion order, and its `json.dumps(..., sort_keys=True,
 * ensure_ascii=False)` text.
 */
module Json {
  import opened Common
  import opened Ordering
  import Decimal

  datatype Json = JNull | JBool(b: bool) | JInt(i: int) | JStr(s: string) | JStrList(items: seq<string>)

  type Entry = (string, Json)

  predicate DistinctKeys(p: seq<Entry>) {
    forall i, j :: 0 <= i < j < |p| ==> p[i].0 != p[j].0
  }

  /** A Python dict: its entries in insertion order, each key once. */
  type Payload = p: seq<Entry> | DistinctKeys(p) witness []

  function Keys(p: seq<Entry>): set<string> {
    if p == [] then {} else {p[0].0} + Keys(p[1..])
  }

  lemma {:induction false} KeysAreKeys(p: seq<Entry>, k: string)
    ensures k in Keys(p) <==> exists i :: 0 <= i < |p| && p[i].0 == k
  {
    if p != [] {
      KeysAreKeys(p[1..], k);
      if k in Keys(p[1..]) {
        var i :| 0 <= i < |p[1..]| && p[1..][i].0 == k;
        assert p[i + 1].0 == k;
      }
      if exists i :: 0 <= i < |p| && p[i].0 == k {
        var i :| 0 <= i < |p| && p[i].0 == k;
        if i > 0 {
          assert p[1..][i - 1].0 == k;
        }
      }
    }
  }

  /** The key-to-value view of a dict, which is all that survives `sort_keys`. */
  function ToMap(p: Payload): (m: map<string, Json>)
    ensures m.Keys == Keys(p)
  {
    if p == [] then map[] else ToMap(p[1..])[p[0].0 := p[0].1]
  }

  lemma {:induction false} ToMapAt(p: Payload, i: nat)
    requires i < |p|
    ensures p[i].0 in ToMap(p) && ToMap(p)[p[i].0] == p[i].1
  {
    if i > 0 {
      ToMapAt(p[1..], i - 1);
    }
  }

  /** `d.get(k)`. */
  function Lookup(p: Payload, k: string): (r: Option<Json>)
    ensures r.Some? <==> k in Keys(p)
    ensures r.Some? ==> r.value == ToMap(p)[k]
  {
    if k in ToMap(p) then Some(ToMap(p)[k]) else None
  }

  /** `d.pop(k, None)` on a copy: the entry for k goes, the others keep their order. */
  function Remove(p: Payload, k: string): (r: Payload)
    ensures Keys(r) == Keys(p) - {k}
    ensures ToMap(r) == ToMap(p) - {k}
  {
    if p == [] then []
    else
      HeadNotInTail(p);
      ToMapCons(p);
      var rest := Remove(p[1..], k);
      if p[0].0 == k then
        UpdateThenRemove(ToMap(p[1..]), k, p[0].1);
        rest
      else
        ConsDistinct(p[0], rest);
        var r := [p[0]] + rest;
        ToMapCons(r);
        assert r[1..] == rest;
        RemoveThenUpdate(ToMap(p[1..]), k, p[0].0, p[0].1);
        r
  }

  /** `d[k] = v`: an existing key keeps its place, a new key goes last. */
  function Put(p: Payload, k: string, v: Json): (r: Payload)
    ensures Keys(r) == Keys(p) + {k}
    ensures ToMap(r) == ToMap(p)[k := v]
  {
    if p == [] then [(k, v)]
    else
      HeadNotInTail(p);
      ToMapCons(p);
      if p[0].0 == k then
        ConsDistinct((k, v), p[1..]);
        var r := [(k, v)] + p[1..];
        ToMapCons(r);
        assert r[1..] == p[1..];
        UpdateTwice(ToMap(p[1..]), k, p[0].1, v);
        r
      else
        var rest := Put(p[1..], k, v);
        ConsDistinct(p[0], rest);
        var r := [p[0]] + rest;
        ToMapCons(r);
        assert r[1..] == rest;
        UpdatesCommute(ToMap(p[1..]), k, v, p[0].0, p[0].1);
        r
  }

  lemma HeadNotInTail(p: Payload)
    requires p != []
    ensures p[0].0 !in Keys(p[1..])
  {
    KeysAreKeys(p[1..], p[0].0);
  }

  /** A key that is not yet in a dict can go in front of it. */
  lemma ConsDistinct(e: Entry, rest: Payload)
    requires e.0 !in Keys(rest)
    ensures DistinctKeys([e] + rest)
  {
    KeysAreKeys(rest, e.0);
    forall i, j | 0 <= i < j < |[e] + rest| ensures ([e] + rest)[i].0 != ([e] + rest)[j].0 {
      if i == 0 {
        assert ([e] + rest)[j] == rest[j - 1];
      } else {
        assert ([e] + rest)[i] == rest[i - 1] && ([e] + rest)[j] == rest[j - 1];
      }
    }
  }

  lemma ToMapCons(p: Payload)
    requires p != []
    ensures ToMap(p) == ToMap(p[1..])[p[0].0 := p[0].1]
  {
  }

  /** Entries compare by key, as `sort_keys=True` does. */
  predicate EntryLe(x: Entry, y: Entry) {
    StrLe(x.0, y.0)
  }

  lemma EntryLeIsTotal()
    ensures TotalPreorder(EntryLe)
    ensures forall x: Entry, y: Entry :: EntryLe(x, y) && EntryLe(y, x) ==> x.0 == y.0
  {
    StrLeIsTotal();
  }

  /** The dict's entries in key order, as `json.dumps(..., sort_keys=True)` emits them. */
  function SortKeys(p: Payload): (r: seq<Entry>)
    ensures multiset(r) == multiset(p)
    ensures Sorted(r, EntryLe)
  {
    EntryLeIsTotal();
    SortSorted(p, EntryLe);
    Sort(p, EntryLe)
  }

  lemma {:induction false} DistinctKeysCounts(p: Payload, e: Entry)
    ensures multiset(p)[e] == if e.0 in Keys(p) && ToMap(p)[e.0] == e.1 then 1 else 0
  {
    if p != [] {
      DistinctKeysCounts(p[1..], e);
      assert p == [p[0]] + p[1..];
      assert multiset(p) == multiset{p[0]} + multiset(p[1..]);
      KeysAreKeys(p[1..], p[0].0);
    }
  }

  /** Two dicts with the same keys and values give the same sorted entries, whatever their insertion order. */
  lemma SortKeysIgnoresInsertionOrder(p: Payload, q: Payload)
    requires ToMap(p) == ToMap(q)
    ensures SortKeys(p) == SortKeys(q)
  {
    forall e ensures multiset(p)[e] == multiset(q)[e] {
      DistinctKeysCounts(p, e);
      DistinctKeysCounts(q, e);
    }
    assert multiset(p) == multiset(q);
    EntryLeIsTotal();
    forall x, y | x in p && y in p && EntryLe(x, y) && EntryLe(y, x) ensures x == y {
      var i :| 0 <= i < |p| && p[i] == x;
      var j :| 0 <= j < |p| && p[j] == y;
      assert p[i].0 == p[j].0;
      assert i == j;
    }
    SortIgnoresOrder(p, q, EntryLe);
  }

  function HexDigit(d: nat): char
    requires d < 16
  {
    if d < 10 then ('0' as int + d) as char else ('a' as int + d - 10) as char
  }

  /** One character of a JSON string literal, escaped as Python's encoder does with ensure_ascii=False. */
  function EscapeChar(c: char): string {
    if c == '"' then "\\\""
    else if c == '\\' then "\\\\"
    else if c == '\n' then "\\n"
    else if c == '\r' then "\\r"
    else if c == '\t' then "\\t"
    else if c as int == 8 then "\\b"
    else if c as int == 12 then "\\f"
    else if c as int < 32 then "\\u00" + [HexDigit(c as int / 16), HexDigit(c as int % 16)]
    else [c]
  }

  function EscapeString(s: string): string {
    if s == [] then "" else EscapeChar(s[0]) + EscapeString(s[1..])
  }

  function StringLiteral(s: string): string {
    "\"" + EscapeString(s) + "\""
  }

  function DumpValue(v: Json): string {
    match v
    case JNull => "null"
    case JBool(b) => if b then "true" else "false"
    case JInt(i) => Decimal.IntToDecimal(i)
    case JStr(s) => StringLiteral(s)
    case JStrList(items) =>
      "[" + Join(seq(|items|, i requires 0 <= i < |items| => StringLiteral(items[i])), ", ") + "]"
  }

  /** `json.dumps` of a dict whose entries are given in the order they are to be written. */
  function DumpEntries(entries: seq<Entry>): string {
    "{" + Join(seq(|entries|, i requires 0 <= i < |entries| =>
                   StringLiteral(entries[i].0) + ": " + DumpValue(entries[i].1)), ", ") + "}"
  }

  /** `json.dumps(p, sort_keys=True, ensure_ascii=False)`. */
  function DumpSorted(p: Payload): string {
    DumpEntries(SortKeys(p))
  }

  /** The text that gets hashed depends only on the dict's keys and values. */
  lemma DumpSortedIgnoresInsertionOrder(p: Payload, q: Payload)
    requires ToMap(p) == ToMap(q)
    ensures DumpSorted(p) == DumpSorted(q)
  {
    SortKeysIgnoresInsertionOrder(p, q);
  }
}
