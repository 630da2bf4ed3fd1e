/**
 * Python's insertion-ordered `dict` with string keys, as a sequence of entries.
 * Assigning to a key already present keeps its position and replaces its value;
 * assigning to a new key appends it.
 */
module Dicts {
  import opened Wrappers

  type Dict<V> = seq<(string, V)>

  function Keys<V>(d: Dict<V>): (r: seq<string>)
    ensures |r| == |d| && forall i | 0 <= i < |d| :: r[i] == d[i].0
  {
    if d == [] then [] else [d[0].0] + Keys(d[1..])
  }

  function Values<V>(d: Dict<V>): (r: seq<V>)
    ensures |r| == |d| && forall i | 0 <= i < |d| :: r[i] == d[i].1
  {
    if d == [] then [] else [d[0].1] + Values(d[1..])
  }

  predicate KeysDistinct<V>(d: Dict<V>) {
    forall i, j | 0 <= i < j < |d| :: d[i].0 != d[j].0
  }

  /** `d.get(k)`. */
  function Lookup<V>(d: Dict<V>, k: string): (r: Option<V>)
    ensures r.None? <==> k !in Keys(d)
    ensures r.Some? ==> exists i | 0 <= i < |d| :: d[i] == (k, r.value)
  {
    if d == [] then None
    else if d[0].0 == k then Some(d[0].1)
    else
      assert forall i | 1 <= i < |d| :: d[i] == d[1..][i - 1];
      Lookup(d[1..], k)
  }

  /** `d[k] = v`. */
  function Put<V>(d: Dict<V>, k: string, v: V): (r: Dict<V>)
    ensures k in Keys(d) ==> Keys(r) == Keys(d)
    ensures k !in Keys(d) ==> Keys(r) == Keys(d) + [k]
  {
    if d == [] then [(k, v)]
    else if d[0].0 == k then [(k, v)] + d[1..]
    else [d[0]] + Put(d[1..], k, v)
  }

  /** After `d[k] = v`, `k` maps to `v` and every other key keeps its value. */
  lemma {:induction false} PutLookup<V>(d: Dict<V>, k: string, v: V)
    ensures Lookup(Put(d, k, v), k) == Some(v)
    ensures forall k' | k' != k :: Lookup(Put(d, k, v), k') == Lookup(d, k')
  {
    if d != [] && d[0].0 != k {
      PutLookup(d[1..], k, v);
      var r := Put(d, k, v);
      assert r[1..] == Put(d[1..], k, v);
    }
  }

  /** Assignment never makes two entries share a key. */
  lemma {:induction false} PutKeysDistinct<V>(d: Dict<V>, k: string, v: V)
    requires KeysDistinct(d)
    ensures KeysDistinct(Put(d, k, v))
  {
    if d != [] && d[0].0 != k {
      PutKeysDistinct(d[1..], k, v);
      var r := Put(d, k, v);
      assert Keys(r) == [d[0].0] + Keys(Put(d[1..], k, v));
      assert d[0].0 !in Keys(d[1..]);
    }
  }

  /** Assigning to a key not yet present appends the entry. */
  lemma {:induction false} PutNew<V>(d: Dict<V>, k: string, v: V)
    requires k !in Keys(d)
    ensures Put(d, k, v) == d + [(k, v)]
  {
    if d != [] {
      assert k !in Keys(d[1..]);
      PutNew(d[1..], k, v);
      assert [d[0]] + (d[1..] + [(k, v)]) == d + [(k, v)];
    }
  }

  /** The dict as a map: what every key looks up to. */
  function ToMap<V>(d: Dict<V>): map<string, V>
  {
    if d == [] then map[] else ToMap(d[1..])[d[0].0 := d[0].1]
  }

  lemma {:induction false} LookupToMap<V>(d: Dict<V>, k: string)
    ensures Lookup(d, k) == if k in ToMap(d) then Some(ToMap(d)[k]) else None
  {
    if d != [] && d[0].0 != k {
      LookupToMap(d[1..], k);
    }
  }

  /** Assigning to the first key replaces its value. */
  lemma PutToMapFirst<V>(d: Dict<V>, k: string, v: V)
    requires d != [] && d[0].0 == k
    ensures ToMap(Put(d, k, v)) == ToMap(d)[k := v]
  {
    var m := ToMap(d[1..]);
    var r := Put(d, k, v);
    assert r == [(k, v)] + d[1..];
    assert r[1..] == d[1..];
    assert m[k := d[0].1][k := v] == m[k := v];
  }

  /** Updates of two different keys commute. */
  lemma UpdatesCommute<V>(m: map<string, V>, a: string, x: V, b: string, y: V)
    requires a != b
    ensures m[a := x][b := y] == m[b := y][a := x]
  {
  }

  /** Assigning to a later key updates the rest of the dict. */
  lemma PutToMapLater<V>(d: Dict<V>, k: string, v: V)
    requires d != [] && d[0].0 != k
    requires ToMap(Put(d[1..], k, v)) == ToMap(d[1..])[k := v]
    ensures ToMap(Put(d, k, v)) == ToMap(d)[k := v]
  {
    var r := Put(d, k, v);
    assert r[0] == d[0] && r[1..] == Put(d[1..], k, v);
    UpdatesCommute(ToMap(d[1..]), k, v, d[0].0, d[0].1);
  }

  /** `d[k] = v` is a map update of the dict's contents. */
  lemma {:induction false} PutToMap<V>(d: Dict<V>, k: string, v: V)
    ensures ToMap(Put(d, k, v)) == ToMap(d)[k := v]
  {
    if d != [] {
      if d[0].0 == k {
        PutToMapFirst(d, k, v);
      } else {
        PutToMap(d[1..], k, v);
        PutToMapLater(d, k, v);
      }
    }
  }

  /** Assigns each entry in order, failing at the first entry that failed. */
  function PutAll<V>(entries: seq<Result<(string, V)>>): Result<Dict<V>> {
    if entries == [] then Ok([])
    else
      var d :- PutAll(entries[..|entries| - 1]);
      var entry :- entries[|entries| - 1];
      Ok(Put(d, entry.0, entry.1))
  }

  /** With every entry present, the assignments succeed. */
  lemma {:induction false} PutAllOk<V>(entries: seq<Result<(string, V)>>)
    requires forall i | 0 <= i < |entries| :: entries[i].Ok?
    ensures PutAll(entries).Ok?
  {
    if entries != [] {
      var n := |entries| - 1;
      forall i | 0 <= i < n ensures entries[..n][i].Ok? {
        assert entries[..n][i] == entries[i];
      }
      PutAllOk(entries[..n]);
    }
  }

  /** One failed entry fails the assignments. */
  lemma {:induction false} PutAllErr<V>(entries: seq<Result<(string, V)>>, i: nat)
    requires i < |entries| && entries[i].Err?
    ensures PutAll(entries).Err?
  {
    var n := |entries| - 1;
    if i < n {
      assert entries[..n][i] == entries[i];
      PutAllErr(entries[..n], i);
    }
  }

  /** The assigned dict never holds a key twice. */
  lemma {:induction false} PutAllKeysDistinct<V>(entries: seq<Result<(string, V)>>)
    requires PutAll(entries).Ok?
    ensures KeysDistinct(PutAll(entries).value)
  {
    if entries != [] {
      var n := |entries| - 1;
      PutAllKeysDistinct(entries[..n]);
      PutKeysDistinct(PutAll(entries[..n]).value, entries[n].value.0, entries[n].value.1);
    }
  }

  /** A successful run of assignments is the run over all but the last, then the last. */
  lemma PutAllSnoc<V>(entries: seq<Result<(string, V)>>)
    requires PutAll(entries).Ok? && entries != []
    ensures var n := |entries| - 1;
      && PutAll(entries[..n]).Ok? && entries[n].Ok?
      && PutAll(entries).value == Put(PutAll(entries[..n]).value, entries[n].value.0, entries[n].value.1)
  {
  }

  /** No entry after the `i`-th assigns `key`. */
  predicate NoLaterKey<V>(entries: seq<Result<(string, V)>>, i: nat, key: string) {
    forall j | i < j < |entries| :: entries[j].Ok? ==> entries[j].value.0 != key
  }

  lemma NoLaterKeyPrefix<V>(entries: seq<Result<(string, V)>>, i: nat, key: string, n: nat)
    requires NoLaterKey(entries, i, key) && n <= |entries|
    ensures NoLaterKey(entries[..n], i, key)
  {
    forall j | i < j < n
      ensures entries[..n][j].Ok? ==> entries[..n][j].value.0 != key
    {
      assert entries[..n][j] == entries[j];
    }
  }

  /** A key maps to the value of the last entry carrying it. */
  lemma {:induction false} PutAllLastWins<V>(entries: seq<Result<(string, V)>>, i: nat)
    requires PutAll(entries).Ok? && i < |entries| && entries[i].Ok?
    requires NoLaterKey(entries, i, entries[i].value.0)
    ensures Lookup(PutAll(entries).value, entries[i].value.0) == Some(entries[i].value.1)
  {
    var n := |entries| - 1;
    PutAllSnoc(entries);
    var prev := PutAll(entries[..n]).value;
    var (k, v) := entries[n].value;
    PutLookup(prev, k, v);
    if i < n {
      var key := entries[i].value.0;
      assert entries[..n][i] == entries[i];
      NoLaterKeyPrefix(entries, i, key, n);
      PutAllLastWins(entries[..n], i);
    }
  }
}
