/**
 One object store of the device's local database, created with the key path
 `id`: `put` files a record under its key, replacing any record already there;
 `get` looks a key up; `getAll` lists every record in ascending key order;
 `delete` drops a key and is a no-op when the key is absent.

 The store is represented as its rows in ascending key order (a `Table`), and
 `Abs` maps it to the key-value `map` it denotes; every operation is specified
 against that map, and `AbsInjective` shows that the map determines the rows.
 */
module ObjectStore {
  import opened KeyOrder

  datatype Option<T> = None | Some(value: T)

  /** A record together with the key the store files it under. */
  datatype Row<V> = Row(key: Key, value: V)

  type Table<V> = seq<Row<V>>

  /** Keys strictly ascending, hence pairwise distinct. */
  predicate Sorted<V>(t: Table<V>)
  {
    forall i, j :: 0 <= i < j < |t| ==> Less(t[i].key, t[j].key)
  }

  /** Every key of `t` lies strictly above `x`. */
  predicate Above<V>(x: Key, t: Table<V>)
  {
    forall j :: 0 <= j < |t| ==> Less(x, t[j].key)
  }

  /** The key-value map a table denotes; the first row filed under a key wins. */
  function Abs<V>(t: Table<V>): map<Key, V>
    decreases |t|
  {
    if t == [] then map[] else Abs(t[1..])[t[0].key := t[0].value]
  }

  /** Every row's key is a key of the denoted map. */
  lemma {:induction false} AbsHasKey<V>(t: Table<V>, i: int)
    requires 0 <= i < |t|
    ensures t[i].key in Abs(t)
    decreases |t|
  {
    if i > 0 {
      AbsHasKey(t[1..], i - 1);
    }
  }

  /** Every key of the denoted map is filed in some row. */
  lemma {:induction false} AbsKeyRow<V>(t: Table<V>, k: Key) returns (i: int)
    requires k in Abs(t)
    ensures 0 <= i < |t| && t[i].key == k
    decreases |t|
  {
    if t[0].key == k {
      i := 0;
    } else {
      var j := AbsKeyRow(t[1..], k);
      i := j + 1;
    }
  }

  /** A bound on the rows is a bound on the denoted keys. */
  lemma {:induction false} AbsAbove<V>(x: Key, t: Table<V>)
    requires Above(x, t)
    ensures forall key :: key in Abs(t) ==> Less(x, key)
    decreases |t|
  {
    if t != [] {
      AbsAbove(x, t[1..]);
    }
  }

  /** A non-empty sorted table is its first row filed in front of a sorted tail. */
  lemma AbsCons<V>(t: Table<V>)
    requires Sorted(t) && t != []
    ensures Sorted(t[1..]) && Above(t[0].key, t[1..])
    ensures forall key :: key in Abs(t[1..]) ==> Less(t[0].key, key)
    ensures t[0].key !in Abs(t[1..])
    ensures Abs(t) == Abs(t[1..])[t[0].key := t[0].value]
  {
    var tail := t[1..];
    assert forall j :: 0 <= j < |tail| ==> tail[j] == t[j + 1];
    AbsAbove(t[0].key, tail);
    LessIrreflexive(t[0].key);
  }

  /** In a sorted table each row is what `Abs` yields for its key. */
  lemma {:induction false} AbsAt<V>(t: Table<V>, i: int)
    requires Sorted(t) && 0 <= i < |t|
    ensures t[i].key in Abs(t) && Abs(t)[t[i].key] == t[i].value
    decreases |t|
  {
    AbsHasKey(t, i);
    if i > 0 {
      AbsCons(t);
      assert t[1..][i - 1] == t[i];
      AbsHasKey(t[1..], i - 1);
      AbsAt(t[1..], i - 1);
    }
  }

  /** Putting `x` in front of a sorted table whose keys lie above it keeps it sorted. */
  lemma SortedCons<V>(x: Row<V>, t: Table<V>)
    requires Sorted(t) && Above(x.key, t)
    ensures Sorted([x] + t)
  {
    var s := [x] + t;
    forall i, j | 0 <= i < j < |s|
      ensures Less(s[i].key, s[j].key)
    {
      assert s[j] == t[j - 1];
      if i > 0 {
        assert s[i] == t[i - 1];
      }
    }
  }

  /** A bound on the denoted keys is a bound on the rows. */
  lemma AboveFromAbs<V>(x: Key, t: Table<V>)
    requires Sorted(t)
    requires forall key :: key in Abs(t) ==> Less(x, key)
    ensures Above(x, t)
  {
    forall j | 0 <= j < |t|
      ensures Less(x, t[j].key)
    {
      AbsHasKey(t, j);
    }
  }

  /** A sorted table holds one row per denoted key. */
  lemma {:induction false} AbsCard<V>(t: Table<V>)
    requires Sorted(t)
    ensures |Abs(t)| == |t|
    decreases |t|
  {
    if t == [] {
      assert Abs(t) == map[];
    } else {
      AbsCons(t);
      AbsCard(t[1..]);
    }
  }

  /** The denoted map determines a sorted table: the row order carries no information. */
  lemma {:induction false} AbsInjective<V>(a: Table<V>, b: Table<V>)
    requires Sorted(a) && Sorted(b)
    requires Abs(a) == Abs(b)
    ensures a == b
    decreases |a|
  {
    if a == [] || b == [] {
      AbsCard(a);
      AbsCard(b);
    } else {
      AbsCons(a);
      AbsCons(b);
      if a[0].key != b[0].key {
        assert a[0].key in Abs(b);
        assert b[0].key in Abs(a);
        LessAsymmetric(a[0].key, b[0].key);
        assert false;
      }
      assert Abs(a[1..]) == Abs(a) - {a[0].key};
      assert Abs(b[1..]) == Abs(b) - {b[0].key};
      AbsInjective(a[1..], b[1..]);
      assert a == [a[0]] + a[1..];
      assert b == [b[0]] + b[1..];
    }
  }

  /** `put`: file `v` under `k`, replacing whatever was filed there. */
  function Put<V>(t: Table<V>, k: Key, v: V): (r: Table<V>)
    requires Sorted(t)
    ensures Sorted(r)
    ensures Abs(r) == Abs(t)[k := v]
    decreases |t|
  {
    if t == [] then
      var r := [Row(k, v)];
      assert Abs(r) == map[k := v];
      r
    else
      AbsCons(t);
      if t[0].key == k then
        var r := [Row(k, v)] + t[1..];
        SortedCons(Row(k, v), t[1..]);
        AbsCons(r);
        assert r[1..] == t[1..];
        r
      else if Less(k, t[0].key) then
        var r := [Row(k, v)] + t;
        forall j | 0 <= j < |t|
          ensures Less(k, t[j].key)
        {
          if j > 0 {
            LessTransitive(k, t[0].key, t[j].key);
          }
        }
        SortedCons(Row(k, v), t);
        AbsCons(r);
        assert r[1..] == t;
        r
      else
        LessTotal(k, t[0].key);
        var rest := Put(t[1..], k, v);
        AboveFromAbs(t[0].key, rest);
        var r := [t[0]] + rest;
        SortedCons(t[0], rest);
        AbsCons(r);
        assert r[1..] == rest;
        r
  }

  /** `get`: the record filed under `k`, if any. */
  function Get<V>(t: Table<V>, k: Key): (r: Option<V>)
    requires Sorted(t)
    ensures r.Some? <==> k in Abs(t)
    ensures r.Some? ==> r.value == Abs(t)[k]
    decreases |t|
  {
    if t == [] then None
    else
      AbsCons(t);
      if t[0].key == k then Some(t[0].value)
      else Get(t[1..], k)
  }

  /** `getAll`: every record, in ascending key order. */
  function GetAll<V>(t: Table<V>): (r: seq<V>)
    requires Sorted(t)
    ensures |r| == |t| == |Abs(t)|
    ensures forall i :: 0 <= i < |r| ==> t[i].key in Abs(t) && Abs(t)[t[i].key] == r[i]
  {
    AbsCard(t);
    forall i | 0 <= i < |t|
      ensures t[i].key in Abs(t)
    {
      AbsHasKey(t, i);
    }
    forall i | 0 <= i < |t|
      ensures Abs(t)[t[i].key] == t[i].value
    {
      AbsAt(t, i);
    }
    seq(|t|, i requires 0 <= i < |t| => t[i].value)
  }

  /** `delete`: drop the record filed under `k`; absent keys leave the store as it is. */
  function Delete<V>(t: Table<V>, k: Key): (r: Table<V>)
    requires Sorted(t)
    ensures Sorted(r)
    ensures Abs(r) == Abs(t) - {k}
    ensures k !in Abs(t) ==> r == t
    decreases |t|
  {
    if t == [] then
      assert Abs(t) == map[];
      t
    else
      AbsCons(t);
      if t[0].key == k then
        t[1..]
      else
        var rest := Delete(t[1..], k);
        AboveFromAbs(t[0].key, rest);
        var r := [t[0]] + rest;
        SortedCons(t[0], rest);
        AbsCons(r);
        assert r[1..] == rest;
        assert k !in Abs(t) ==> r == [t[0]] + t[1..];
        r
  }

  /** A second `put` under the same key supersedes the first. */
  lemma PutPut<V>(t: Table<V>, k: Key, v1: V, v2: V)
    requires Sorted(t)
    ensures Put(Put(t, k, v1), k, v2) == Put(t, k, v2)
  {
    var a := Put(Put(t, k, v1), k, v2);
    var b := Put(t, k, v2);
    assert Abs(a) == Abs(b);
    AbsInjective(a, b);
  }

  /** Deleting a key that was just put for the first time restores the store. */
  lemma DeleteAfterFreshPut<V>(t: Table<V>, k: Key, v: V)
    requires Sorted(t) && k !in Abs(t)
    ensures Delete(Put(t, k, v), k) == t
  {
    var a := Delete(Put(t, k, v), k);
    assert Abs(a) == Abs(t);
    AbsInjective(a, t);
  }
}
