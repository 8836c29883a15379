/**
 * A database table as the sequence of its rows in storage order, with the
 * few query shapes the handlers use: a point lookup by key (`where … limit 1`),
 * an update by key, a filtered select, a count, and `order by … desc`.
 * Keys are given as named functions from a row to its key.
 */
module Table {
  import opened Wrappers

  /** No two rows share a key: what a primary key or a unique constraint guarantees. */
  predicate Unique<R, K(==)>(rows: seq<R>, key: R -> K) {
    forall i, j :: 0 <= i < j < |rows| ==> key(rows[i]) != key(rows[j])
  }

  /** Some row has key `k`. */
  predicate HasKey<R, K(==)>(rows: seq<R>, key: R -> K, k: K) {
    exists i :: 0 <= i < |rows| && key(rows[i]) == k
  }

  /** Index of the first row whose key is `k`: `.where(eq(column, k)).limit(1)`. */
  function FindIndex<R, K(==)>(rows: seq<R>, key: R -> K, k: K): (r: Option<nat>)
    ensures r.Some? ==> r.value < |rows| && key(rows[r.value]) == k
    ensures r.Some? ==> forall i :: 0 <= i < r.value ==> key(rows[i]) != k
    ensures r.None? <==> !HasKey(rows, key, k)
  {
    if rows == [] then None
    else if key(rows[0]) == k then Some(0)
    else
      match FindIndex(rows[1..], key, k)
      case None => None
      case Some(i) => Some(i + 1)
  }

  /** The first row whose key is `k`, if any. */
  function Find<R, K(==)>(rows: seq<R>, key: R -> K, k: K): (r: Option<R>)
    ensures r.Some? <==> HasKey(rows, key, k)
    ensures r.Some? ==> r.value in rows && key(r.value) == k
  {
    match FindIndex(rows, key, k)
    case None => None
    case Some(i) => Some(rows[i])
  }

  /** `update … set … where column = k`: every row with key `k` is rewritten by `f`, no other row changes. */
  function UpdateWhere<R, K(==)>(rows: seq<R>, key: R -> K, k: K, f: R -> R): (r: seq<R>)
    ensures |r| == |rows|
    ensures forall i :: 0 <= i < |rows| ==> r[i] == (if key(rows[i]) == k then f(rows[i]) else rows[i])
  {
    seq(|rows|, i requires 0 <= i < |rows| => if key(rows[i]) == k then f(rows[i]) else rows[i])
  }

  /** `select … where p`, in storage order. */
  function Select<R(==, !new)>(rows: seq<R>, p: R -> bool): (r: seq<R>)
    ensures |r| <= |rows|
    ensures forall x :: multiset(r)[x] == (if p(x) then multiset(rows)[x] else 0)
  {
    if rows == [] then []
    else
      assert rows == [rows[0]] + rows[1..];
      (if p(rows[0]) then [rows[0]] else []) + Select(rows[1..], p)
  }

  /** Number of rows whose key is `k`: `count(...)` over a join on that key. */
  function CountKey<R, K(==)>(rows: seq<R>, key: R -> K, k: K): (n: nat)
    ensures n <= |rows|
    ensures n == 0 <==> !HasKey(rows, key, k)
  {
    if rows == [] then 0
    else
      assert forall i :: 1 <= i < |rows| ==> rows[i] == rows[1..][i - 1];
      (if key(rows[0]) == k then 1 else 0) + CountKey(rows[1..], key, k)
  }

  /** Rows in non-increasing key order: `order by key desc`. */
  predicate SortedDesc<R>(rows: seq<R>, key: R -> int) {
    forall i, j :: 0 <= i < j < |rows| ==> key(rows[i]) >= key(rows[j])
  }

  function InsertDesc<R(==)>(x: R, rows: seq<R>, key: R -> int): (r: seq<R>)
    requires SortedDesc(rows, key)
    ensures SortedDesc(r, key)
    ensures multiset(r) == multiset(rows) + multiset{x}
    ensures |r| == |rows| + 1
  {
    if rows == [] || key(x) >= key(rows[0]) then [x] + rows
    else
      assert rows == [rows[0]] + rows[1..];
      var rest := InsertDesc(x, rows[1..], key);
      HeadBoundsRest(x, rows, rest, key);
      [rows[0]] + rest
  }

  lemma HeadBoundsRest<R>(x: R, rows: seq<R>, rest: seq<R>, key: R -> int)
    requires SortedDesc(rows, key) && rows != [] && key(x) < key(rows[0])
    requires multiset(rest) == multiset(rows[1..]) + multiset{x}
    ensures forall k :: 0 <= k < |rest| ==> key(rest[k]) <= key(rows[0])
  {
    forall k | 0 <= k < |rest| ensures key(rest[k]) <= key(rows[0]) {
      assert rest[k] in multiset(rest);
      if rest[k] != x {
        assert rest[k] in multiset(rows[1..]);
        var j :| 0 <= j < |rows[1..]| && rows[1..][j] == rest[k];
        assert rows[j + 1] == rest[k];
      }
    }
  }

  /**
   * `order by key desc`: a permutation of the rows in non-increasing key
   * order. Rows with equal keys keep their storage order (the database
   * promises no particular order for them).
   */
  function SortDesc<R(==)>(rows: seq<R>, key: R -> int): (r: seq<R>)
    ensures SortedDesc(r, key)
    ensures multiset(r) == multiset(rows)
    ensures |r| == |rows|
  {
    if rows == [] then []
    else
      assert rows == [rows[0]] + rows[1..];
      InsertDesc(rows[0], SortDesc(rows[1..], key), key)
  }

  /** Appending a row whose key is new keeps the key unique. */
  lemma AppendUnique<R, K>(rows: seq<R>, key: R -> K, x: R)
    ensures Unique(rows, key) && !HasKey(rows, key, key(x)) ==> Unique(rows + [x], key)
  {
    if Unique(rows, key) && !HasKey(rows, key, key(x)) {
      var r := rows + [x];
      forall i, j | 0 <= i < j < |r| ensures key(r[i]) != key(r[j]) {
        if j == |rows| {
          assert r[i] == rows[i];
        }
      }
    }
  }

  /** Rewriting rows without touching a key keeps that key unique. */
  lemma UpdateUnique<R, K, K2>(rows: seq<R>, key: R -> K, k: K, f: R -> R, key2: R -> K2)
    requires Unique(rows, key2)
    requires forall i :: 0 <= i < |rows| && key(rows[i]) == k ==> key2(f(rows[i])) == key2(rows[i])
    ensures Unique(UpdateWhere(rows, key, k, f), key2)
  {
    var r := UpdateWhere(rows, key, k, f);
    assert forall i :: 0 <= i < |rows| ==> key2(r[i]) == key2(rows[i]);
  }

  /** The first-match lookup depends only on the keys of the rows. */
  lemma FindIndexSameKeys<R, K>(a: seq<R>, b: seq<R>, key: R -> K, k: K)
    requires |a| == |b|
    requires forall i :: 0 <= i < |a| ==> key(a[i]) == key(b[i])
    ensures FindIndex(a, key, k) == FindIndex(b, key, k)
  {
    assert HasKey(a, key, k) <==> HasKey(b, key, k) by {
      assert forall i :: 0 <= i < |a| ==> (key(a[i]) == k <==> key(b[i]) == k);
    }
  }

  /** A key is present after an append exactly when it was present before or is the appended row's key. */
  lemma HasKeyAppend<R, K>(rows: seq<R>, key: R -> K, x: R, k: K)
    ensures HasKey(rows + [x], key, k) <==> HasKey(rows, key, k) || key(x) == k
  {
    if HasKey(rows, key, k) {
      var i :| 0 <= i < |rows| && key(rows[i]) == k;
      assert (rows + [x])[i] == rows[i];
    }
    if key(x) == k {
      assert (rows + [x])[|rows|] == x;
    }
  }

  /** After appending a row with a key no row had, the lookup of that key finds the new row. */
  lemma FindAppendNew<R, K>(rows: seq<R>, key: R -> K, x: R)
    requires !HasKey(rows, key, key(x))
    ensures FindIndex(rows + [x], key, key(x)) == Some(|rows|)
    ensures Find(rows + [x], key, key(x)) == Some(x)
  {
    var r := rows + [x];
    assert key(r[|rows|]) == key(x);
    assert forall i :: 0 <= i < |rows| ==> r[i] == rows[i];
  }

  /** Under a unique key, looking up a row's own key finds that row. */
  lemma UniqueFind<R, K>(rows: seq<R>, key: R -> K, x: R)
    requires Unique(rows, key) && x in rows
    ensures Find(rows, key, key(x)) == Some(x)
  {
    var i :| 0 <= i < |rows| && rows[i] == x;
    var j := FindIndex(rows, key, key(x)).value;
    assert !(j < i) && !(i < j);
  }

  /** Under a unique key, a present key is held by exactly one row. */
  lemma {:induction false} UniqueCountOne<R, K>(rows: seq<R>, key: R -> K, k: K)
    requires Unique(rows, key)
    ensures CountKey(rows, key, k) <= 1
    ensures CountKey(rows, key, k) == 1 <==> HasKey(rows, key, k)
  {
    if rows != [] {
      var tail := rows[1..];
      assert Unique(tail, key) by {
        forall i, j | 0 <= i < j < |tail| ensures key(tail[i]) != key(tail[j]) {
          assert tail[i] == rows[i + 1] && tail[j] == rows[j + 1];
        }
      }
      UniqueCountOne(tail, key, k);
      if key(rows[0]) == k {
        forall i | 0 <= i < |tail| ensures key(tail[i]) != k {
          assert tail[i] == rows[i + 1];
        }
      }
    }
  }
}
