/** `rows.filter(r => key(r) !== k)`: the delete transition both pages
    apply to their table once the server has confirmed the delete. */
module Rows {

  function Without<T>(rows: seq<T>, key: T -> int, k: int): (r: seq<T>)
    ensures |r| <= |rows|
    ensures forall i :: 0 <= i < |r| ==> r[i] in rows && key(r[i]) != k
    ensures forall i :: 0 <= i < |rows| && key(rows[i]) != k ==> rows[i] in r
  {
    if rows == [] then []
    else (if key(rows[0]) != k then [rows[0]] else []) + Without(rows[1..], key, k)
  }

  /** The kept rows stay in their order: filtering a concatenation filters
      each part. */
  lemma {:induction false} WithoutAppend<T>(a: seq<T>, b: seq<T>, key: T -> int, k: int)
    ensures Without(a + b, key, k) == Without(a, key, k) + Without(b, key, k)
  {
    if a == [] {
      assert a + b == b;
    } else {
      assert (a + b)[0] == a[0];
      assert (a + b)[1..] == a[1..] + b;
      WithoutAppend(a[1..], b, key, k);
    }
  }

  /** Nothing changes when no row has the key. */
  lemma {:induction false} WithoutAbsent<T>(rows: seq<T>, key: T -> int, k: int)
    requires forall i :: 0 <= i < |rows| ==> key(rows[i]) != k
    ensures Without(rows, key, k) == rows
  {
    if rows != [] {
      WithoutAbsent(rows[1..], key, k);
    }
  }

  /** Each row with the key is dropped: the length shrinks by their number. */
  function Occurrences<T>(rows: seq<T>, key: T -> int, k: int): nat
  {
    if rows == [] then 0 else (if key(rows[0]) == k then 1 else 0) + Occurrences(rows[1..], key, k)
  }

  lemma {:induction false} WithoutLength<T>(rows: seq<T>, key: T -> int, k: int)
    ensures |Without(rows, key, k)| == |rows| - Occurrences(rows, key, k)
  {
    if rows != [] {
      WithoutLength(rows[1..], key, k);
    }
  }

  /** Deleting twice is deleting once. */
  lemma WithoutIdempotent<T>(rows: seq<T>, key: T -> int, k: int)
    ensures Without(Without(rows, key, k), key, k) == Without(rows, key, k)
  {
    var r := Without(rows, key, k);
    WithoutAbsent(r, key, k);
  }
}
