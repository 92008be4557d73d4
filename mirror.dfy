/**
 * A local ordered list that mirrors a remote table and is kept current by
 * change events. The same reconciliation is written twice in the dashboard,
 * once for the order board and once for the menu manager: INSERT appends the
 * new row without looking for its id, UPDATE maps every row with the new
 * row's id to the new row, DELETE filters out every row with the old row's id.
 */
module Mirror {
  import Seqs

  /**
   * A change event as the realtime channel delivers it: `eventType` with the
   * new row (INSERT, UPDATE) or the primary key of the old row (DELETE).
   */
  datatype Change<R> = Insert(row: R) | Update(row: R) | Delete(oldId: int)

  /** The number of rows whose key is `id`. */
  function CountKey<T>(s: seq<T>, key: T -> int, id: int): nat
    decreases |s|
  {
    if s == [] then 0 else (if key(s[0]) == id then 1 else 0) + CountKey(s[1..], key, id)
  }

  /** `s.map(row => key(row) === id ? x : row)`: the UPDATE step. */
  function ReplaceKey<T>(s: seq<T>, key: T -> int, id: int, x: T): (r: seq<T>)
    ensures |r| == |s|
    ensures forall i :: 0 <= i < |s| ==> r[i] == if key(s[i]) == id then x else s[i]
    decreases |s|
  {
    if s == [] then [] else [if key(s[0]) == id then x else s[0]] + ReplaceKey(s[1..], key, id, x)
  }

  /** `s.filter(row => key(row) !== id)`: the DELETE step. */
  function RemoveKey<T>(s: seq<T>, key: T -> int, id: int): seq<T> {
    Seqs.Filter(s, (row: T) => key(row) != id)
  }

  /** INSERT does not de-duplicate: appending a row adds one more row with its key, even when one is there already. */
  lemma {:induction false} InsertAddsKey<T>(s: seq<T>, key: T -> int, x: T)
    ensures CountKey(s + [x], key, key(x)) == CountKey(s, key, key(x)) + 1
    decreases |s|
  {
    if s == [] {
      assert [] + [x] == [x];
    } else {
      assert (s + [x])[1..] == s[1..] + [x];
      InsertAddsKey(s[1..], key, x);
    }
  }

  /** A redelivered INSERT leaves two rows with the same id. */
  lemma InsertTwiceDuplicates<T>(s: seq<T>, key: T -> int, x: T)
    ensures CountKey(s + [x] + [x], key, key(x)) == CountKey(s, key, key(x)) + 2
  {
    InsertAddsKey(s, key, x);
    InsertAddsKey(s + [x], key, x);
  }

  /** UPDATE keeps the rows it does not target and their positions; when no row has the id the list is unchanged. */
  lemma ReplaceAbsentIsIdentity<T>(s: seq<T>, key: T -> int, id: int, x: T)
    requires forall i :: 0 <= i < |s| ==> key(s[i]) != id
    ensures ReplaceKey(s, key, id, x) == s
  {
  }

  /** Applying the same UPDATE twice is applying it once. */
  lemma ReplaceIdempotent<T>(s: seq<T>, key: T -> int, id: int, x: T)
    requires key(x) == id
    ensures ReplaceKey(ReplaceKey(s, key, id, x), key, id, x) == ReplaceKey(s, key, id, x)
  {
  }

  /** After DELETE no row has the id, every other row is still there, in the same relative order, and exactly the matching rows are gone. */
  lemma {:induction false} RemoveKeySpec<T>(s: seq<T>, key: T -> int, id: int)
    ensures CountKey(RemoveKey(s, key, id), key, id) == 0
    ensures forall i :: 0 <= i < |s| && key(s[i]) != id ==> s[i] in RemoveKey(s, key, id)
    ensures Seqs.IsSubsequence(RemoveKey(s, key, id), s)
    ensures |RemoveKey(s, key, id)| == |s| - CountKey(s, key, id)
    decreases |s|
  {
    if s != [] {
      RemoveKeySpec(s[1..], key, id);
      var r := RemoveKey(s, key, id);
      if key(s[0]) != id {
        assert r == [s[0]] + RemoveKey(s[1..], key, id);
        assert r[1..] == RemoveKey(s[1..], key, id);
      } else {
        assert r == RemoveKey(s[1..], key, id);
      }
    }
  }

  /** DELETE of an id that no row has leaves the list unchanged. */
  lemma RemoveAbsentIsIdentity<T>(s: seq<T>, key: T -> int, id: int)
    requires CountKey(s, key, id) == 0
    ensures RemoveKey(s, key, id) == s
  {
    RemoveKeySpec(s, key, id);
    Seqs.FilterKeepsAll(s, (row: T) => key(row) != id);
  }

  /** A redelivered DELETE changes nothing. */
  lemma RemoveIdempotent<T>(s: seq<T>, key: T -> int, id: int)
    ensures RemoveKey(RemoveKey(s, key, id), key, id) == RemoveKey(s, key, id)
  {
    RemoveKeySpec(s, key, id);
    RemoveAbsentIsIdentity(RemoveKey(s, key, id), key, id);
  }

  /** An UPDATE followed by the DELETE of the same id ends like the DELETE alone. */
  lemma {:induction false} ReplaceThenRemove<T>(s: seq<T>, key: T -> int, id: int, x: T)
    requires key(x) == id
    ensures RemoveKey(ReplaceKey(s, key, id, x), key, id) == RemoveKey(s, key, id)
    decreases |s|
  {
    if s != [] {
      ReplaceThenRemove(s[1..], key, id, x);
      var u := ReplaceKey(s, key, id, x);
      assert u[1..] == ReplaceKey(s[1..], key, id, x);
    }
  }
}
