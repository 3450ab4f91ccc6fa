/**
 * A database table seen as the sequence of its rows, each with an integer
 * primary key given by a selector `key`. The repository operations are
 * built from these: `FirstOrDefault(x => x.Id == id)`, `AnyAsync`, removing
 * a found row and overwriting a found row.
 */
module KeyedTable {
  import opened Wrappers

  /** No two rows share a key: the primary-key constraint. */
  ghost predicate UniqueKeys<T>(s: seq<T>, key: T -> int)
  {
    forall i, j :: 0 <= i < j < |s| ==> key(s[i]) != key(s[j])
  }

  /** Some row has key `k`. */
  predicate HasKey<T>(s: seq<T>, key: T -> int, k: int)
  {
    exists i :: 0 <= i < |s| && key(s[i]) == k
  }

  /** The position of the first row with key `k`, scanning from the front. */
  function IndexOf<T>(s: seq<T>, key: T -> int, k: int): (r: Option<nat>)
    ensures r.None? <==> !HasKey(s, key, k)
    ensures r.Some? ==> r.value < |s| && key(s[r.value]) == k
    ensures r.Some? ==> forall j :: 0 <= j < r.value ==> key(s[j]) != k
  {
    if s == [] then None
    else if key(s[0]) == k then Some(0)
    else
      match IndexOf(s[1..], key, k)
      case None =>
        assert forall i :: 0 < i < |s| ==> s[i] == s[1..][i - 1];
        None
      case Some(j) => Some(j + 1)
  }

  /** `FirstOrDefault(x => key(x) == k)`: the first row with key `k`, or null. */
  function Find<T>(s: seq<T>, key: T -> int, k: int): (r: Option<T>)
    ensures r.None? <==> !HasKey(s, key, k)
    ensures r.Some? ==> r.value in s && key(r.value) == k
  {
    match IndexOf(s, key, k)
    case None => None
    case Some(i) => Some(s[i])
  }

  /** The table without the row at position `i`. */
  function RemoveAt<T>(s: seq<T>, i: nat): (r: seq<T>)
    requires i < |s|
    ensures |r| == |s| - 1
    ensures forall j :: 0 <= j < i ==> r[j] == s[j]
    ensures forall j :: i <= j < |r| ==> r[j] == s[j + 1]
  {
    s[..i] + s[i + 1..]
  }

  /** With unique keys, the row found for `k` is the only row with key `k`. */
  lemma FindUnique<T>(s: seq<T>, key: T -> int, k: int, i: nat)
    requires UniqueKeys(s, key)
    requires i < |s| && key(s[i]) == k
    ensures IndexOf(s, key, k) == Some(i)
    ensures Find(s, key, k) == Some(s[i])
  {
  }

  /**
   * Removing the row found for `k` removes exactly that row: no row with key
   * `k` is left, every other row stays in the same order, and keys stay unique.
   */
  lemma {:induction false} RemoveFound<T>(s: seq<T>, key: T -> int, k: int, i: nat)
    requires UniqueKeys(s, key)
    requires IndexOf(s, key, k) == Some(i)
    ensures !HasKey(RemoveAt(s, i), key, k)
    ensures UniqueKeys(RemoveAt(s, i), key)
    ensures forall x :: x in RemoveAt(s, i) <==> x in s && key(x) != k
  {
    var r := RemoveAt(s, i);
    forall x | x in s && key(x) != k ensures x in r {
      var j :| 0 <= j < |s| && s[j] == x;
      if j < i { assert r[j] == x; } else { assert j != i && r[j - 1] == x; }
    }
    forall x | x in r ensures x in s && key(x) != k {
      var j :| 0 <= j < |r| && r[j] == x;
      if j < i { assert s[j] == x; } else { assert s[j + 1] == x; }
    }
  }

  /**
   * Overwriting the row at `i` with a row of the same key keeps the keys
   * unique and changes no other row.
   */
  lemma {:induction false} ReplaceKeepsKeys<T>(s: seq<T>, key: T -> int, i: nat, x: T)
    requires UniqueKeys(s, key)
    requires i < |s| && key(x) == key(s[i])
    ensures UniqueKeys(s[i := x], key)
    ensures forall k :: HasKey(s[i := x], key, k) <==> HasKey(s, key, k)
    ensures forall j :: 0 <= j < |s| && j != i ==> s[i := x][j] == s[j]
  {
    var r := s[i := x];
    forall k | HasKey(s, key, k) ensures HasKey(r, key, k) {
      var j :| 0 <= j < |s| && key(s[j]) == k;
      assert key(r[j]) == k;
    }
    forall k | HasKey(r, key, k) ensures HasKey(s, key, k) {
      var j :| 0 <= j < |r| && key(r[j]) == k;
      assert key(s[j]) == k;
    }
  }
}
