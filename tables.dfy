/**
 * The Eloquent query operations the controllers use, over a table held as a
 * sequence of rows in storage order: `where(...)->first()`, `where(...)->get()`,
 * `updateOrCreate` and deleting the row found.
 */
module Tables {
  import opened Wrappers

  /** Position of the first row satisfying `matches` (`where(...)->first()`). */
  function FirstWhere<R>(rows: seq<R>, matches: R -> bool): (r: Option<nat>)
    ensures r.Some? ==> r.value < |rows| && matches(rows[r.value])
    ensures r.Some? ==> forall j :: 0 <= j < r.value ==> !matches(rows[j])
    ensures r.None? <==> forall j :: 0 <= j < |rows| ==> !matches(rows[j])
  {
    if |rows| == 0 then None
    else if matches(rows[0]) then Some(0)
    else match FirstWhere(rows[1..], matches)
      case None => None
      case Some(i) => Some(i + 1)
  }

  /** The rows satisfying `matches`, in storage order (`where(...)->get()`). */
  function Where<R(==,!new)>(rows: seq<R>, matches: R -> bool): (r: seq<R>)
    ensures forall x :: multiset(r)[x] == if matches(x) then multiset(rows)[x] else 0
    ensures forall x :: x in r <==> x in rows && matches(x)
  {
    if |rows| == 0 then []
    else
      assert rows == [rows[0]] + rows[1..];
      (if matches(rows[0]) then [rows[0]] else []) + Where(rows[1..], matches)
  }

  /** No two rows share a key. */
  predicate UniqueKeys<K(==), R>(rows: seq<R>, key: R -> K) {
    forall i, j :: 0 <= i < j < |rows| ==> key(rows[i]) != key(rows[j])
  }

  /** `updateOrCreate` with key `k`: `fill` the first row with that key, or, when
      there is none, append `fill(blank)`, where `blank` holds only the key. */
  function UpdateOrCreate<K(==), R>(rows: seq<R>, key: R -> K, k: K, fill: R -> R, blank: R): seq<R> {
    match FirstWhere(rows, r => key(r) == k)
    case Some(i) => rows[i := fill(rows[i])]
    case None => rows + [fill(blank)]
  }

  /** What `updateOrCreate` does when `fill` keeps the key: the table grows by one
      row exactly when no row had the key, rows with other keys stay where and what
      they were, some row with the key is the filled one, and unique keys stay unique. */
  lemma UpdateOrCreateSpec<K, R>(rows: seq<R>, key: R -> K, k: K, fill: R -> R, blank: R)
    requires key(blank) == k
    requires forall r :: key(fill(r)) == key(r)
    ensures var res := UpdateOrCreate(rows, key, k, fill, blank);
      && |res| == |rows| + (if exists i :: 0 <= i < |rows| && key(rows[i]) == k then 0 else 1)
      && (forall i :: 0 <= i < |rows| && key(rows[i]) != k ==> res[i] == rows[i])
      && (forall i :: |rows| <= i < |res| ==> res[i] == fill(blank))
      && (exists i :: 0 <= i < |res| && key(res[i]) == k && res[i] == fill(if i < |rows| then rows[i] else blank))
      && (UniqueKeys(rows, key) ==> UniqueKeys(res, key))
  {
    var res := UpdateOrCreate(rows, key, k, fill, blank);
    match FirstWhere(rows, r => key(r) == k)
    case Some(i) =>
      assert key(res[i]) == k;
    case None =>
      assert key(res[|rows|]) == k;
  }

  /** Under unique keys, the row with key `k` after `updateOrCreate` is the only one. */
  lemma UpdateOrCreateLeavesOneRow<K, R>(rows: seq<R>, key: R -> K, k: K, fill: R -> R, blank: R)
    requires key(blank) == k
    requires forall r :: key(fill(r)) == key(r)
    requires UniqueKeys(rows, key)
    ensures var res := UpdateOrCreate(rows, key, k, fill, blank);
      exists i :: 0 <= i < |res| && key(res[i]) == k && forall j :: 0 <= j < |res| && j != i ==> key(res[j]) != k
  {
    UpdateOrCreateSpec(rows, key, k, fill, blank);
    var res := UpdateOrCreate(rows, key, k, fill, blank);
    var i :| 0 <= i < |res| && key(res[i]) == k && res[i] == fill(if i < |rows| then rows[i] else blank);
    forall j | 0 <= j < |res| && j != i
      ensures key(res[j]) != k
    {
      if j < i {
        assert key(res[j]) != key(res[i]);
      } else {
        assert key(res[i]) != key(res[j]);
      }
    }
  }

  /** Repeating an `updateOrCreate` whose `fill` sets fixed values changes nothing more. */
  lemma UpdateOrCreateIdempotent<K, R>(rows: seq<R>, key: R -> K, k: K, fill: R -> R, blank: R)
    requires key(blank) == k
    requires forall r :: key(fill(r)) == key(r)
    requires forall r :: fill(fill(r)) == fill(r)
    ensures var once := UpdateOrCreate(rows, key, k, fill, blank);
      UpdateOrCreate(once, key, k, fill, blank) == once
  {
    var once := UpdateOrCreate(rows, key, k, fill, blank);
    var first := FirstWhere(rows, r => key(r) == k);
    var again := FirstWhere(once, r => key(r) == k);
    match first
    case Some(i) =>
      assert again == Some(i) by {
        assert key(once[i]) == k;
        assert forall j :: 0 <= j < i ==> once[j] == rows[j];
      }
    case None =>
      assert again == Some(|rows|) by {
        assert key(once[|rows|]) == k;
        assert forall j :: 0 <= j < |rows| ==> once[j] == rows[j];
      }
      assert once[|rows| := fill(once[|rows|])] == once;
  }

  /** `delete()` of the row at position `i`. */
  function RemoveAt<R>(rows: seq<R>, i: nat): (r: seq<R>)
    requires i < |rows|
  {
    rows[..i] + rows[i + 1..]
  }

  /** Deleting a row removes that row and keeps every other one, in order. */
  lemma RemoveAtSpec<R>(rows: seq<R>, i: nat)
    requires i < |rows|
    ensures var res := RemoveAt(rows, i);
      && |res| == |rows| - 1
      && multiset(res) == multiset(rows) - multiset{rows[i]}
      && (forall j :: 0 <= j < i ==> res[j] == rows[j])
      && (forall j :: i <= j < |res| ==> res[j] == rows[j + 1])
  {
    assert rows == rows[..i] + [rows[i]] + rows[i + 1..];
  }
}
