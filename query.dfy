/**
 * The two query shapes the endpoints use on a table: `filter(...)` keeps the
 * rows that satisfy a condition, in table order, and `order_by(...)` returns
 * the same rows sorted on one column. The database leaves the relative order
 * of rows with equal sort keys unspecified; the sort here keeps table order
 * for them, which is one of the orders the database may return.
 */
module Query {

  /** Every key is strictly larger than the keys before it (a primary-key column in insertion order). */
  predicate StrictlyIncreasing<T>(s: seq<T>, key: T -> int) {
    forall i, j :: 0 <= i < j < |s| ==> key(s[i]) < key(s[j])
  }

  /** The keys never decrease along the sequence (the result of an ascending `order_by`). */
  predicate Ascending<T>(s: seq<T>, key: T -> int) {
    forall i, j :: 0 <= i < j < |s| ==> key(s[i]) <= key(s[j])
  }

  /** The rows of `s` that satisfy `keep`, in table order. */
  function Filter<T(!new)>(s: seq<T>, keep: T -> bool): (r: seq<T>)
    ensures |r| <= |s|
  {
    if |s| == 0 then []
    else if keep(s[0]) then [s[0]] + Filter(s[1..], keep)
    else Filter(s[1..], keep)
  }

  /** `Filter` keeps exactly the rows that satisfy the condition. */
  lemma {:induction false} FilterMembers<T(!new)>(s: seq<T>, keep: T -> bool)
    ensures forall x :: x in Filter(s, keep) <==> x in s && keep(x)
  {
    if |s| > 0 {
      FilterMembers(s[1..], keep);
      assert s == [s[0]] + s[1..];
    }
  }

  lemma AppendAssoc<T>(a: seq<T>, b: seq<T>, c: seq<T>)
    ensures a + b + c == a + (b + c)
  {
  }

  /** Removing rows from a table keeps its primary keys increasing. */
  lemma {:induction false} FilterKeepsIncreasing<T(!new)>(s: seq<T>, keep: T -> bool, key: T -> int)
    requires StrictlyIncreasing(s, key)
    ensures StrictlyIncreasing(Filter(s, keep), key)
  {
    if |s| > 0 {
      var tail := s[1..];
      assert StrictlyIncreasing(tail, key);
      FilterKeepsIncreasing(tail, keep, key);
      var rest := Filter(tail, keep);
      FilterMembers(tail, keep);
      if keep(s[0]) {
        forall j | 0 <= j < |rest| ensures key(s[0]) < key(rest[j]) {
          AboveHead(s, key, rest[j]);
        }
      }
    }
  }

  lemma AboveHead<T>(s: seq<T>, key: T -> int, y: T)
    requires StrictlyIncreasing(s, key)
    requires |s| > 0 && y in s[1..]
    ensures key(s[0]) < key(y)
  {
    var j :| 0 <= j < |s[1..]| && s[1..][j] == y;
    assert s[j + 1] == y;
  }

  /** Inserts `x` into a sequence already ascending on `key`, after every row with a key not above it. */
  function Insert<T>(x: T, s: seq<T>, key: T -> int): (r: seq<T>)
    requires Ascending(s, key)
    ensures |r| == |s| + 1
    ensures r[0] == x || (|s| > 0 && r[0] == s[0])
    ensures Ascending(r, key)
    ensures multiset(r) == multiset{x} + multiset(s)
  {
    if |s| == 0 then [x]
    else if key(x) < key(s[0]) then [x] + s
    else
      assert s == [s[0]] + s[1..];
      [s[0]] + Insert(x, s[1..], key)
  }

  /** The rows of `s` ordered ascending on `key` (an `order_by(column.asc())`). */
  function SortBy<T>(s: seq<T>, key: T -> int): (r: seq<T>)
    ensures Ascending(r, key)
    ensures multiset(r) == multiset(s)
  {
    if |s| == 0 then []
    else
      assert s == [s[0]] + s[1..];
      Insert(s[0], SortBy(s[1..], key), key)
  }
}
