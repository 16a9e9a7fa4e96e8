/** The table queries the controllers issue through the ORM, over a table held
    as a sequence of rows: `filter(...).first()`, `filter(...).all()`,
    `order_by(...)`, `delete`, and the primary-key discipline of the tables. */
module Queries {
  import opened Wrappers

  /** `query.filter(p).first()`: the position of the first row satisfying `p`. */
  function FirstIndex<T>(rows: seq<T>, p: T -> bool): (r: Option<nat>)
    ensures r.Some? ==> r.value < |rows| && p(rows[r.value])
    ensures r.Some? ==> forall j :: 0 <= j < r.value ==> !p(rows[j])
    ensures r.None? <==> forall j :: 0 <= j < |rows| ==> !p(rows[j])
  {
    if rows == [] then None
    else if p(rows[0]) then Some(0)
    else match FirstIndex(rows[1..], p)
      case None => None
      case Some(k) => Some(k + 1)
  }

  /** `query.filter(p).all()` without an ordering: every row satisfying `p`, as
      often as it occurs in the table, and no other row. */
  function Filter<T(!new)>(rows: seq<T>, p: T -> bool): (r: seq<T>)
    ensures forall x :: multiset(r)[x] == if p(x) then multiset(rows)[x] else 0
    ensures forall x :: x in r <==> x in rows && p(x)
    ensures forall i :: 0 <= i < |r| ==> p(r[i])
  {
    if rows == [] then []
    else
      assert rows == [rows[0]] + rows[1..];
      (if p(rows[0]) then [rows[0]] else []) + Filter(rows[1..], p)
  }

  /** `le` orders every pair of values and is transitive: an `ORDER BY` key. */
  ghost predicate TotalPreorder<T(!new)>(le: (T, T) -> bool) {
    && (forall a, b :: le(a, b) || le(b, a))
    && (forall a, b, c :: le(a, b) && le(b, c) ==> le(a, c))
  }

  predicate SortedBy<T>(s: seq<T>, le: (T, T) -> bool) {
    forall i, j :: 0 <= i < j < |s| ==> le(s[i], s[j])
  }

  /** Inserts `x` into the sorted `s`, after every element that must precede it. */
  function Insert<T(!new)>(x: T, s: seq<T>, le: (T, T) -> bool): (r: seq<T>)
    requires TotalPreorder(le) && SortedBy(s, le)
    ensures multiset(r) == multiset(s) + multiset{x}
    ensures SortedBy(r, le)
  {
    if s == [] then [x]
    else if le(x, s[0]) then [x] + s
    else
      assert s == [s[0]] + s[1..];
      var rest := Insert(x, s[1..], le);
      assert forall y :: y in rest ==> le(s[0], y) by {
        forall y | y in rest
          ensures le(s[0], y)
        {
          assert y in multiset(rest);
          if y != x {
            assert y in multiset(s[1..]);
          }
        }
      }
      [s[0]] + rest
  }

  /** `order_by(key)`: a reordering of the rows that `le` sorts. The database
      leaves the order of equal keys open; this model picks insertion order. */
  function SortBy<T(!new)>(s: seq<T>, le: (T, T) -> bool): (r: seq<T>)
    requires TotalPreorder(le)
    ensures multiset(r) == multiset(s)
    ensures SortedBy(r, le)
  {
    if s == [] then []
    else
      assert s == [s[0]] + s[1..];
      Insert(s[0], SortBy(s[1..], le), le)
  }

  /** `session.delete(row)`: the table without the row at `i`, in the same order. */
  function RemoveAt<T>(s: seq<T>, i: nat): (r: seq<T>)
    requires i < |s|
    ensures |r| == |s| - 1
    ensures forall k :: 0 <= k < i ==> r[k] == s[k]
    ensures forall k :: i <= k < |r| ==> r[k] == s[k + 1]
    ensures multiset(r) == multiset(s) - multiset{s[i]}
  {
    assert s == s[..i] + [s[i]] + s[i + 1..];
    s[..i] + s[i + 1..]
  }

  /** The primary-key discipline of an autoincrement table: keys are distinct and
      below the next key the table will hand out. */
  predicate KeysBelow<T>(rows: seq<T>, key: T -> int, next: int) {
    && (forall i :: 0 <= i < |rows| ==> key(rows[i]) < next)
    && (forall i, j :: 0 <= i < j < |rows| ==> key(rows[i]) != key(rows[j]))
  }

  /** Inserting a row under the next key keeps the keys distinct. */
  lemma KeysBelowAppend<T>(rows: seq<T>, key: T -> int, next: int, x: T)
    requires KeysBelow(rows, key, next) && key(x) == next
    ensures KeysBelow(rows + [x], key, next + 1)
  {
  }

  /** Replacing a row by one with the same key keeps the keys distinct. */
  lemma KeysBelowReplace<T>(rows: seq<T>, key: T -> int, next: int, i: nat, x: T)
    requires KeysBelow(rows, key, next) && i < |rows| && key(x) == key(rows[i])
    ensures KeysBelow(rows[i := x], key, next)
  {
  }

  /** Deleting a row keeps the keys distinct. */
  lemma KeysBelowRemove<T>(rows: seq<T>, key: T -> int, next: int, i: nat)
    requires KeysBelow(rows, key, next) && i < |rows|
    ensures KeysBelow(RemoveAt(rows, i), key, next)
  {
    var r := RemoveAt(rows, i);
    forall a, b | 0 <= a < b < |r|
      ensures key(r[a]) != key(r[b])
    {
      var a' := if a < i then a else a + 1;
      var b' := if b < i then b else b + 1;
      assert r[a] == rows[a'] && r[b] == rows[b'];
    }
  }
}
