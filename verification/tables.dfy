/** What the SQL of the three DAOs means on a table held as a sequence of rows
    whose primary keys are distinct: `WHERE` filters, the single row that a
    `WHERE id = :id` finds, `INSERT OR REPLACE` and `UPDATE` on the primary key,
    and `ORDER BY` as a sort that is a permutation of its input. Row order in
    the sequence is insertion order, which is the rowid order while keys
    come from AUTOINCREMENT; SQL leaves ties among equal sort
    keys unspecified, so the sort promises only "sorted and a permutation". */
module Tables {
  import opened Models

  /** The primary-key constraint: no two rows share a key. */
  predicate DistinctKeys<T>(rows: seq<T>, key: T -> int) {
    forall i, j :: 0 <= i < j < |rows| ==> key(rows[i]) != key(rows[j])
  }

  predicate HasKey<T>(rows: seq<T>, key: T -> int, k: int) {
    exists i :: 0 <= i < |rows| && key(rows[i]) == k
  }

  /** `SELECT * ... WHERE p`, in table order. */
  function Where<T(==,!new)>(rows: seq<T>, p: T -> bool): (r: seq<T>)
    ensures forall x :: multiset(r)[x] == if p(x) then multiset(rows)[x] else 0
    ensures forall x :: x in r <==> x in rows && p(x)
    ensures |r| <= |rows|
  {
    if rows == [] then []
    else
      var rest := Where(rows[1..], p);
      assert rows == [rows[0]] + rows[1..];
      assert forall x :: x in rows <==> x == rows[0] || x in rows[1..];
      if p(rows[0]) then [rows[0]] + rest else rest
  }

  lemma {:induction false} WhereKeepsDistinct<T(!new)>(rows: seq<T>, p: T -> bool, key: T -> int)
    requires DistinctKeys(rows, key)
    ensures DistinctKeys(Where(rows, p), key)
  {
    if rows != [] {
      assert DistinctKeys(rows[1..], key);
      WhereKeepsDistinct(rows[1..], p, key);
      if p(rows[0]) {
        HeadKeyNotInTail(rows, key);
        ConsKeepsDistinct(rows[0], Where(rows[1..], p), key);
      }
    }
  }

  lemma HeadKeyNotInTail<T>(rows: seq<T>, key: T -> int)
    requires rows != [] && DistinctKeys(rows, key)
    ensures forall y :: y in rows[1..] ==> key(y) != key(rows[0])
  {
    forall y | y in rows[1..] ensures key(y) != key(rows[0]) {
      var i :| 0 <= i < |rows[1..]| && rows[1..][i] == y;
      assert rows[i + 1] == y;
    }
  }

  lemma ConsKeepsDistinct<T>(h: T, t: seq<T>, key: T -> int)
    requires DistinctKeys(t, key)
    requires forall y :: y in t ==> key(y) != key(h)
    ensures DistinctKeys([h] + t, key)
  {
    var r := [h] + t;
    forall i, j | 0 <= i < j < |r| ensures key(r[i]) != key(r[j]) {
      assert r[j] == t[j - 1];
      if i > 0 {
        assert r[i] == t[i - 1];
      } else {
        assert t[j - 1] in t;
      }
    }
  }

  /** The first row in table order satisfying `p`: what a query without
      `ORDER BY` returns when the DAO asks for a single row. */
  function FirstWhere<T(==,!new)>(rows: seq<T>, p: T -> bool): (r: Option<T>)
    ensures r.Some? ==> r.value in rows && p(r.value)
    ensures r.Some? ==> exists i :: 0 <= i < |rows| && rows[i] == r.value
                                 && forall j :: 0 <= j < i ==> !p(rows[j])
    ensures r.None? <==> forall x :: x in rows ==> !p(x)
  {
    if rows == [] then None
    else if p(rows[0]) then Some(rows[0])
    else
      var r := FirstWhere(rows[1..], p);
      assert forall x :: x in rows <==> x == rows[0] || x in rows[1..];
      if r.Some? then
        var i :| 0 <= i < |rows[1..]| && rows[1..][i] == r.value
                 && forall j :: 0 <= j < i ==> !p(rows[1..][j]);
        assert rows[i + 1] == r.value;
        assert forall j :: 0 <= j < i + 1 ==> !p(rows[j]);
        r
      else r
  }

  /** `SELECT * ... WHERE id = :k`: a row with key `k`, or null when there is
      none; with distinct keys it is the only such row. */
  function Lookup<T(==,!new)>(rows: seq<T>, key: T -> int, k: int): (r: Option<T>)
    ensures r.Some? ==> r.value in rows && key(r.value) == k
    ensures r.None? <==> !HasKey(rows, key, k)
    ensures DistinctKeys(rows, key) ==> forall x :: x in rows && key(x) == k ==> r == Some(x)
  {
    var r := FirstWhere(rows, x => key(x) == k);
    assert r.None? <==> !HasKey(rows, key, k) by {
      if HasKey(rows, key, k) {
        var i :| 0 <= i < |rows| && key(rows[i]) == k;
        assert rows[i] in rows;
      }
    }
    r
  }

  /** `UPDATE ... WHERE id = key(x)` setting every column from `x`: the row with
      that key becomes `x`, every other row is untouched, and with no such row
      nothing changes. */
  function Replace<T>(rows: seq<T>, key: T -> int, x: T): (r: seq<T>)
    ensures |r| == |rows|
    ensures forall i :: 0 <= i < |r| ==>
              r[i] == if key(rows[i]) == key(x) then x else rows[i]
  {
    if rows == [] then []
    else (if key(rows[0]) == key(x) then [x] else [rows[0]]) + Replace(rows[1..], key, x)
  }

  /** `INSERT OR REPLACE` on the primary key: a row with the same key is
      replaced, otherwise `x` is added; every other row stays. */
  function Upsert<T(==,!new)>(rows: seq<T>, key: T -> int, x: T): (r: seq<T>)
    requires DistinctKeys(rows, key)
    ensures DistinctKeys(r, key)
    ensures forall y :: y in r <==> y == x || (y in rows && key(y) != key(x))
    ensures !HasKey(rows, key, key(x)) ==> r == rows + [x]
    ensures HasKey(rows, key, key(x)) ==> |r| == |rows|
  {
    if HasKey(rows, key, key(x)) then
      ReplaceContents(rows, key, x);
      Replace(rows, key, x)
    else
      assert forall y :: y in rows ==> key(y) != key(x);
      rows + [x]
  }

  lemma ReplaceContents<T(!new)>(rows: seq<T>, key: T -> int, x: T)
    requires DistinctKeys(rows, key) && HasKey(rows, key, key(x))
    ensures DistinctKeys(Replace(rows, key, x), key)
    ensures forall y :: y in Replace(rows, key, x) <==> y == x || (y in rows && key(y) != key(x))
  {
    var r := Replace(rows, key, x);
    assert forall i :: 0 <= i < |r| ==> key(r[i]) == key(rows[i]);
    forall y | y in r ensures y == x || (y in rows && key(y) != key(x)) {
      var i :| 0 <= i < |r| && r[i] == y;
    }
    forall y | y == x || (y in rows && key(y) != key(x)) ensures y in r {
      if y == x {
        var i :| 0 <= i < |rows| && key(rows[i]) == key(x);
        assert r[i] == x;
      } else {
        var i :| 0 <= i < |rows| && rows[i] == y;
        assert r[i] == y;
      }
    }
  }

  /** Filtering with a condition that implies `p` sees through an earlier
      filter by `p`: the rows `p` removed could not have been selected. */
  lemma {:induction false} WhereOfWhere<T(!new)>(rows: seq<T>, p: T -> bool, q: T -> bool)
    requires forall x :: q(x) ==> p(x)
    ensures Where(Where(rows, p), q) == Where(rows, q)
  {
    if rows != [] {
      WhereOfWhere(rows[1..], p, q);
    }
  }

  lemma {:induction false} FirstWhereOfWhere<T(!new)>(rows: seq<T>, p: T -> bool, q: T -> bool)
    requires forall x :: q(x) ==> p(x)
    ensures FirstWhere(Where(rows, p), q) == FirstWhere(rows, q)
  {
    if rows != [] {
      FirstWhereOfWhere(rows[1..], p, q);
    }
  }

  // --- AUTOINCREMENT primary keys ---------------------------------------------

  /** The key a row gets on insert: Room binds an `id` of 0 as NULL, so the
      table picks `nextId`; any other id is kept. */
  function AssignedKey(k: int, nextId: int): int {
    if k == 0 then nextId else k
  }

  /** AUTOINCREMENT never hands out a key at or below the largest key ever
      stored, so after storing `k` the next fresh key is above it. */
  function NextKeyAfter(nextId: int, k: int): (r: int)
    ensures r >= nextId && r > k
    ensures r == nextId || r == k + 1
  {
    if k + 1 > nextId then k + 1 else nextId
  }

  /** What the table guarantees about its keys: they are distinct, none is 0
      (0 is never stored, it asks for a fresh key), and every one is below the
      next fresh key. */
  predicate KeyedTable<T>(rows: seq<T>, key: T -> int, nextId: int) {
    && DistinctKeys(rows, key)
    && (forall i :: 0 <= i < |rows| ==> key(rows[i]) != 0 && key(rows[i]) < nextId)
    && nextId >= 1
  }

  lemma UpsertKeepsKeyed<T(!new)>(rows: seq<T>, key: T -> int, nextId: int, x: T)
    requires KeyedTable(rows, key, nextId) && key(x) != 0
    ensures KeyedTable(Upsert(rows, key, x), key, NextKeyAfter(nextId, key(x)))
  {
    var r := Upsert(rows, key, x);
    forall i | 0 <= i < |r| ensures key(r[i]) != 0 && key(r[i]) < NextKeyAfter(nextId, key(x)) {
      assert r[i] in r;
      if r[i] != x {
        var j :| 0 <= j < |rows| && rows[j] == r[i];
      }
    }
  }

  /** A fresh key is not in the table, so the insert appends. */
  lemma FreshKeyAppends<T(!new)>(rows: seq<T>, key: T -> int, nextId: int, x: T)
    requires KeyedTable(rows, key, nextId) && key(x) == nextId
    ensures Upsert(rows, key, x) == rows + [x]
  {
    assert !HasKey(rows, key, key(x));
  }

  lemma ReplaceKeepsKeyed<T(!new)>(rows: seq<T>, key: T -> int, nextId: int, x: T)
    requires KeyedTable(rows, key, nextId)
    ensures KeyedTable(Replace(rows, key, x), key, nextId)
  {
    var r := Replace(rows, key, x);
    assert forall i :: 0 <= i < |r| ==> key(r[i]) == key(rows[i]);
  }

  lemma WhereKeepsKeyed<T(!new)>(rows: seq<T>, key: T -> int, nextId: int, p: T -> bool)
    requires KeyedTable(rows, key, nextId)
    ensures KeyedTable(Where(rows, p), key, nextId)
  {
    WhereKeepsDistinct(rows, p, key);
    var r := Where(rows, p);
    forall i | 0 <= i < |r| ensures key(r[i]) != 0 && key(r[i]) < nextId {
      assert r[i] in rows;
      var j :| 0 <= j < |rows| && rows[j] == r[i];
    }
  }

  /** `withKey` sets a row's key: the entity's `copy(id = k)`. */
  ghost predicate SetsKey<T(!new)>(key: T -> int, withKey: (T, int) -> T) {
    forall x, k :: key(withKey(x, k)) == k
  }

  /** Room's `@Insert(onConflict = REPLACE)` into an AUTOINCREMENT table: `x`,
      with the key the table assigns, replaces any row with that key and every
      other row stays; a key of 0 gets the next fresh key and the row is
      appended. The result is the new rows and the new next fresh key. */
  function InsertRow<T(==,!new)>(rows: seq<T>, nextId: int, key: T -> int, withKey: (T, int) -> T, x: T)
    : (r: (seq<T>, int))
    requires KeyedTable(rows, key, nextId) && SetsKey(key, withKey)
    ensures KeyedTable(r.0, key, r.1)
    ensures var y := withKey(x, AssignedKey(key(x), nextId));
            forall z :: z in r.0 <==> z == y || (z in rows && key(z) != key(y))
    ensures key(x) == 0 ==> r.0 == rows + [withKey(x, nextId)] && r.1 == nextId + 1
  {
    var y := withKey(x, AssignedKey(key(x), nextId));
    UpsertKeepsKeyed(rows, key, nextId, y);
    if key(x) == 0 then
      FreshKeyAppends(rows, key, nextId, y);
      (Upsert(rows, key, y), NextKeyAfter(nextId, key(y)))
    else
      (Upsert(rows, key, y), NextKeyAfter(nextId, key(y)))
  }

  /** A list insert: the rows inserted one after another, in list order. */
  function InsertRows<T(==,!new)>(rows: seq<T>, nextId: int, key: T -> int, withKey: (T, int) -> T, xs: seq<T>)
    : (r: (seq<T>, int))
    requires KeyedTable(rows, key, nextId) && SetsKey(key, withKey)
    ensures KeyedTable(r.0, key, r.1)
  {
    if xs == [] then (rows, nextId)
    else
      var t := InsertRows(rows, nextId, key, withKey, xs[..|xs| - 1]);
      InsertRow(t.0, t.1, key, withKey, xs[|xs| - 1])
  }

  /** Rows that carry key 0 never replace anything: they are appended with
      consecutive fresh keys and every existing row stays as it was. */
  lemma {:induction false} FreshRowsAppend<T(!new)>(rows: seq<T>, nextId: int, key: T -> int, withKey: (T, int) -> T, xs: seq<T>)
    requires KeyedTable(rows, key, nextId) && SetsKey(key, withKey)
    requires forall i :: 0 <= i < |xs| ==> key(xs[i]) == 0
    ensures var r := InsertRows(rows, nextId, key, withKey, xs);
            && |r.0| == |rows| + |xs|
            && r.0[..|rows|] == rows
            && (forall i :: 0 <= i < |xs| ==> r.0[|rows| + i] == withKey(xs[i], nextId + i))
            && r.1 == nextId + |xs|
  {
    if xs != [] {
      var init := xs[..|xs| - 1];
      FreshRowsAppend(rows, nextId, key, withKey, init);
      var t := InsertRows(rows, nextId, key, withKey, init);
      var r := InsertRow(t.0, t.1, key, withKey, xs[|xs| - 1]);
      assert r.0 == t.0 + [withKey(xs[|xs| - 1], t.1)];
      forall i | 0 <= i < |xs| ensures r.0[|rows| + i] == withKey(xs[i], nextId + i) {
        if i < |xs| - 1 {
          assert init[i] == xs[i];
        }
      }
    }
  }

  // --- ORDER BY ---------------------------------------------------------------

  /** `le` orders every pair and chains: what an `ORDER BY` key provides. */
  ghost predicate TotalPreorder<T(!new)>(le: (T, T) -> bool) {
    && (forall a, b :: le(a, b) || le(b, a))
    && (forall a, b, c :: le(a, b) && le(b, c) ==> le(a, c))
  }

  predicate SortedBy<T>(s: seq<T>, le: (T, T) -> bool) {
    forall i, j :: 0 <= i < j < |s| ==> le(s[i], s[j])
  }

  function InsertSorted<T(==,!new)>(x: T, s: seq<T>, le: (T, T) -> bool): (r: seq<T>)
    requires TotalPreorder(le) && SortedBy(s, le)
    ensures multiset(r) == multiset(s) + multiset{x}
    ensures SortedBy(r, le)
  {
    if s == [] || le(x, s[0]) then
      SmallestFirst(x, s, le);
      [x] + s
    else
      var rest := InsertSorted(x, s[1..], le);
      assert s == [s[0]] + s[1..];
      HeadLeTail(s, le);
      forall y | y in rest ensures le(s[0], y) {
        assert y in multiset(rest);
      }
      ConsKeepsSorted(s[0], rest, le);
      [s[0]] + rest
  }

  lemma SmallestFirst<T(!new)>(x: T, s: seq<T>, le: (T, T) -> bool)
    requires TotalPreorder(le) && SortedBy(s, le)
    requires s == [] || le(x, s[0])
    ensures SortedBy([x] + s, le)
  {
    forall y | y in s ensures le(x, y) {
      var i :| 0 <= i < |s| && s[i] == y;
      if i > 0 {
        assert le(s[0], s[i]);
      }
    }
    ConsKeepsSorted(x, s, le);
  }

  lemma HeadLeTail<T>(s: seq<T>, le: (T, T) -> bool)
    requires s != [] && SortedBy(s, le)
    ensures forall y :: y in s[1..] ==> le(s[0], y)
  {
    forall y | y in s[1..] ensures le(s[0], y) {
      var i :| 0 <= i < |s[1..]| && s[1..][i] == y;
      assert s[i + 1] == y;
    }
  }

  lemma ConsKeepsSorted<T>(h: T, t: seq<T>, le: (T, T) -> bool)
    requires SortedBy(t, le)
    requires forall y :: y in t ==> le(h, y)
    ensures SortedBy([h] + t, le)
  {
    var r := [h] + t;
    forall i, j | 0 <= i < j < |r| ensures le(r[i], r[j]) {
      assert r[j] == t[j - 1];
      if i > 0 {
        assert r[i] == t[i - 1];
      } else {
        assert t[j - 1] in t;
      }
    }
  }

  /** `ORDER BY le ASC`: a sorted permutation of `s`. */
  function SortBy<T(==,!new)>(s: seq<T>, le: (T, T) -> bool): (r: seq<T>)
    requires TotalPreorder(le)
    ensures multiset(r) == multiset(s)
    ensures |r| == |s|
    ensures SortedBy(r, le)
  {
    if s == [] then []
    else
      assert s == [s[0]] + s[1..];
      var r := InsertSorted(s[0], SortBy(s[1..], le), le);
      assert |r| == |multiset(r)|;
      r
  }
}
