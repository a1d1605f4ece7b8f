/** The table sort both sorters perform: rows ordered by the columns
    (is_magic, is_public, rank), all descending, ties kept in their original
    order (a multi-column sort goes through a stable lexicographic sort). */
module MultiKeySort {

  /** The sort columns of one row. `rank` is the inverse distance of the
      call-graph sorter and the constant 0 of the naming-only sorter. */
  datatype Key = Key(magic: bool, public: bool, rank: int)

  /** `a` sorts at or before `b` under a descending sort on the three columns,
      compared left to right, with true above false. */
  predicate KeyGe(a: Key, b: Key)
  {
    if a.magic != b.magic then a.magic
    else if a.public != b.public then a.public
    else a.rank >= b.rank
  }

  /** One row of the table: the member it stands for and its sort columns. */
  datatype Row<T> = Row(item: T, key: Key)

  /** Every pair of rows, in order, is ordered by their keys. */
  ghost predicate Descending<T>(rows: seq<Row<T>>)
  {
    forall i, j :: 0 <= i < j < |rows| ==> KeyGe(rows[i].key, rows[j].key)
  }

  /** The rows whose key is exactly `k`, in their order. */
  function WithKey<T>(rows: seq<Row<T>>, k: Key): (r: seq<Row<T>>)
    ensures |r| <= |rows|
  {
    if rows == [] then []
    else (if rows[0].key == k then [rows[0]] else []) + WithKey(rows[1..], k)
  }

  /** The `node` column of the table. */
  function Items<T>(rows: seq<Row<T>>): (r: seq<T>)
    ensures |r| == |rows| && forall i :: 0 <= i < |rows| ==> r[i] == rows[i].item
  {
    if rows == [] then [] else [rows[0].item] + Items(rows[1..])
  }

  /** Inserts `r` before the first row whose key it is at least as great as,
      so that `r` also precedes every row with an equal key. */
  function Insert<T>(r: Row<T>, rows: seq<Row<T>>): seq<Row<T>>
  {
    if rows == [] || KeyGe(r.key, rows[0].key) then [r] + rows
    else [rows[0]] + Insert(r, rows[1..])
  }

  /** The sorted table. */
  function SortValues<T>(rows: seq<Row<T>>): seq<Row<T>>
  {
    if rows == [] then [] else Insert(rows[0], SortValues(rows[1..]))
  }

  lemma KeyGeTotal(a: Key, b: Key)
    ensures KeyGe(a, b) || KeyGe(b, a)
  {
  }

  lemma {:induction false} InsertPermutes<T>(r: Row<T>, rows: seq<Row<T>>)
    ensures multiset(Insert(r, rows)) == multiset(rows) + multiset{r}
  {
    if rows != [] && !KeyGe(r.key, rows[0].key) {
      InsertPermutes(r, rows[1..]);
      assert rows == [rows[0]] + rows[1..];
    }
  }

  /** Sorting only reorders the rows. */
  lemma {:induction false} SortPermutes<T>(rows: seq<Row<T>>)
    ensures multiset(SortValues(rows)) == multiset(rows)
  {
    if rows != [] {
      SortPermutes(rows[1..]);
      InsertPermutes(rows[0], SortValues(rows[1..]));
      assert rows == [rows[0]] + rows[1..];
    }
  }

  lemma {:induction false} InsertItems<T>(r: Row<T>, rows: seq<Row<T>>)
    ensures multiset(Items(Insert(r, rows))) == multiset(Items(rows)) + multiset{r.item}
  {
    if rows != [] && !KeyGe(r.key, rows[0].key) {
      InsertItems(r, rows[1..]);
      assert Items(rows) == [rows[0].item] + Items(rows[1..]);
    }
  }

  /** The `node` column of the sorted table is a permutation of the original
      column. */
  lemma {:induction false} SortPermutesItems<T>(rows: seq<Row<T>>)
    ensures multiset(Items(SortValues(rows))) == multiset(Items(rows))
  {
    if rows != [] {
      SortPermutesItems(rows[1..]);
      InsertItems(rows[0], SortValues(rows[1..]));
      assert Items(rows) == [rows[0].item] + Items(rows[1..]);
    }
  }

  /** A row is in the sorted table exactly when it is in the table. */
  lemma SortKeepsRows<T>(rows: seq<Row<T>>)
    ensures |SortValues(rows)| == |rows|
    ensures forall x :: x in SortValues(rows) <==> x in rows
  {
    SortPermutes(rows);
    assert |multiset(SortValues(rows))| == |multiset(rows)|;
    forall x ensures x in SortValues(rows) <==> x in rows {
      assert x in SortValues(rows) <==> x in multiset(SortValues(rows));
    }
  }

  lemma {:induction false} InsertDescending<T>(r: Row<T>, rows: seq<Row<T>>)
    requires Descending(rows)
    ensures Descending(Insert(r, rows))
  {
    if rows == [] || KeyGe(r.key, rows[0].key) {
      var s := [r] + rows;
      forall i, j | 0 <= i < j < |s| ensures KeyGe(s[i].key, s[j].key) {
        if i == 0 && j > 1 { assert KeyGe(rows[0].key, rows[j - 1].key); }
      }
    } else {
      InsertDescending(r, rows[1..]);
      InsertPermutes(r, rows[1..]);
      var s := [rows[0]] + Insert(r, rows[1..]);
      forall i, j | 0 <= i < j < |s| ensures KeyGe(s[i].key, s[j].key) {
        if i == 0 {
          var y := s[j];
          assert y in multiset(Insert(r, rows[1..]));
          assert y == r || y in rows[1..];
          if y != r {
            var m :| 0 <= m < |rows[1..]| && rows[1..][m] == y;
            assert KeyGe(rows[0].key, rows[m + 1].key);
          }
        }
      }
    }
  }

  /** The sorted table is ordered by key. */
  lemma {:induction false} SortDescending<T>(rows: seq<Row<T>>)
    ensures Descending(SortValues(rows))
  {
    if rows != [] {
      SortDescending(rows[1..]);
      InsertDescending(rows[0], SortValues(rows[1..]));
    }
  }

  lemma {:induction false} InsertWithKey<T>(r: Row<T>, rows: seq<Row<T>>, k: Key)
    ensures WithKey(Insert(r, rows), k) == (if r.key == k then [r] else []) + WithKey(rows, k)
  {
    if rows != [] && !KeyGe(r.key, rows[0].key) {
      InsertWithKey(r, rows[1..], k);
      assert r.key != rows[0].key;
    }
  }

  /** Stability: the rows with any one key keep their original relative order. */
  lemma {:induction false} SortStable<T>(rows: seq<Row<T>>, k: Key)
    ensures WithKey(SortValues(rows), k) == WithKey(rows, k)
  {
    if rows != [] {
      SortStable(rows[1..], k);
      InsertWithKey(rows[0], SortValues(rows[1..]), k);
    }
  }

  /** A table that is already ordered is left as it is. */
  lemma {:induction false} SortOfDescending<T>(rows: seq<Row<T>>)
    requires Descending(rows)
    ensures SortValues(rows) == rows
  {
    if rows != [] {
      assert Descending(rows[1..]) by {
        forall i, j | 0 <= i < j < |rows[1..]| ensures KeyGe(rows[1..][i].key, rows[1..][j].key) {
          assert KeyGe(rows[i + 1].key, rows[j + 1].key);
        }
      }
      SortOfDescending(rows[1..]);
      if |rows| > 1 { assert KeyGe(rows[0].key, rows[1].key); }
      assert rows == [rows[0]] + rows[1..];
    }
  }

  /** Sorting twice is sorting once. */
  lemma SortIdempotent<T>(rows: seq<Row<T>>)
    ensures SortValues(SortValues(rows)) == SortValues(rows)
  {
    SortDescending(rows);
    SortOfDescending(SortValues(rows));
  }

  // ---------------------------------------------------------------------
  // Tables whose keys are a function of their items.

  /** The items of `xs` whose key is `k`, in their order. */
  function Matching<T>(xs: seq<T>, key: T -> Key, k: Key): (r: seq<T>)
    ensures |r| <= |xs|
  {
    if xs == [] then [] else (if key(xs[0]) == k then [xs[0]] else []) + Matching(xs[1..], key, k)
  }

  lemma {:induction false} MatchingMembers<T>(xs: seq<T>, key: T -> Key, k: Key, x: T)
    ensures x in Matching(xs, key, k) <==> x in xs && key(x) == k
  {
    if xs != [] {
      MatchingMembers(xs[1..], key, k, x);
      assert xs == [xs[0]] + xs[1..];
    }
  }

  /** Every row carries the key of its own item. */
  ghost predicate KeyedBy<T>(rows: seq<Row<T>>, key: T -> Key)
  {
    forall r :: r in rows ==> r.key == key(r.item)
  }

  lemma {:induction false} KeyedByWithKey<T>(rows: seq<Row<T>>, key: T -> Key, k: Key)
    requires KeyedBy(rows, key)
    ensures Items(WithKey(rows, k)) == Matching(Items(rows), key, k)
  {
    if rows != [] {
      assert rows[0] in rows;
      assert KeyedBy(rows[1..], key) by {
        forall r | r in rows[1..] ensures r in rows { }
      }
      KeyedByWithKey(rows[1..], key, k);
      assert Items(rows)[1..] == Items(rows[1..]);
      var h := if rows[0].key == k then [rows[0]] else [];
      assert Items(h + WithKey(rows[1..], k)) == Items(h) + Items(WithKey(rows[1..], k));
    }
  }

  /** Stability stated on items: the items sharing one key keep their order. */
  lemma SortStableItems<T>(rows: seq<Row<T>>, key: T -> Key, k: Key)
    requires KeyedBy(rows, key)
    ensures KeyedBy(SortValues(rows), key)
    ensures Matching(Items(SortValues(rows)), key, k) == Matching(Items(rows), key, k)
  {
    SortPermutes(rows);
    forall r | r in SortValues(rows) ensures r.key == key(r.item) {
      assert r in multiset(SortValues(rows));
    }
    SortStable(rows, k);
    KeyedByWithKey(rows, key, k);
    KeyedByWithKey(SortValues(rows), key, k);
  }
}
