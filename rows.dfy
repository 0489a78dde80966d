/**
 * Table rows `(state, symbol, value)` as the generator emits them and the
 * driver reads them back: the stable sort by `(state, symbol)` the generator
 * applies before writing, and the dictionary the driver fills row by row, in
 * which a later row with the same key overwrites an earlier one.
 */
module Rows {
  import opened Text
  import opened Grammar

  datatype Row<V> = Row(state: int, sym: Symbol, val: V)

  type Key = (int, Symbol)

  function KeyOf<V>(r: Row<V>): Key {
    (r.state, r.sym)
  }

  /** Python's `<` on `(int, str)` tuples: by state, then by symbol. */
  predicate KeyLt(a: Key, b: Key) {
    a.0 < b.0 || (a.0 == b.0 && StrLt(a.1, b.1))
  }

  lemma KeyLtTransitive(a: Key, b: Key, c: Key)
    requires KeyLt(a, b) && KeyLt(b, c)
    ensures KeyLt(a, c)
  {
    if a.0 == b.0 && b.0 == c.0 {
      StrLtTransitive(a.1, b.1, c.1);
    }
  }

  lemma KeyLtIrreflexive(a: Key)
    ensures !KeyLt(a, a)
  {
    StrLtIrreflexive(a.1);
  }

  /** What `list.sort(key=...)` guarantees: no row is followed by a row with a smaller key. */
  predicate Sorted<V>(rows: seq<Row<V>>) {
    forall i, j :: 0 <= i < j < |rows| ==> !KeyLt(KeyOf(rows[j]), KeyOf(rows[i]))
  }

  /** Insert `x` into sorted `s` after every row whose key is not greater than its own. */
  function Insert<V>(x: Row<V>, s: seq<Row<V>>): seq<Row<V>> {
    if s == [] then [x]
    else if KeyLt(KeyOf(x), KeyOf(s[0])) then [x] + s
    else [s[0]] + Insert(x, s[1..])
  }

  /** A stable sort by key, as Python's `list.sort` is. */
  function SortRows<V>(rows: seq<Row<V>>): seq<Row<V>> {
    if rows == [] then []
    else Insert(rows[|rows| - 1], SortRows(rows[..|rows| - 1]))
  }

  lemma {:induction false} InsertSorted<V>(x: Row<V>, s: seq<Row<V>>)
    requires Sorted(s)
    ensures Sorted(Insert(x, s)) && multiset(Insert(x, s)) == multiset(s) + multiset{x}
  {
    if s == [] {
    } else if KeyLt(KeyOf(x), KeyOf(s[0])) {
      var t := [x] + s;
      forall i, j | 0 <= i < j < |t| ensures !KeyLt(KeyOf(t[j]), KeyOf(t[i])) {
        if i == 0 && KeyLt(KeyOf(t[j]), KeyOf(x)) {
          if j > 1 {
            KeyLtTransitive(KeyOf(t[j]), KeyOf(x), KeyOf(s[0]));
          } else {
            KeyLtTransitive(KeyOf(s[0]), KeyOf(x), KeyOf(s[0]));
            KeyLtIrreflexive(KeyOf(s[0]));
          }
        }
      }
    } else {
      assert s == [s[0]] + s[1..];
      var rest := Insert(x, s[1..]);
      InsertSorted(x, s[1..]);
      var t := [s[0]] + rest;
      forall j | 0 < j < |t| ensures !KeyLt(KeyOf(t[j]), KeyOf(s[0])) {
        assert t[j] in multiset(rest);
      }
    }
  }

  /** Sorting gives a sorted permutation of its input. */
  lemma {:induction false} SortRowsSorted<V>(rows: seq<Row<V>>)
    ensures Sorted(SortRows(rows)) && multiset(SortRows(rows)) == multiset(rows)
  {
    if rows != [] {
      var init := rows[..|rows| - 1];
      SortRowsSorted(init);
      InsertSorted(rows[|rows| - 1], SortRows(init));
      assert rows == init + [rows[|rows| - 1]];
    }
  }

  /** The rows with key `k`, in their order. */
  function Filter<V>(rows: seq<Row<V>>, k: Key): seq<Row<V>> {
    if rows == [] then []
    else (if KeyOf(rows[0]) == k then [rows[0]] else []) + Filter(rows[1..], k)
  }

  lemma {:induction false} FilterAppend<V>(a: seq<Row<V>>, b: seq<Row<V>>, k: Key)
    ensures Filter(a + b, k) == Filter(a, k) + Filter(b, k)
  {
    if a == [] {
      assert a + b == b;
    } else {
      assert (a + b)[1..] == a[1..] + b;
      FilterAppend(a[1..], b, k);
    }
  }

  /** The filtered rows are exactly the rows with key `k`. */
  lemma {:induction false} FilterMembers<V>(rows: seq<Row<V>>, k: Key)
    ensures forall x :: x in Filter(rows, k) <==> x in rows && KeyOf(x) == k
  {
    if rows != [] {
      FilterMembers(rows[1..], k);
      assert rows == [rows[0]] + rows[1..];
    }
  }

  lemma {:induction false} FilterNone<V>(s: seq<Row<V>>, k: Key)
    requires forall i :: 0 <= i < |s| ==> KeyOf(s[i]) != k
    ensures Filter(s, k) == []
  {
    if s != [] {
      FilterNone(s[1..], k);
    }
  }

  lemma {:induction false} FilterInsert<V>(x: Row<V>, s: seq<Row<V>>, k: Key)
    requires Sorted(s)
    ensures Filter(Insert(x, s), k) == Filter(s, k) + (if KeyOf(x) == k then [x] else [])
  {
    if s == [] {
    } else if KeyLt(KeyOf(x), KeyOf(s[0])) {
      FilterAppend([x], s, k);
      if KeyOf(x) == k {
        KeyLtIrreflexive(KeyOf(s[0]));
        forall i | 0 <= i < |s| ensures KeyOf(s[i]) != k {
          if i > 0 {
            assert !KeyLt(KeyOf(s[i]), KeyOf(s[0]));
          }
        }
        FilterNone(s, k);
      }
    } else {
      FilterInsert(x, s[1..], k);
    }
  }

  /** The sort is stable: for every key, the rows with that key keep their order. */
  lemma {:induction false} SortRowsStable<V>(rows: seq<Row<V>>, k: Key)
    ensures Filter(SortRows(rows), k) == Filter(rows, k)
  {
    if rows != [] {
      var init := rows[..|rows| - 1];
      var last := rows[|rows| - 1];
      var tail := if KeyOf(last) == k then [last] else [];
      calc {
        Filter(SortRows(rows), k);
        Filter(Insert(last, SortRows(init)), k);
        { SortRowsSorted(init); FilterInsert(last, SortRows(init), k); }
        Filter(SortRows(init), k) + tail;
        { SortRowsStable(init, k); }
        Filter(init, k) + tail;
        { FilterAppend(init, [last], k); assert Filter([last], k) == tail; }
        Filter(init + [last], k);
        { assert rows == init + [last]; }
        Filter(rows, k);
      }
    }
  }

  /** `d[(state, sym)] = val` for each row in turn. */
  function ToMap<V>(rows: seq<Row<V>>): map<Key, V> {
    if rows == [] then map[]
    else ToMap(rows[..|rows| - 1])[KeyOf(rows[|rows| - 1]) := rows[|rows| - 1].val]
  }

  /** A key is in the map iff some row has it, and it holds the value of the last such row. */
  lemma {:induction false} ToMapLast<V>(rows: seq<Row<V>>, k: Key)
    ensures k in ToMap(rows) <==> Filter(rows, k) != []
    ensures k in ToMap(rows) ==> ToMap(rows)[k] == Filter(rows, k)[|Filter(rows, k)| - 1].val
  {
    if rows != [] {
      var init := rows[..|rows| - 1];
      var last := rows[|rows| - 1];
      ToMapLast(init, k);
      assert rows == init + [last];
      FilterAppend(init, [last], k);
    }
  }

  /** Because the sort is stable, sorting the rows does not change the dictionary read from them. */
  lemma SortKeepsMap<V>(rows: seq<Row<V>>)
    ensures ToMap(SortRows(rows)) == ToMap(rows)
  {
    forall k | true
      ensures k in ToMap(SortRows(rows)) <==> k in ToMap(rows)
      ensures k in ToMap(rows) ==> ToMap(SortRows(rows))[k] == ToMap(rows)[k]
    {
      SortRowsStable(rows, k);
      ToMapLast(rows, k);
      ToMapLast(SortRows(rows), k);
    }
  }

  /** When all rows with a key agree on the value, the map holds that value, whatever the order. */
  lemma {:induction false} ToMapAgreeing<V>(rows: seq<Row<V>>, k: Key, v: V)
    requires forall i :: 0 <= i < |rows| && KeyOf(rows[i]) == k ==> rows[i].val == v
    ensures k in ToMap(rows) <==> exists i :: 0 <= i < |rows| && KeyOf(rows[i]) == k
    ensures k in ToMap(rows) ==> ToMap(rows)[k] == v
  {
    if rows != [] {
      var init := rows[..|rows| - 1];
      ToMapAgreeing(init, k, v);
      if !(k in ToMap(rows)) {
        assert KeyOf(rows[|rows| - 1]) != k;
        forall i | 0 <= i < |rows| ensures KeyOf(rows[i]) != k {
          if i < |rows| - 1 {
            assert rows[i] == init[i];
          }
        }
      } else if KeyOf(rows[|rows| - 1]) != k {
        var i :| 0 <= i < |init| && KeyOf(init[i]) == k;
        assert rows[i] == init[i];
      }
    }
  }

}
