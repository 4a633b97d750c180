/** Client-side ordering: `cmp`, `multikeysort`, `order_by_as_sort_column` and `sort_locally`
    of lang/ql.py. Python's `sorted` is a stable sort; the model sorts by stable insertion
    and proves that any stable, sorted permutation of the records is that same sequence, so
    the result does not depend on the sorting algorithm. */
module LocalSort {
  import opened Values
  import opened PyOps
  import Q = Query

  // ---------------------------------------------------------------------------
  // cmp
  // ---------------------------------------------------------------------------

  /** `cmp(left, right)`, that is `(left > right) - (left < right)`, for two values Python
      can order with each other. */
  function Cmp(a: Value, b: Value): (r: int)
    requires Orderable(a, b)
    ensures r == -1 || r == 0 || r == 1
    ensures PyCompare(a, b) == Ok(r)
    ensures r == 0 <==> PyEq(a, b)
  {
    if IsNumber(a) && IsNumber(b) then Sign(Num(a) - Num(b))
    else
      StrCmpZero(a.s, b.s);
      StrCmp(a.s, b.s)
  }

  lemma CmpAntisymmetric(a: Value, b: Value)
    requires Orderable(a, b)
    ensures Orderable(b, a) && Cmp(a, b) == -Cmp(b, a)
  {
    if !(IsNumber(a) && IsNumber(b)) {
      StrCmpAntisymmetric(a.s, b.s);
    }
  }

  lemma CmpTransitive(a: Value, b: Value, c: Value)
    requires Orderable(a, b) && Orderable(b, c)
    ensures Orderable(a, c)
    ensures Cmp(a, b) <= 0 && Cmp(b, c) <= 0 ==> Cmp(a, c) <= 0
    ensures Cmp(a, b) >= 0 && Cmp(b, c) >= 0 ==> Cmp(a, c) >= 0
  {
    if !(IsNumber(a) && IsNumber(b)) {
      if StrCmp(a.s, b.s) <= 0 && StrCmp(b.s, c.s) <= 0 {
        StrCmpTransitive(a.s, b.s, c.s);
      }
      if StrCmp(a.s, b.s) >= 0 && StrCmp(b.s, c.s) >= 0 {
        StrCmpAntisymmetric(a.s, b.s);
        StrCmpAntisymmetric(b.s, c.s);
        StrCmpAntisymmetric(a.s, c.s);
        StrCmpTransitive(c.s, b.s, a.s);
      }
    }
  }

  // ---------------------------------------------------------------------------
  // Sort columns and the comparer of multikeysort
  // ---------------------------------------------------------------------------

  /** One parsed sort column: the key `itemgetter` reads and whether its order is reversed
      (a multiplier of -1). */
  datatype Column = Column(key: string, descending: bool)

  /** A column text: a leading `-` reverses the order; the rest, stripped of white space, is
      the key. */
  function ParseColumn(col: string): (c: Column)
    ensures c.descending <==> |col| > 0 && col[0] == '-'
    ensures c.key == if c.descending then Strip(col[1..]) else Strip(col)
  {
    if |col| > 0 && col[0] == '-' then Column(Strip(col[1..]), true) else Column(Strip(col), false)
  }

  function ParseColumns(columns: seq<string>): (cs: seq<Column>)
    ensures |cs| == |columns|
    ensures forall i :: 0 <= i < |columns| ==> cs[i] == ParseColumn(columns[i])
  {
    seq(|columns|, i requires 0 <= i < |columns| => ParseColumn(columns[i]))
  }

  /** What `cmp(fn(left), fn(right))` yields for one column, for a pair of documents that
      both hold the column with values Python can order. Python raises on any other pair; the
      sort below requires that no such pair occur, and 0 marks them here only so that the
      comparer is defined everywhere. */
  function ColumnCmp(a: Snapshot, b: Snapshot, key: string): (r: int)
    ensures r == -1 || r == 0 || r == 1
  {
    if HasKey(a.data, key) && HasKey(b.data, key) && Orderable(Get(a.data, key), Get(b.data, key))
    then Cmp(Get(a.data, key), Get(b.data, key))
    else 0
  }

  /** Every column can be read from both documents, and the two values can be ordered. */
  predicate Comparable(a: Snapshot, b: Snapshot, cols: seq<Column>) {
    cols == [] ||
    (HasKey(a.data, cols[0].key) && HasKey(b.data, cols[0].key) &&
     Orderable(Get(a.data, cols[0].key), Get(b.data, cols[0].key)) &&
     Comparable(a, b, cols[1..]))
  }

  /** Every two documents of `s` are comparable: what `sorted` needs in order not to raise,
      whichever pairs it happens to compare. */
  predicate AllComparable(s: seq<Snapshot>, cols: seq<Column>) {
    forall a, b :: a in s && b in s ==> Comparable(a, b, cols)
  }

  /** `comparer(left, right)`: the first column whose values differ decides, reversed for a
      descending column; 0 when every column is equal. */
  function Compare(a: Snapshot, b: Snapshot, cols: seq<Column>): (r: int)
    ensures r == -1 || r == 0 || r == 1
  {
    if cols == [] then 0
    else
      var c := ColumnCmp(a, b, cols[0].key);
      var m := if cols[0].descending then -c else c;
      if m != 0 then m else Compare(a, b, cols[1..])
  }

  lemma {:induction false} CompareReflexive(a: Snapshot, cols: seq<Column>)
    ensures Compare(a, a, cols) == 0
  {
    if cols != [] {
      CompareReflexive(a, cols[1..]);
    }
  }

  lemma {:induction false} CompareAntisymmetric(a: Snapshot, b: Snapshot, cols: seq<Column>)
    ensures Compare(a, b, cols) == -Compare(b, a, cols)
  {
    if cols != [] {
      var k := cols[0].key;
      if HasKey(a.data, k) && HasKey(b.data, k) && Orderable(Get(a.data, k), Get(b.data, k)) {
        CmpAntisymmetric(Get(a.data, k), Get(b.data, k));
      }
      CompareAntisymmetric(a, b, cols[1..]);
    }
  }

  lemma {:induction false} CompareTransitive(a: Snapshot, b: Snapshot, c: Snapshot, cols: seq<Column>)
    requires Comparable(a, b, cols) && Comparable(b, c, cols)
    requires Compare(a, b, cols) <= 0 && Compare(b, c, cols) <= 0
    ensures Compare(a, c, cols) <= 0
  {
    if cols != [] {
      var k := cols[0].key;
      var x, y, z := Get(a.data, k), Get(b.data, k), Get(c.data, k);
      CmpTransitive(x, y, z);
      CmpAntisymmetric(x, y);
      CmpAntisymmetric(y, z);
      CmpAntisymmetric(x, z);
      if Cmp(x, y) == 0 && Cmp(y, z) == 0 {
        CompareTransitive(a, b, c, cols[1..]);
      }
    }
  }

  /** Under a sorted order, the first column's values are in order: non-decreasing for an
      ascending column, non-increasing for a descending one. */
  lemma FirstColumnOrdered(a: Snapshot, b: Snapshot, cols: seq<Column>)
    requires cols != [] && Comparable(a, b, cols) && Compare(a, b, cols) <= 0
    ensures var x, y := Get(a.data, cols[0].key), Get(b.data, cols[0].key);
            if cols[0].descending then PyCompare(x, y) != Ok(-1) else PyCompare(x, y) != Ok(1)
  {
  }

  // ---------------------------------------------------------------------------
  // A stable sort by the comparer
  // ---------------------------------------------------------------------------

  /** `s` is in non-decreasing order by the comparer. */
  predicate Sorted(s: seq<Snapshot>, cols: seq<Column>) {
    forall i, j :: 0 <= i < j < |s| ==> Compare(s[i], s[j], cols) <= 0
  }

  /** Inserts `x` after every element the comparer does not put after it. */
  function Insert(x: Snapshot, s: seq<Snapshot>, cols: seq<Column>): (r: seq<Snapshot>)
    ensures multiset(r) == multiset(s) + multiset{x}
  {
    if s == [] then [x]
    else if Compare(s[0], x, cols) > 0 then [x] + s
    else
      assert s == [s[0]] + s[1..];
      [s[0]] + Insert(x, s[1..], cols)
  }

  /** Each record in turn is inserted into the sorted prefix, after the records equal to
      it. */
  function Sort(items: seq<Snapshot>, cols: seq<Column>): (r: seq<Snapshot>)
    ensures multiset(r) == multiset(items)
  {
    if items == [] then []
    else
      var prefix := items[..|items| - 1];
      var last := items[|items| - 1];
      assert items == prefix + [last];
      Insert(last, Sort(prefix, cols), cols)
  }

  /** The elements of `s` the comparer puts level with `y`, in their order in `s`. */
  function Class(s: seq<Snapshot>, y: Snapshot, cols: seq<Column>): seq<Snapshot> {
    if s == [] then []
    else (if Compare(s[0], y, cols) == 0 then [s[0]] else []) + Class(s[1..], y, cols)
  }

  /** `out` keeps the relative order of every group of records of `items` that compare
      equal: what a stable sort promises. */
  predicate Stable(out: seq<Snapshot>, items: seq<Snapshot>, cols: seq<Column>) {
    forall y :: y in items ==> Class(out, y, cols) == Class(items, y, cols)
  }

  /** Every element of `s` is one of `u`'s. */
  predicate Within(s: seq<Snapshot>, u: seq<Snapshot>) {
    forall y :: y in s ==> y in u
  }

  lemma PermutationWithin(s: seq<Snapshot>, t: seq<Snapshot>)
    requires multiset(s) == multiset(t)
    ensures Within(s, t) && Within(t, s)
  {
    forall y | y in s ensures y in t { assert y in multiset(s); }
    forall y | y in t ensures y in s { assert y in multiset(t); }
  }

  lemma InsertElements(x: Snapshot, s: seq<Snapshot>, cols: seq<Column>)
    ensures forall z :: z in Insert(x, s, cols) <==> z == x || z in s
  {
    var r := Insert(x, s, cols);
    forall z ensures z in r <==> z == x || z in s {
      assert z in r <==> z in multiset(r);
      assert z in s <==> z in multiset(s);
    }
  }

  /** The head of a sorted sequence is no greater than anything in it. */
  lemma SortedHeadFirst(s: seq<Snapshot>, cols: seq<Column>)
    requires s != [] && Sorted(s, cols)
    ensures forall z :: z in s ==> Compare(s[0], z, cols) <= 0
  {
    forall z | z in s ensures Compare(s[0], z, cols) <= 0 {
      var m :| 0 <= m < |s| && s[m] == z;
      if m == 0 { CompareReflexive(z, cols); }
    }
  }

  /** A record no greater than any element of a sorted sequence can go in front of it. */
  lemma SortedCons(x: Snapshot, s: seq<Snapshot>, cols: seq<Column>)
    requires Sorted(s, cols)
    requires forall j :: 0 <= j < |s| ==> Compare(x, s[j], cols) <= 0
    ensures Sorted([x] + s, cols)
  {
    var r := [x] + s;
    forall i, j | 0 <= i < j < |r| ensures Compare(r[i], r[j], cols) <= 0 {
      assert r[j] == s[j - 1];
      if i > 0 { assert r[i] == s[i - 1]; }
    }
  }

  lemma SortedTail(s: seq<Snapshot>, cols: seq<Column>)
    requires s != [] && Sorted(s, cols)
    ensures Sorted(s[1..], cols)
  {
    forall i, j | 0 <= i < j < |s[1..]| ensures Compare(s[1..][i], s[1..][j], cols) <= 0 {
      assert s[1..][i] == s[i + 1] && s[1..][j] == s[j + 1];
    }
  }

  // ---------------------------------------------------------------------------
  // The sort is sorted
  // ---------------------------------------------------------------------------

  lemma {:induction false} InsertSorted(x: Snapshot, s: seq<Snapshot>, u: seq<Snapshot>, cols: seq<Column>)
    requires AllComparable(u, cols) && Within(s, u) && x in u
    requires Sorted(s, cols)
    ensures Within(Insert(x, s, cols), u)
    ensures Sorted(Insert(x, s, cols), cols)
  {
    InsertElements(x, s, cols);
    if s == [] {
    } else if Compare(s[0], x, cols) > 0 {
      CompareAntisymmetric(s[0], x, cols);
      forall j | 0 <= j < |s| ensures Compare(x, s[j], cols) <= 0 {
        if j > 0 { CompareTransitive(x, s[0], s[j], cols); }
      }
      SortedCons(x, s, cols);
    } else {
      var t := Insert(x, s[1..], cols);
      SortedTail(s, cols);
      InsertSorted(x, s[1..], u, cols);
      SortedHeadFirst(s, cols);
      InsertElements(x, s[1..], cols);
      forall j | 0 <= j < |t| ensures Compare(s[0], t[j], cols) <= 0 {
        assert t[j] in t;
      }
      SortedCons(s[0], t, cols);
    }
  }

  lemma {:induction false} SortSorted(items: seq<Snapshot>, cols: seq<Column>)
    requires AllComparable(items, cols)
    ensures Within(Sort(items, cols), items)
    ensures Sorted(Sort(items, cols), cols)
  {
    if items != [] {
      var prefix := items[..|items| - 1];
      var last := items[|items| - 1];
      DropLast(items, cols);
      SortSorted(prefix, cols);
      WithinTrans(Sort(prefix, cols), prefix, items);
      InsertSorted(last, Sort(prefix, cols), items, cols);
    }
  }

  lemma DropLast(items: seq<Snapshot>, cols: seq<Column>)
    requires items != [] && AllComparable(items, cols)
    ensures AllComparable(items[..|items| - 1], cols)
    ensures Within(items[..|items| - 1], items) && items[|items| - 1] in items
  {
    assert forall y :: y in items[..|items| - 1] ==> y in items;
  }

  lemma WithinTrans(a: seq<Snapshot>, b: seq<Snapshot>, c: seq<Snapshot>)
    requires Within(a, b) && Within(b, c)
    ensures Within(a, c)
  {
  }

  // ---------------------------------------------------------------------------
  // The sort is stable
  // ---------------------------------------------------------------------------

  lemma {:induction false} ClassAppend(a: seq<Snapshot>, b: seq<Snapshot>, y: Snapshot, cols: seq<Column>)
    ensures Class(a + b, y, cols) == Class(a, y, cols) + Class(b, y, cols)
  {
    if a != [] {
      assert (a + b)[1..] == a[1..] + b;
      ClassAppend(a[1..], b, y, cols);
    } else {
      assert a + b == b;
    }
  }

  lemma {:induction false} ClassEmpty(s: seq<Snapshot>, y: Snapshot, cols: seq<Column>)
    requires forall z :: z in s ==> Compare(z, y, cols) != 0
    ensures Class(s, y, cols) == []
  {
    if s != [] { ClassEmpty(s[1..], y, cols); }
  }

  /** Inserting a record from another group leaves a group as it was. */
  lemma {:induction false} ClassInsertOther(x: Snapshot, s: seq<Snapshot>, y: Snapshot, cols: seq<Column>)
    requires Compare(x, y, cols) != 0
    ensures Class(Insert(x, s, cols), y, cols) == Class(s, y, cols)
  {
    var r := Insert(x, s, cols);
    if s == [] {
      assert Class([x], y, cols) == [] + Class([], y, cols);
    } else if Compare(s[0], x, cols) > 0 {
      assert r == [x] + s && r[1..] == s;
    } else {
      var t := Insert(x, s[1..], cols);
      ClassInsertOther(x, s[1..], y, cols);
      assert r == [s[0]] + t && r[1..] == t;
    }
  }

  /** Nothing in a sorted sequence that starts above `x` is in `x`'s group. */
  lemma AboveClassEmpty(x: Snapshot, s: seq<Snapshot>, y: Snapshot, u: seq<Snapshot>, cols: seq<Column>)
    requires AllComparable(u, cols) && Within(s, u) && x in u && y in u
    requires Sorted(s, cols) && s != []
    requires Compare(x, y, cols) == 0 && Compare(s[0], x, cols) > 0
    ensures Class(s, y, cols) == []
  {
    CompareAntisymmetric(x, y, cols);
    SortedHeadFirst(s, cols);
    forall z | z in s ensures Compare(z, y, cols) != 0 {
      if Compare(z, y, cols) == 0 {
        CompareTransitive(z, y, x, cols);
        CompareTransitive(s[0], z, x, cols);
      }
    }
    ClassEmpty(s, y, cols);
  }

  /** Inserting a record into a sorted sequence puts it after the records it compares equal
      to. */
  lemma {:induction false} ClassInsertSame(x: Snapshot, s: seq<Snapshot>, y: Snapshot, u: seq<Snapshot>, cols: seq<Column>)
    requires AllComparable(u, cols) && Within(s, u) && x in u && y in u
    requires Sorted(s, cols)
    requires Compare(x, y, cols) == 0
    ensures Class(Insert(x, s, cols), y, cols) == Class(s, y, cols) + [x]
  {
    if s == [] {
      assert Class([x], y, cols) == [x] + Class([], y, cols);
    } else if Compare(s[0], x, cols) > 0 {
      AboveClassEmpty(x, s, y, u, cols);
      var r := Insert(x, s, cols);
      assert r == [x] + s && r[1..] == s;
      assert Class(r, y, cols) == [x] + Class(s, y, cols);
    } else {
      SortedTail(s, cols);
      ClassInsertSame(x, s[1..], y, u, cols);
      ClassInsertPast(x, s, y, cols);
    }
  }

  /** Inserting past the head: the head's contribution to the group comes first either way. */
  lemma ClassInsertPast(x: Snapshot, s: seq<Snapshot>, y: Snapshot, cols: seq<Column>)
    requires s != [] && Compare(s[0], x, cols) <= 0
    requires Class(Insert(x, s[1..], cols), y, cols) == Class(s[1..], y, cols) + [x]
    ensures Class(Insert(x, s, cols), y, cols) == Class(s, y, cols) + [x]
  {
    var r := Insert(x, s, cols);
    var t := Insert(x, s[1..], cols);
    assert r == [s[0]] + t && r[1..] == t;
    var head := if Compare(s[0], y, cols) == 0 then [s[0]] else [];
    assert Class(r, y, cols) == head + Class(t, y, cols);
    assert Class(s, y, cols) == head + Class(s[1..], y, cols);
    AppendAssoc(head, Class(s[1..], y, cols), [x]);
  }

  lemma {:induction false} SortStable(items: seq<Snapshot>, y: Snapshot, u: seq<Snapshot>, cols: seq<Column>)
    requires AllComparable(u, cols) && Within(items, u) && y in u
    ensures Class(Sort(items, cols), y, cols) == Class(items, y, cols)
  {
    if items != [] {
      var prefix := items[..|items| - 1];
      var last := items[|items| - 1];
      assert items == prefix + [last];
      assert Within(prefix, u);
      SortStable(prefix, y, u, cols);
      ClassAppend(prefix, [last], y, cols);
      InsertIntoSorted(last, prefix, y, u, cols);
    }
  }

  /** Inserting a record into the sorted prefix appends it to its own group. */
  lemma InsertIntoSorted(x: Snapshot, s: seq<Snapshot>, y: Snapshot, u: seq<Snapshot>, cols: seq<Column>)
    requires AllComparable(u, cols) && Within(s, u) && x in u && y in u
    ensures Class(Insert(x, Sort(s, cols), cols), y, cols) == Class(Sort(s, cols), y, cols) + Class([x], y, cols)
  {
    assert Class([x], y, cols) == (if Compare(x, y, cols) == 0 then [x] else []) + Class([], y, cols);
    if Compare(x, y, cols) == 0 {
      assert AllComparable(s, cols);
      SortSorted(s, cols);
      assert Within(Sort(s, cols), u);
      ClassInsertSame(x, Sort(s, cols), y, u, cols);
    } else {
      ClassInsertOther(x, Sort(s, cols), y, cols);
    }
  }

  /** The insertion sort is a stable sort: sorted, a permutation, and order-preserving within
      each group of equal records. */
  lemma SortIsStableSort(items: seq<Snapshot>, cols: seq<Column>)
    requires AllComparable(items, cols)
    ensures multiset(Sort(items, cols)) == multiset(items)
    ensures Sorted(Sort(items, cols), cols)
    ensures Stable(Sort(items, cols), items, cols)
  {
    SortSorted(items, cols);
    forall y | y in items ensures Class(Sort(items, cols), y, cols) == Class(items, y, cols) {
      SortStable(items, y, items, cols);
    }
  }

  // ---------------------------------------------------------------------------
  // Any stable sorted permutation is the sort
  // ---------------------------------------------------------------------------

  /** Two sorted sequences with the same elements and the same groups start alike. */
  lemma SameHead(s: seq<Snapshot>, t: seq<Snapshot>, cols: seq<Column>)
    requires multiset(s) == multiset(t) && s != []
    requires Sorted(s, cols) && Sorted(t, cols)
    requires forall y :: y in s ==> Class(s, y, cols) == Class(t, y, cols)
    ensures t != [] && s[0] == t[0]
  {
    PermutationWithin(s, t);
    var a, b := s[0], t[0];
    assert b in s && a in t;
    SortedHeadFirst(s, cols);
    SortedHeadFirst(t, cols);
    assert Compare(a, b, cols) <= 0 && Compare(b, a, cols) <= 0;
    CompareAntisymmetric(a, b, cols);
    CompareReflexive(a, cols);
    var cs, ct := Class(s, a, cols), Class(t, a, cols);
    assert cs == [a] + Class(s[1..], a, cols);
    assert ct == [b] + Class(t[1..], a, cols);
    assert cs[0] == a && ct[0] == b;
  }

  /** Dropping a common head keeps the groups equal. */
  lemma SameTailClasses(s: seq<Snapshot>, t: seq<Snapshot>, cols: seq<Column>)
    requires s != [] && t != [] && s[0] == t[0]
    requires forall y :: y in s ==> Class(s, y, cols) == Class(t, y, cols)
    ensures forall y :: y in s[1..] ==> Class(s[1..], y, cols) == Class(t[1..], y, cols)
  {
    forall y | y in s[1..] ensures Class(s[1..], y, cols) == Class(t[1..], y, cols) {
      assert y in s;
      var head := if Compare(s[0], y, cols) == 0 then [s[0]] else [];
      assert Class(s, y, cols) == head + Class(s[1..], y, cols);
      assert Class(t, y, cols) == head + Class(t[1..], y, cols);
      assert Class(s[1..], y, cols) == Class(s, y, cols)[|head|..];
      assert Class(t[1..], y, cols) == Class(t, y, cols)[|head|..];
    }
  }

  lemma {:induction false} SortedStableUnique(s: seq<Snapshot>, t: seq<Snapshot>, cols: seq<Column>)
    requires multiset(s) == multiset(t)
    requires Sorted(s, cols) && Sorted(t, cols)
    requires forall y :: y in s ==> Class(s, y, cols) == Class(t, y, cols)
    ensures s == t
    decreases |s|
  {
    if s == [] {
      assert |t| == |multiset(t)| == 0;
    } else {
      SameHead(s, t, cols);
      SameTailClasses(s, t, cols);
      assert s == [s[0]] + s[1..] && t == [t[0]] + t[1..];
      assert multiset(s[1..]) == multiset(t[1..]) by {
        assert multiset(s) == multiset([s[0]]) + multiset(s[1..]);
        assert multiset(t) == multiset([t[0]]) + multiset(t[1..]);
        assert multiset(s[1..]) == multiset(s) - multiset([s[0]]);
        assert multiset(t[1..]) == multiset(t) - multiset([t[0]]);
      }
      SortedTail(s, cols);
      SortedTail(t, cols);
      SortedStableUnique(s[1..], t[1..], cols);
    }
  }

  /** Whatever stable sort orders the records, it returns the insertion sort's result: any
      permutation of the records that is sorted and stable is `Sort(items, cols)`. */
  lemma StableSortIsUnique(items: seq<Snapshot>, out: seq<Snapshot>, cols: seq<Column>)
    requires AllComparable(items, cols)
    requires multiset(out) == multiset(items) && Sorted(out, cols) && Stable(out, items, cols)
    ensures out == Sort(items, cols)
  {
    var r := Sort(items, cols);
    SortIsStableSort(items, cols);
    PermutationWithin(r, items);
    SortedStableUnique(r, out, cols);
  }

  /** With no columns every record compares equal, and the records keep their order. */
  lemma {:induction false} NoColumnsKeepOrder(items: seq<Snapshot>)
    ensures Sort(items, []) == items
  {
    if items != [] {
      var prefix := items[..|items| - 1];
      var last := items[|items| - 1];
      assert items == prefix + [last];
      NoColumnsKeepOrder(prefix);
      InsertAtEnd(last, prefix);
    }
  }

  lemma {:induction false} InsertAtEnd(x: Snapshot, s: seq<Snapshot>)
    ensures Insert(x, s, []) == s + [x]
  {
    if s != [] {
      InsertAtEnd(x, s[1..]);
      InsertPastHead(x, s);
      AppendAssoc([s[0]], s[1..], [x]);
      ConsTail(s);
    }
  }

  /** With no columns every record compares equal, so an insertion passes the head. */
  lemma InsertPastHead(x: Snapshot, s: seq<Snapshot>)
    requires s != []
    ensures Insert(x, s, []) == [s[0]] + Insert(x, s[1..], [])
  {
  }

  // ---------------------------------------------------------------------------
  // multikeysort, order_by_as_sort_column and sort_locally
  // ---------------------------------------------------------------------------

  /** `multikeysort(items, columns)`: a stable sort of the records by the parsed columns. */
  function MultiKeySort(items: seq<Snapshot>, columns: seq<string>): (r: seq<Snapshot>)
    requires AllComparable(items, ParseColumns(columns))
    ensures multiset(r) == multiset(items)
    ensures Sorted(r, ParseColumns(columns))
    ensures Stable(r, items, ParseColumns(columns))
  {
    SortIsStableSort(items, ParseColumns(columns));
    Sort(items, ParseColumns(columns))
  }

  /** `order_by_as_sort_column(order_by)`: the property, prefixed with `-` unless the
      direction is `asc`. */
  function OrderByAsSortColumn(o: Q.OrderBy): (c: string)
    ensures o.direction == "asc" ==> c == o.property
    ensures (c != [] && c[0] == '-') <==> o.direction != "asc" || (o.property != [] && o.property[0] == '-')
    ensures o.direction != "asc" ==> c[1..] == o.property
  {
    if o.direction == "asc" then o.property else "-" + o.property
  }

  /** The sort columns of an order clause, parsed as `multikeysort` parses them. */
  function OrderColumns(order: seq<Q.OrderBy>): (cs: seq<Column>)
    ensures |cs| == |order|
    ensures forall i :: 0 <= i < |order| ==> cs[i] == ParseColumn(OrderByAsSortColumn(order[i]))
  {
    ParseColumns(seq(|order|, i requires 0 <= i < |order| => OrderByAsSortColumn(order[i])))
  }

  /** A property name with no white space at either end and no leading `-`. */
  predicate PlainName(p: string) {
    p == [] || (p[0] != '-' && !IsSpace(p[0]) && !IsSpace(p[|p| - 1]))
  }

  lemma StripPlain(p: string)
    requires p == [] || (!IsSpace(p[0]) && !IsSpace(p[|p| - 1]))
    ensures Strip(p) == p
  {
  }

  /** For plain property names the round trip through the column text is faithful: each
      sorter becomes a column on its property, descending unless its direction is `asc`. */
  lemma OrderColumnsFollowDirections(order: seq<Q.OrderBy>)
    requires forall i :: 0 <= i < |order| ==> PlainName(order[i].property)
    ensures forall i :: 0 <= i < |order| ==>
              OrderColumns(order)[i] == Column(order[i].property, order[i].direction != "asc")
  {
    forall i | 0 <= i < |order|
      ensures OrderColumns(order)[i] == Column(order[i].property, order[i].direction != "asc")
    {
      var p := order[i].property;
      StripPlain(p);
      if order[i].direction != "asc" {
        assert ("-" + p)[1..] == p;
      }
    }
  }

  /** A property whose name itself starts with `-`, sorted ascending, is sorted descending by
      the name without the dash: the column text cannot tell the two apart. */
  lemma DashedPropertyReversed(o: Q.OrderBy, rest: string)
    requires o.direction == "asc" && o.property == "-" + rest
    ensures ParseColumn(OrderByAsSortColumn(o)) == Column(Strip(rest), true)
  {
    assert ("-" + rest)[1..] == rest;
  }

  /** `sort_locally(records, fikl_query)` given the query's order clause. */
  function SortLocally(records: seq<Snapshot>, order: Option<seq<Q.OrderBy>>): (r: seq<Snapshot>)
    requires order.Some? ==> AllComparable(records, OrderColumns(order.value))
    ensures multiset(r) == multiset(records)
    ensures order.None? ==> r == records
    ensures order.Some? ==> Sorted(r, OrderColumns(order.value)) && Stable(r, records, OrderColumns(order.value))
  {
    if order.None? then records
    else
      var columns := seq(|order.value|, i requires 0 <= i < |order.value| => OrderByAsSortColumn(order.value[i]));
      assert ParseColumns(columns) == OrderColumns(order.value);
      MultiKeySort(records, columns)
  }

  /** An empty order clause sorts nothing: every record compares equal, so the sort keeps
      the fetched order. */
  lemma EmptyOrderKeepsOrder(records: seq<Snapshot>)
    ensures SortLocally(records, Some([])) == records
  {
    NoColumnsKeepOrder(records);
    assert OrderColumns([]) == [];
  }
}
