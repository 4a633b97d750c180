/** Client-side filtering: the where clauses marked `local`, evaluated against the flattened
    contents of each fetched document (`local_compare`, `includes` and `filter_locally` of
    lang/ql.py). A Python comparison that raises makes the whole filter raise; the model
    returns `Err` in that case. */
module LocalFilter {
  import opened Values
  import opened PyOps
  import D = Documents
  import Q = Query

  /** Whether one sequence is an order-preserving selection of another's elements. */
  predicate Subsequence<T(==)>(a: seq<T>, b: seq<T>)
    decreases |b|
  {
    if a == [] then true
    else if b == [] then false
    else (a[0] == b[0] && Subsequence(a[1..], b[1..])) || Subsequence(a, b[1..])
  }

  lemma {:induction false} SubsequenceOfItself<T>(a: seq<T>)
    ensures Subsequence(a, a)
  {
    if a != [] { SubsequenceOfItself(a[1..]); }
  }

  // ---------------------------------------------------------------------------
  // local_compare
  // ---------------------------------------------------------------------------

  /** What `for item in c` yields: the elements of a list, the one-character strings of a
      string, the keys of a dict; anything else is not iterable. */
  function Iterate(c: Value): (r: Result<seq<Value>>)
    ensures c.List? ==> r == Ok(c.items)
    ensures r.Ok? <==> c.List? || c.Str? || c.Dict?
    ensures c.Str? ==> r.Ok? && |r.value| == |c.s| &&
                       forall i :: 0 <= i < |c.s| ==> r.value[i] == Str([c.s[i]])
  {
    match c
    case List(items) => Ok(items)
    case Str(s) => Ok(seq(|s|, i requires 0 <= i < |s| => Str([s[i]])))
    case Dict(es) => var ks := Keys(es); Ok(seq(|ks|, i requires 0 <= i < |ks| => Str(ks[i])))
    case _ => Err(TypeError)
  }

  /** `all(outcomes)` over a lazily evaluated generator: the outcomes in order, up to the
      first that is false. An outcome after that one is never evaluated, so an error it would
      raise does not matter; an error before it is raised. */
  function Every(outcomes: seq<Result<bool>>): (r: Result<bool>)
    ensures r == Ok(true) <==> forall i :: 0 <= i < |outcomes| ==> outcomes[i] == Ok(true)
    ensures r == Ok(false) <==>
              exists i :: 0 <= i < |outcomes| && outcomes[i] == Ok(false) &&
                          forall j :: 0 <= j < i ==> outcomes[j] == Ok(true)
    ensures (forall i :: 0 <= i < |outcomes| ==> outcomes[i].Ok?) ==> r.Ok?
    ensures r.Err? ==> exists i :: 0 <= i < |outcomes| && outcomes[i].Err?
  {
    if outcomes == [] then Ok(true)
    else if outcomes[0].Err? then Err(outcomes[0].error)
    else if !outcomes[0].value then Ok(false)
    else
      var rest := Every(outcomes[1..]);
      assert forall i :: 0 < i < |outcomes| ==> outcomes[i] == outcomes[1..][i - 1];
      assert rest == Ok(false) ==>
               exists i :: 0 <= i < |outcomes| && outcomes[i] == Ok(false) &&
                           forall j :: 0 <= j < i ==> outcomes[j] == Ok(true) by {
        if rest == Ok(false) {
          var k :| 0 <= k < |outcomes[1..]| && outcomes[1..][k] == Ok(false) &&
                   forall j :: 0 <= j < k ==> outcomes[1..][j] == Ok(true);
          assert outcomes[k + 1] == Ok(false);
        }
      }
      assert rest.Err? ==> exists i :: 0 <= i < |outcomes| && outcomes[i].Err? by {
        if rest.Err? {
          var k :| 0 <= k < |outcomes[1..]| && outcomes[1..][k].Err?;
          assert outcomes[k + 1].Err?;
        }
      }
      rest
  }

  /** `all(v in container for v in items)` */
  function AllIn(items: seq<Value>, container: Value): Result<bool> {
    Every(seq(|items|, i requires 0 <= i < |items| => PyIn(items[i], container)))
  }

  /** `pydash.every(clause, lambda v: v in value)`: the operand of `array_contains_any`. */
  function ContainsAll(clause: Value, value: Value): Result<bool> {
    var elements :- Iterate(clause);
    AllIn(elements, value)
  }

  /** The `match where['operator']` of `local_compare`, applied to the document's value and
      the clause's value. An operator outside the list never matches. */
  function Apply(op: string, value: Value, operand: Value): (r: Result<bool>)
    ensures !KnownOperator(op) ==> r == Ok(false)
    ensures op == "==" || op == "!=" ==> r.Ok?
    ensures op in {">", ">=", "<", "<="} ==> (r.Ok? <==> PyCompare(value, operand).Ok?)
    ensures op == "in" || op == "not_in" ==> (r.Ok? <==> PyIn(value, operand).Ok?)
    ensures op == "array_contains" ==> (r.Ok? <==> PyIn(operand, value).Ok?)
    ensures op == "array_contains_any" && r.Ok? ==> Iterate(operand).Ok?
    ensures op == "==" ==> r == Ok(PyEq(value, operand))
    ensures op == "!=" ==> r == Ok(!PyEq(value, operand))
    ensures op == "in" ==> r == PyIn(value, operand)
    ensures op == "not_in" && r.Ok? ==> r.value == !PyIn(value, operand).value
    ensures op == "array_contains" ==> r == PyIn(operand, value)
    ensures op == ">" && PyCompare(value, operand).Ok? ==> r == Ok(PyCompare(value, operand).value > 0)
    ensures op == ">=" && PyCompare(value, operand).Ok? ==> r == Ok(PyCompare(value, operand).value >= 0)
    ensures op == "<" && PyCompare(value, operand).Ok? ==> r == Ok(PyCompare(value, operand).value < 0)
    ensures op == "<=" && PyCompare(value, operand).Ok? ==> r == Ok(PyCompare(value, operand).value <= 0)
  {
    if op == ">" then var c :- PyCompare(value, operand); Ok(c > 0)
    else if op == ">=" then var c :- PyCompare(value, operand); Ok(c >= 0)
    else if op == "<" then var c :- PyCompare(value, operand); Ok(c < 0)
    else if op == "<=" then var c :- PyCompare(value, operand); Ok(c <= 0)
    else if op == "!=" then Ok(!PyEq(value, operand))
    else if op == "==" then Ok(PyEq(value, operand))
    else if op == "in" then PyIn(value, operand)
    else if op == "not_in" then var b :- PyIn(value, operand); Ok(!b)
    else if op == "array_contains" then PyIn(operand, value)
    else if op == "array_contains_any" then ContainsAll(operand, value)
    else Ok(false)
  }

  /** `local_compare(document, prop, where)`: a document without the property never
      matches. */
  function LocalCompare(document: seq<Entry>, prop: string, where: Q.Where): (r: Result<bool>)
    ensures !HasKey(document, prop) ==> r == Ok(false)
    ensures r == Ok(true) ==> HasKey(document, prop) && KnownOperator(where.operator)
    ensures r.Err? ==> HasKey(document, prop) && KnownOperator(where.operator)
    ensures HasKey(document, prop) ==> r == Apply(where.operator, Get(document, prop), where.value)
  {
    if !HasKey(document, prop) then Ok(false)
    else Apply(where.operator, Get(document, prop), where.value)
  }

  /** The operators `local_compare` knows. */
  predicate KnownOperator(op: string) {
    op in {">", ">=", "<", "<=", "!=", "==", "in", "not_in", "array_contains", "array_contains_any"}
  }

  // ---------------------------------------------------------------------------
  // includes and filter_locally
  // ---------------------------------------------------------------------------

  /** The outcome of each clause on the flattened document, in clause order. */
  function Outcomes(flat: seq<Entry>, wheres: seq<Q.Where>): (rs: seq<Result<bool>>)
    ensures |rs| == |wheres|
    ensures forall i :: 0 <= i < |wheres| ==> rs[i] == LocalCompare(flat, wheres[i].property, wheres[i])
  {
    seq(|wheres|, i requires 0 <= i < |wheres| => LocalCompare(flat, wheres[i].property, wheres[i]))
  }

  /** `pydash.every(wheres, lambda where: local_compare(flat, where["property"], where))` */
  function AllHold(flat: seq<Entry>, wheres: seq<Q.Where>): Result<bool> {
    Every(Outcomes(flat, wheres))
  }

  /** `includes(document, local_filters)`: the clauses see the flattened document, so a
      dotted property names a nested field. */
  function Includes(document: seq<Entry>, localFilters: seq<Q.Where>): (r: Result<bool>)
    ensures r == Ok(true) <==>
              forall i :: 0 <= i < |localFilters| ==>
                LocalCompare(D.Flattened(document, ""), localFilters[i].property, localFilters[i]) == Ok(true)
    ensures r.Err? ==>
              exists i :: 0 <= i < |localFilters| && LocalCompare(D.Flattened(document, ""), localFilters[i].property, localFilters[i]).Err?
  {
    AllHold(D.Flattened(document, ""), localFilters)
  }

  /** `[where for where in wheres if where["local"] is True]` */
  function Locals(wheres: seq<Q.Where>): (r: seq<Q.Where>)
    ensures Subsequence(r, wheres)
    ensures forall i :: 0 <= i < |r| ==> r[i].local
    ensures forall i :: 0 <= i < |wheres| && wheres[i].local ==> wheres[i] in r
  {
    if wheres == [] then []
    else
      var rest := Locals(wheres[1..]);
      assert forall i :: 0 < i < |wheres| ==> wheres[i] == wheres[1..][i - 1];
      if wheres[0].local then [wheres[0]] + rest else rest
  }

  /** `[doc for doc in records if test(doc)]`: the records the test accepts, in their original
      order, or the first error the test raises. */
  function KeepWhere(records: seq<Snapshot>, test: Snapshot -> Result<bool>): (r: Result<seq<Snapshot>>)
    ensures r.Ok? <==> forall i :: 0 <= i < |records| ==> test(records[i]).Ok?
    ensures r.Ok? ==> Subsequence(r.value, records)
    ensures r.Ok? ==> forall x :: multiset(r.value)[x] == if test(x) == Ok(true) then multiset(records)[x] else 0
  {
    if records == [] then Ok([])
    else
      var b := test(records[0]);
      var rest := KeepWhere(records[1..], test);
      assert forall i :: 0 < i < |records| ==> records[i] == records[1..][i - 1];
      assert records == [records[0]] + records[1..];
      assert multiset(records) == multiset{records[0]} + multiset(records[1..]);
      if b.Err? then Err(b.error)
      else if rest.Err? then
        assert exists i :: 0 <= i < |records| && !test(records[i]).Ok? by {
          var k :| 0 <= k < |records[1..]| && !test(records[1..][k]).Ok?;
          assert !test(records[k + 1]).Ok?;
        }
        Err(rest.error)
      else if b.value then
        Ok([records[0]] + rest.value)
      else
        Ok(rest.value)
  }

  /** The records whose document satisfies every local clause, in their original order, or
      the first error a comparison raises. */
  function Keep(records: seq<Snapshot>, localFilters: seq<Q.Where>): (r: Result<seq<Snapshot>>)
    ensures r.Ok? <==> forall i :: 0 <= i < |records| ==> Includes(records[i].data, localFilters).Ok?
    ensures r.Ok? ==> Subsequence(r.value, records)
    ensures r.Ok? ==> forall x :: multiset(r.value)[x] ==
                                  if Includes(x.data, localFilters) == Ok(true) then multiset(records)[x] else 0
  {
    KeepWhere(records, (x: Snapshot) => Includes(x.data, localFilters))
  }

  /** `filter_locally(records, fikl_query)` given `fikl_query["where"]`. */
  function FilterLocally(records: seq<Snapshot>, where: Option<seq<Q.Where>>): (r: Result<seq<Snapshot>>)
    ensures where.None? ==> r == Ok(records)
    ensures where.Some? ==>
              (r.Ok? <==> forall i :: 0 <= i < |records| ==> Includes(records[i].data, Locals(where.value)).Ok?)
    ensures r.Ok? ==> Subsequence(r.value, records)
  {
    if where.None? then SubsequenceOfItself(records); Ok(records) else Keep(records, Locals(where.value))
  }

  // ---------------------------------------------------------------------------
  // Properties
  // ---------------------------------------------------------------------------

  /** A document that lacks the property never matches a clause on it, whatever the operator:
      `not_in` included, so `in` and `not_in` are not complements on such a document. */
  lemma MissingPropertyNeverMatches(document: seq<Entry>, where: Q.Where)
    requires !HasKey(document, where.property)
    ensures LocalCompare(document, where.property, where) == Ok(false)
    ensures LocalCompare(document, where.property, where.(operator := "not_in")) == Ok(false)
    ensures LocalCompare(document, where.property, where.(operator := "in")) == Ok(false)
  {
  }

  /** On a document that has the property, `not_in` is the negation of `in`, and both raise
      together. */
  lemma NotInNegatesIn(document: seq<Entry>, where: Q.Where)
    requires HasKey(document, where.property)
    ensures var isIn := LocalCompare(document, where.property, where.(operator := "in"));
            var notIn := LocalCompare(document, where.property, where.(operator := "not_in"));
            (isIn.Err? <==> notIn.Err?) && (isIn.Ok? ==> notIn.value == !isIn.value)
  {
  }

  /** On a document that has the property, `!=` is the negation of `==`, and neither raises. */
  lemma NotEqualNegatesEqual(document: seq<Entry>, where: Q.Where)
    requires HasKey(document, where.property)
    ensures var eq := LocalCompare(document, where.property, where.(operator := "=="));
            var ne := LocalCompare(document, where.property, where.(operator := "!="));
            eq.Ok? && ne.Ok? && ne.value == !eq.value
  {
  }

  /** `>` and `<=` are complements, and `<` and `>=` are: each pair raises or holds for
      exactly one of the two. */
  lemma OrderingComplements(document: seq<Entry>, where: Q.Where)
    requires HasKey(document, where.property)
    ensures var gt := LocalCompare(document, where.property, where.(operator := ">"));
            var le := LocalCompare(document, where.property, where.(operator := "<="));
            (gt.Err? <==> le.Err?) && (gt.Ok? ==> le.value == !gt.value)
    ensures var lt := LocalCompare(document, where.property, where.(operator := "<"));
            var ge := LocalCompare(document, where.property, where.(operator := ">="));
            (lt.Err? <==> ge.Err?) && (lt.Ok? ==> ge.value == !lt.value)
  {
  }

  /** An operator `local_compare` does not know never matches. */
  lemma UnknownOperatorNeverMatches(document: seq<Entry>, where: Q.Where)
    requires !KnownOperator(where.operator)
    ensures LocalCompare(document, where.property, where) == Ok(false)
  {
  }

  /** `array_contains_any` with a list demands that EVERY listed value be contained in the
      document's value, not just one of them. */
  lemma ContainsAnyIsConjunction(document: seq<Entry>, where: Q.Where)
    requires where.operator == "array_contains_any" && where.value.List?
    ensures LocalCompare(document, where.property, where) == Ok(true) <==>
              HasKey(document, where.property) &&
              forall i :: 0 <= i < |where.value.items| ==>
                PyIn(where.value.items[i], Get(document, where.property)) == Ok(true)
  {
    if HasKey(document, where.property) {
      var items := where.value.items;
      var value := Get(document, where.property);
      var outs := seq(|items|, i requires 0 <= i < |items| => PyIn(items[i], value));
      ContainsAnyUnfold(document, where);
      assert forall i :: 0 <= i < |items| ==> outs[i] == PyIn(items[i], value);
    }
  }

  lemma ContainsAnyUnfold(document: seq<Entry>, where: Q.Where)
    requires where.operator == "array_contains_any" && where.value.List?
    requires HasKey(document, where.property)
    ensures var items := where.value.items;
            var outs := seq(|items|, i requires 0 <= i < |items| => PyIn(items[i], Get(document, where.property)));
            LocalCompare(document, where.property, where) == Every(outs)
  {
  }

  /** Between two numbers (bools count as 0 and 1) every comparison is the arithmetic one. */
  lemma NumberComparisons(value: Value, operand: Value)
    requires IsNumber(value) && IsNumber(operand)
    ensures Apply(">", value, operand) == Ok(Num(value) > Num(operand))
    ensures Apply(">=", value, operand) == Ok(Num(value) >= Num(operand))
    ensures Apply("<", value, operand) == Ok(Num(value) < Num(operand))
    ensures Apply("<=", value, operand) == Ok(Num(value) <= Num(operand))
    ensures Apply("==", value, operand) == Ok(Num(value) == Num(operand))
    ensures Apply("!=", value, operand) == Ok(Num(value) != Num(operand))
  {
  }

  /** Between two strings the orderings follow code-point order, and equality is equality of
      the text. */
  lemma StringComparisons(a: string, b: string)
    ensures Apply("==", Str(a), Str(b)) == Ok(a == b)
    ensures Apply("!=", Str(a), Str(b)) == Ok(a != b)
    ensures Apply("<", Str(a), Str(b)) == Ok(StrCmp(a, b) < 0)
    ensures Apply(">", Str(a), Str(b)) == Ok(StrCmp(b, a) < 0)
    ensures Apply("<=", Str(a), Str(b)) == Ok(a == b || StrCmp(a, b) < 0)
    ensures Apply(">=", Str(a), Str(b)) == Ok(a == b || StrCmp(b, a) < 0)
  {
    StrCmpZero(a, b);
    StrCmpAntisymmetric(a, b);
  }

  /** `value in [..]` holds exactly when the value equals some listed element, and never
      raises. */
  lemma InOfList(value: Value, items: seq<Value>)
    ensures Apply("in", value, List(items)) == Ok(exists i :: 0 <= i < |items| && PyEq(value, items[i]))
    ensures Apply("not_in", value, List(items)) == Ok(forall i :: 0 <= i < |items| ==> !PyEq(value, items[i]))
  {
  }

  /** `array_contains` against a list-valued field holds exactly when the clause value equals
      some element of the field, and never raises. */
  lemma ArrayContainsOfList(items: seq<Value>, operand: Value)
    ensures Apply("array_contains", List(items), operand) ==
              Ok(exists i :: 0 <= i < |items| && PyEq(operand, items[i]))
  {
  }

  /** Against a list-valued field, `array_contains_any` with a list never raises, and holds
      exactly when every listed value equals some element of the field. */
  lemma ContainsAnyOfList(document: seq<Entry>, where: Q.Where)
    requires where.operator == "array_contains_any" && where.value.List?
    requires HasKey(document, where.property) && Get(document, where.property).List?
    ensures LocalCompare(document, where.property, where) ==
              Ok(forall i :: 0 <= i < |where.value.items| ==>
                   AnyEq(where.value.items[i], Get(document, where.property).items))
  {
    var items := where.value.items;
    var field := Get(document, where.property);
    var outs := seq(|items|, i requires 0 <= i < |items| => PyIn(items[i], field));
    ContainsAnyUnfold(document, where);
    assert forall i :: 0 <= i < |items| ==> outs[i] == PyIn(items[i], field);
    assert forall i :: 0 <= i < |items| ==> outs[i] == Ok(AnyEq(items[i], field.items));
    var r := Every(outs);
    assert r.Ok?;
    if r.value {
      assert r == Ok(true);
    } else {
      assert r == Ok(false);
      var k :| 0 <= k < |outs| && outs[k] == Ok(false);
      assert !AnyEq(items[k], field.items);
    }
  }

  /** A clause on `a.b` reads the field `b` of the nested dict `a`, in any document: the
      clause is applied to that field's value, provided no later field of the document, inside
      `a` or outside it, flattens to the same dotted name. */
  lemma NestedPropertyIsCompared(doc: seq<Entry>, i: nat, j: nat, where: Q.Where)
    requires i < |doc| && doc[i].key != "" && doc[i].val.Dict?
    requires j < |doc[i].val.entries| && !doc[i].val.entries[j].val.Dict?
    requires where.property == doc[i].key + "." + doc[i].val.entries[j].key
    requires where.property !in KeySet(D.FlatItems(doc[i].val.entries[j + 1..], doc[i].key))
    requires where.property !in KeySet(D.FlatItems(doc[i + 1..], ""))
    ensures Includes(doc, [where]) == Apply(where.operator, doc[i].val.entries[j].val, where.value)
  {
    var a, inner := doc[i].key, doc[i].val.entries;
    var key := where.property;
    D.FlatItemsAround(inner, j, a);
    D.FromItemsMiddle(D.FlatItems(inner[..j], a), Entry(key, inner[j].val), D.FlatItems(inner[j + 1..], a));
    D.FlatItemsSplit(doc, i, "");
    D.FromItemsMiddleDict(D.FlatItems(doc[..i], ""), D.Flattened(inner, a), D.FlatItems(doc[i + 1..], ""), key);
    var flat := D.Flattened(doc, "");
    assert LocalCompare(flat, key, where) == Apply(where.operator, inner[j].val, where.value);
    assert Outcomes(flat, [where]) == [LocalCompare(flat, key, where)];
    assert Outcomes(flat, [where])[1..] == [];
  }

  /** Without local clauses, and in particular without any where clause, every record is
      kept, in order. */
  lemma {:induction false} NoLocalClausesKeepAll(records: seq<Snapshot>, wheres: seq<Q.Where>)
    requires Locals(wheres) == []
    ensures FilterLocally(records, Some(wheres)) == Ok(records)
    ensures FilterLocally(records, None) == Ok(records)
  {
    KeepAll(records);
  }

  lemma KeepAll(records: seq<Snapshot>)
    ensures Keep(records, []) == Ok(records)
  {
    var test := (x: Snapshot) => Includes(x.data, []);
    forall x ensures test(x) == Ok(true) {
      assert Includes(x.data, []) == Ok(true);
    }
    KeepWhereAll(records, test);
  }

  /** A test that accepts every record keeps them all. */
  lemma {:induction false} KeepWhereAll(records: seq<Snapshot>, test: Snapshot -> Result<bool>)
    requires forall x :: test(x) == Ok(true)
    ensures KeepWhere(records, test) == Ok(records)
  {
    if records != [] {
      KeepWhereAll(records[1..], test);
      assert records == [records[0]] + records[1..];
    }
  }

  /** A clause that is not local never influences the local filter: adding one anywhere in
      the where list leaves the outcome unchanged. */
  lemma RemoteClauseIgnored(records: seq<Snapshot>, before: seq<Q.Where>, w: Q.Where, after: seq<Q.Where>)
    requires !w.local
    ensures FilterLocally(records, Some(before + [w] + after)) == FilterLocally(records, Some(before + after))
  {
    LocalsSkipRemote(before, w, after);
  }

  /** Selecting the local clauses drops a non-local one wherever it stands. */
  lemma LocalsSkipRemote(before: seq<Q.Where>, w: Q.Where, after: seq<Q.Where>)
    requires !w.local
    ensures Locals(before + [w] + after) == Locals(before + after)
  {
    LocalsAppend(before, [w] + after);
    LocalsAppend(before, after);
    assert ([w] + after)[1..] == after;
    assert before + [w] + after == before + ([w] + after);
  }

  lemma {:induction false} LocalsAppend(a: seq<Q.Where>, b: seq<Q.Where>)
    ensures Locals(a + b) == Locals(a) + Locals(b)
  {
    if a != [] {
      assert (a + b)[1..] == a[1..] + b;
      LocalsAppend(a[1..], b);
    } else {
      assert a + b == b;
    }
  }

  /** When no comparison raises, the kept records are exactly those that satisfy every local
      clause: each kept record satisfies all of them, and each record that satisfies all of
      them is kept. */
  lemma FilterKeepsExactlyMatching(records: seq<Snapshot>, wheres: seq<Q.Where>)
    requires forall j :: 0 <= j < |records| ==> Includes(records[j].data, Locals(wheres)).Ok?
    ensures FilterLocally(records, Some(wheres)).Ok?
    ensures var kept := FilterLocally(records, Some(wheres)).value;
            (forall x :: x in kept ==> forall i :: 0 <= i < |Locals(wheres)| ==>
               LocalCompare(D.Flattened(x.data, ""), Locals(wheres)[i].property, Locals(wheres)[i]) == Ok(true)) &&
            (forall j :: 0 <= j < |records| && Includes(records[j].data, Locals(wheres)) == Ok(true) ==>
               records[j] in kept)
  {
    var kept := FilterLocally(records, Some(wheres)).value;
    forall x | x in kept
      ensures Includes(x.data, Locals(wheres)) == Ok(true)
    {
      assert multiset(kept)[x] > 0;
    }
    forall j | 0 <= j < |records| && Includes(records[j].data, Locals(wheres)) == Ok(true)
      ensures records[j] in kept
    {
      assert multiset(records)[records[j]] > 0;
      assert multiset(kept)[records[j]] > 0;
    }
  }
}
