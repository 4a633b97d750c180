/** How a select (and the selection step of an update or delete) is executed: which where and
    order clauses are pushed to Firestore and under what names (`add_where_clauses`,
    `add_order_by_clauses`), the limit, and the local phase that filters and then sorts the
    fetched records (`execute_select_query`). The Firestore query object is modelled as the
    value of the calls made on it; the records a query returns are a parameter. */
module Planner {
  import opened Values
  import Q = Query
  import LF = LocalFilter
  import LS = LocalSort

  datatype Direction = ASCENDING | DESCENDING

  /** `FieldFilter(property, operator, value)` */
  datatype FieldFilter = FieldFilter(field: string, op: string, value: Value)

  /** One `query.order_by(property, direction=...)` call. */
  datatype Ordering = Ordering(field: string, direction: Direction)

  /** `client.collection_group(subject)` or `client.collection(subject)` */
  datatype Source = CollectionGroupSource(group: string) | CollectionSource(collection: string)

  /** A Firestore query: its source and the filters, orderings and limit added to it, in the
      order of the calls. */
  datatype StoreQuery = StoreQuery(source: Source, filters: seq<FieldFilter>, orderings: seq<Ordering>,
                                   limit: Option<Value>)

  // ---------------------------------------------------------------------------
  // add_where_clauses
  // ---------------------------------------------------------------------------

  /** `[where for where in wheres if where["local"] is False]` */
  function Remotes(wheres: seq<Q.Where>): (r: seq<Q.Where>)
    ensures LF.Subsequence(r, wheres)
    ensures forall i :: 0 <= i < |r| ==> !r[i].local
    ensures forall i :: 0 <= i < |wheres| && !wheres[i].local ==> wheres[i] in r
    ensures |r| + |LF.Locals(wheres)| == |wheres|
  {
    if wheres == [] then []
    else
      var rest := Remotes(wheres[1..]);
      assert forall i :: 0 < i < |wheres| ==> wheres[i] == wheres[1..][i - 1];
      if wheres[0].local then rest else [wheres[0]] + rest
  }

  /** Firestore spells the operator `not-in`; every other operator passes through. */
  function CorrectedOperator(op: string): (r: string)
    ensures op == "not_in" ==> r == "not-in"
    ensures op != "not_in" ==> r == op
  {
    if op == "not_in" then "not-in" else op
  }

  function AsFieldFilter(w: Q.Where): FieldFilter {
    FieldFilter(w.property, CorrectedOperator(w.operator), w.value)
  }

  /** `for where in wheres: query = query.where(filter=...)` */
  function ApplyWheres(query: StoreQuery, wheres: seq<Q.Where>): (r: StoreQuery)
    ensures r.source == query.source && r.orderings == query.orderings && r.limit == query.limit
    ensures |r.filters| == |query.filters| + |wheres|
    ensures r.filters[..|query.filters|] == query.filters
    ensures forall i :: 0 <= i < |wheres| ==> r.filters[|query.filters| + i] == AsFieldFilter(wheres[i])
    decreases |wheres|
  {
    if wheres == [] then query
    else
      var next := query.(filters := query.filters + [AsFieldFilter(wheres[0])]);
      var r := ApplyWheres(next, wheres[1..]);
      assert forall i :: 0 < i < |wheres| ==> r.filters[|query.filters| + i] == AsFieldFilter(wheres[i]) by {
        forall i | 0 < i < |wheres| ensures r.filters[|query.filters| + i] == AsFieldFilter(wheres[i]) {
          assert |query.filters| + i == |next.filters| + (i - 1);
          assert wheres[i] == wheres[1..][i - 1];
        }
      }
      assert r.filters[..|query.filters|] == r.filters[..|next.filters|][..|query.filters|];
      r
  }

  /** `add_where_clauses(query, fikl_query)` */
  function AddWhereClauses(query: StoreQuery, q: Q.Query): (r: StoreQuery)
    ensures r.source == query.source && r.orderings == query.orderings && r.limit == query.limit
    ensures q.WhereOf().None? ==> r == query
    ensures q.WhereOf().Some? ==> |r.filters| == |query.filters| + |Remotes(q.WhereOf().value)|
    ensures |query.filters| <= |r.filters| && r.filters[..|query.filters|] == query.filters
  {
    if q.WhereOf().None? then query else ApplyWheres(query, Remotes(q.WhereOf().value))
  }

  // ---------------------------------------------------------------------------
  // add_order_by_clauses
  // ---------------------------------------------------------------------------

  /** `[order for order in orders if order["local"] is False]` */
  function RemoteOrders(order: seq<Q.OrderBy>): (r: seq<Q.OrderBy>)
    ensures LF.Subsequence(r, order)
    ensures forall i :: 0 <= i < |r| ==> !r[i].local
    ensures forall i :: 0 <= i < |order| && !order[i].local ==> order[i] in r
  {
    if order == [] then []
    else
      var rest := RemoteOrders(order[1..]);
      assert forall i :: 0 < i < |order| ==> order[i] == order[1..][i - 1];
      if order[0].local then rest else [order[0]] + rest
  }

  /** `"ASCENDING" if direction == "asc" else "DESCENDING"`: any direction text other than
      `asc` sorts descending. */
  function DirectionOf(direction: string): (d: Direction)
    ensures d == ASCENDING <==> direction == "asc"
  {
    if direction == "asc" then ASCENDING else DESCENDING
  }

  function AsOrdering(o: Q.OrderBy): Ordering {
    Ordering(o.property, DirectionOf(o.direction))
  }

  /** `for order in orders: query = query.order_by(...)` */
  function ApplyOrders(query: StoreQuery, order: seq<Q.OrderBy>): (r: StoreQuery)
    ensures r.source == query.source && r.filters == query.filters && r.limit == query.limit
    ensures |r.orderings| == |query.orderings| + |order|
    ensures r.orderings[..|query.orderings|] == query.orderings
    ensures forall i :: 0 <= i < |order| ==> r.orderings[|query.orderings| + i] == AsOrdering(order[i])
    decreases |order|
  {
    if order == [] then query
    else
      var next := query.(orderings := query.orderings + [AsOrdering(order[0])]);
      var r := ApplyOrders(next, order[1..]);
      assert forall i :: 0 < i < |order| ==> r.orderings[|query.orderings| + i] == AsOrdering(order[i]) by {
        forall i | 0 < i < |order| ensures r.orderings[|query.orderings| + i] == AsOrdering(order[i]) {
          assert |query.orderings| + i == |next.orderings| + (i - 1);
          assert order[i] == order[1..][i - 1];
        }
      }
      assert r.orderings[..|query.orderings|] == r.orderings[..|next.orderings|][..|query.orderings|];
      r
  }

  /** `add_order_by_clauses(query, fikl_query)` */
  function AddOrderByClauses(query: StoreQuery, q: Q.Query): (r: StoreQuery)
    ensures r.source == query.source && r.filters == query.filters && r.limit == query.limit
    ensures q.OrderOf().None? ==> r == query
    ensures q.OrderOf().Some? ==> |r.orderings| == |query.orderings| + |RemoteOrders(q.OrderOf().value)|
    ensures |query.orderings| <= |r.orderings| && r.orderings[..|query.orderings|] == query.orderings
  {
    if q.OrderOf().None? then query else ApplyOrders(query, RemoteOrders(q.OrderOf().value))
  }

  // ---------------------------------------------------------------------------
  // execute_select_query
  // ---------------------------------------------------------------------------

  /** `fikl_query["limit"]` when the query has a limit entry; only a select does. */
  function LimitOf(q: Q.Query): Option<Value> {
    if q.Select? then q.limit else None
  }

  /** The queries `execute_select_query` is applied to: a select, and the selection step of
      an update or a delete. */
  predicate Selecting(q: Q.Query) {
    q.Select? || q.Update? || q.Delete?
  }

  /** The Firestore query `execute_collection_query` sends: where clauses, then order clauses,
      then the limit. */
  function CollectionQuery(source: Source, q: Q.Query): (r: StoreQuery)
    ensures r.source == source && r.limit == LimitOf(q)
    ensures q.WhereOf().None? ==> r.filters == []
    ensures q.OrderOf().None? ==> r.orderings == []
    ensures q.WhereOf().Some? ==> |r.filters| == |Remotes(q.WhereOf().value)|
    ensures q.OrderOf().Some? ==> |r.orderings| == |RemoteOrders(q.OrderOf().value)|
  {
    var query := AddOrderByClauses(AddWhereClauses(StoreQuery(source, [], [], None), q), q);
    if LimitOf(q).Some? then query.(limit := LimitOf(q)) else query
  }

  /** What `execute_select_query` fetches: a collection or collection group query, or a
      single document. */
  datatype Fetch = FetchQuery(query: StoreQuery) | FetchDocument(path: string)

  function SelectFetch(q: Q.Query): Fetch
    requires Selecting(q)
  {
    match q.subjectType
    case COLLECTION_GROUP => FetchQuery(CollectionQuery(CollectionGroupSource(q.subject), q))
    case COLLECTION => FetchQuery(CollectionQuery(CollectionSource(q.subject), q))
    case DOCUMENT => FetchDocument(q.subject)
  }

  /** The records the local filter keeps, when no comparison raises. */
  function Kept(q: Q.Query, fetched: seq<Snapshot>): Result<seq<Snapshot>> {
    LF.FilterLocally(fetched, q.WhereOf())
  }

  /** The sort of the local phase can order the records the local filter keeps; records it
      drops are never compared. */
  predicate SortableKept(q: Q.Query, fetched: seq<Snapshot>) {
    Kept(q, fetched).Ok? && q.OrderOf().Some? ==>
      LS.AllComparable(Kept(q, fetched).value, LS.OrderColumns(q.OrderOf().value))
  }

  /** `execute_select_query(fikl_query)` given the records Firestore returns for
      `SelectFetch(q)`: a document is returned as fetched; a collection query's records are
      filtered by the local clauses and then sorted by every order clause. */
  function ExecuteSelect(q: Q.Query, fetched: seq<Snapshot>): (r: Result<seq<Snapshot>>)
    requires Selecting(q) && (q.subjectType != Q.DOCUMENT ==> SortableKept(q, fetched))
    ensures q.subjectType == Q.DOCUMENT ==> r == Ok(fetched)
    ensures q.subjectType != Q.DOCUMENT ==> (r.Ok? <==> Kept(q, fetched).Ok?)
    ensures q.subjectType != Q.DOCUMENT && r.Err? ==> r.error == Kept(q, fetched).error
  {
    if q.subjectType == Q.DOCUMENT then Ok(fetched)
    else
      var kept :- Kept(q, fetched);
      Ok(LS.SortLocally(kept, q.OrderOf()))
  }

  lemma KeptWereFetched(fetched: seq<Snapshot>, where: Option<seq<Q.Where>>)
    requires LF.FilterLocally(fetched, where).Ok?
    ensures LS.Within(LF.FilterLocally(fetched, where).value, fetched)
  {
    var kept := LF.FilterLocally(fetched, where).value;
    forall x | x in kept ensures x in fetched {
      assert multiset(kept)[x] > 0;
      assert multiset(fetched)[x] > 0;
    }
  }

  // ---------------------------------------------------------------------------
  // Properties
  // ---------------------------------------------------------------------------

  /** Every where clause is applied exactly once: pushed to Firestore when it is not local,
      evaluated locally when it is. */
  lemma WhereClausesSplit(wheres: seq<Q.Where>)
    ensures |Remotes(wheres)| + |LF.Locals(wheres)| == |wheres|
    ensures forall i :: 0 <= i < |wheres| ==>
              (wheres[i] in Remotes(wheres) <==> !wheres[i].local) &&
              (wheres[i] in LF.Locals(wheres) <==> wheres[i].local)
  {
    forall i | 0 <= i < |wheres|
      ensures (wheres[i] in Remotes(wheres) <==> !wheres[i].local) &&
              (wheres[i] in LF.Locals(wheres) <==> wheres[i].local)
    {
      var r, l := Remotes(wheres), LF.Locals(wheres);
      if wheres[i] in r { var j :| 0 <= j < |r| && r[j] == wheres[i]; }
      if wheres[i] in l { var j :| 0 <= j < |l| && l[j] == wheres[i]; }
    }
  }

  /** The filters pushed to Firestore are the non-local where clauses, in declaration order,
      with `not_in` renamed. */
  lemma PushedFilters(source: Source, q: Q.Query)
    requires Selecting(q) && q.where.Some?
    ensures var f := CollectionQuery(source, q).filters;
            var remote := Remotes(q.where.value);
            |f| == |remote| && LF.Subsequence(remote, q.where.value) &&
            forall i :: 0 <= i < |f| ==>
              !remote[i].local && f[i].field == remote[i].property && f[i].value == remote[i].value &&
              f[i].op == (if remote[i].operator == "not_in" then "not-in" else remote[i].operator)
  {
    var remote := Remotes(q.where.value);
    var pushed := ApplyWheres(StoreQuery(source, [], [], None), remote);
    CollectionFilters(source, q);
    assert forall i :: 0 <= i < |remote| ==> pushed.filters[i] == AsFieldFilter(remote[i]) by {
      forall i | 0 <= i < |remote| ensures pushed.filters[i] == AsFieldFilter(remote[i]) {
        assert pushed.filters[|StoreQuery(source, [], [], None).filters| + i] == AsFieldFilter(remote[i]);
      }
    }
  }

  /** The order clauses and the limit leave the filters of the where clauses as they are. */
  lemma CollectionFilters(source: Source, q: Q.Query)
    requires q.WhereOf().Some?
    ensures CollectionQuery(source, q).filters ==
            ApplyWheres(StoreQuery(source, [], [], None), Remotes(q.WhereOf().value)).filters
  {
    var pushed := AddWhereClauses(StoreQuery(source, [], [], None), q);
    assert AddOrderByClauses(pushed, q).filters == pushed.filters;
  }

  /** Order clauses are pushed only for a select, only the non-local ones, in order, `asc` as
      ASCENDING and any other direction as DESCENDING. */
  lemma PushedOrderings(source: Source, q: Q.Query)
    requires Selecting(q)
    ensures var o := CollectionQuery(source, q).orderings;
            (!q.Select? || q.order.None? ==> o == []) &&
            (q.Select? && q.order.Some? ==>
               var remote := RemoteOrders(q.order.value);
               |o| == |remote| &&
               forall i :: 0 <= i < |o| ==>
                 !remote[i].local && o[i].field == remote[i].property &&
                 (o[i].direction == ASCENDING <==> remote[i].direction == "asc"))
  {
  }

  /** The limit is set only by a select that has one; an update or delete fetches every
      matching document. */
  lemma LimitOnlyForSelect(source: Source, q: Q.Query)
    requires Selecting(q)
    ensures CollectionQuery(source, q).limit == (if q.Select? then q.limit else None)
  {
  }

  /** What a collection select returns: exactly the fetched records that satisfy every local
      clause, each as often as it was fetched, arranged as a stable sort by all order clauses,
      local or not. */
  lemma SelectResult(q: Q.Query, fetched: seq<Snapshot>)
    requires Selecting(q) && q.subjectType != Q.DOCUMENT && SortableKept(q, fetched)
    requires ExecuteSelect(q, fetched).Ok?
    ensures var r := ExecuteSelect(q, fetched).value;
            var kept := Kept(q, fetched).value;
            multiset(r) == multiset(kept) && LS.Within(r, fetched) &&
            (q.where.Some? ==> forall x :: x in r ==> LF.Includes(x.data, LF.Locals(q.where.value)) == Ok(true)) &&
            (q.where.Some? ==> forall j ::
               0 <= j < |fetched| && LF.Includes(fetched[j].data, LF.Locals(q.where.value)) == Ok(true) ==>
                 fetched[j] in r) &&
            (q.where.None? ==> multiset(r) == multiset(fetched)) &&
            (q.OrderOf().None? ==> r == kept) &&
            (q.OrderOf().Some? ==> LS.Sorted(r, LS.OrderColumns(q.OrderOf().value)) &&
                                   LS.Stable(r, kept, LS.OrderColumns(q.OrderOf().value)))
  {
    var kept := Kept(q, fetched).value;
    KeptWereFetched(fetched, q.WhereOf());
    var r := ExecuteSelect(q, fetched).value;
    assert r == LS.SortLocally(kept, q.OrderOf());
    LS.PermutationWithin(r, kept);
    if q.where.Some? {
      forall x | x in r ensures LF.Includes(x.data, LF.Locals(q.where.value)) == Ok(true) {
        assert x in kept;
        assert multiset(kept)[x] > 0;
      }
      forall j | 0 <= j < |fetched| && LF.Includes(fetched[j].data, LF.Locals(q.where.value)) == Ok(true)
        ensures fetched[j] in r
      {
        assert multiset(fetched)[fetched[j]] > 0;
        assert multiset(kept)[fetched[j]] > 0;
        assert fetched[j] in kept;
      }
    }
  }

  // ---------------------------------------------------------------------------
  // The count loops of execute_update_query and execute_delete_query
  // ---------------------------------------------------------------------------

  /** How many of the per-document writes succeeded. */
  function Successes(outcomes: seq<bool>): (n: nat)
    ensures n <= |outcomes|
    ensures n == |outcomes| <==> forall i :: 0 <= i < |outcomes| ==> outcomes[i]
    ensures n == 0 <==> forall i :: 0 <= i < |outcomes| ==> !outcomes[i]
  {
    if outcomes == [] then 0
    else
      var rest := Successes(outcomes[1..]);
      assert forall i :: 0 < i < |outcomes| ==> outcomes[i] == outcomes[1..][i - 1];
      (if outcomes[0] then 1 else 0) + rest
  }

  lemma {:induction false} SuccessesAppend(a: seq<bool>, b: seq<bool>)
    ensures Successes(a + b) == Successes(a) + Successes(b)
  {
    if a != [] {
      assert (a + b)[1..] == a[1..] + b;
      SuccessesAppend(a[1..], b);
    } else {
      assert a + b == b;
    }
  }

  /** `count = 0; for doc in docs: try: write(doc); count += 1 except Exception: pass`, with
      the outcome of each write given: the number of writes that did not raise. */
  method CountSuccesses(outcomes: seq<bool>) returns (count: nat)
    ensures count == Successes(outcomes)
  {
    count := 0;
    for i := 0 to |outcomes|
      invariant count == Successes(outcomes[..i])
    {
      assert outcomes[..i + 1] == outcomes[..i] + [outcomes[i]];
      SuccessesAppend(outcomes[..i], [outcomes[i]]);
      assert Successes([outcomes[i]]) == (if outcomes[i] then 1 else 0) + Successes([]);
      if outcomes[i] {
        count := count + 1;
      }
    }
    assert outcomes[..|outcomes|] == outcomes;
  }
}
