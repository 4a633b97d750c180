/** `execute_query` and `run_query` of lang/ql.py: dispatching a query to its executor, and
    shaping what the executor returns into the response. A count becomes `{"count": n}`;
    a list of records becomes the list of their documents, skipping any that is None, or a
    `{"count", "file"}` summary when the query asks for its output to be saved. What Firestore
    returns, the outcome of each write and the path a saved file gets are parameters. */
module Runner {
  import opened Values
  import Q = Query
  import D = Documents
  import P = Planner

  /** What `execute_query` returns: a count of affected documents, or a list of records
      (snapshots or collection names), an entry of which may be None. */
  datatype Executed = Affected(count: int) | Fetched(items: seq<Option<D.Response>>)

  /** The records as `execute_query` lists them. */
  function AsResponses(rs: seq<Snapshot>): (r: seq<Option<D.Response>>)
    ensures |r| == |rs| && forall i :: 0 <= i < |rs| ==> r[i] == Some(D.Document(rs[i]))
  {
    seq(|rs|, i requires 0 <= i < |rs| => Some(D.Document(rs[i])))
  }

  /** `execute_query(fikl_query)`, given what Firestore returns: `fetched` for the select a
      query runs, `outcomes[i]` for whether the write to the i-th selected record succeeded,
      and `collections` for the root collections. An insert first builds its document, and
      raises when building it does. */
  function ExecuteQuery(q: Q.Query, fetched: seq<Snapshot>, outcomes: seq<bool>, collections: seq<string>): (r: Result<Executed>)
    requires P.Selecting(q) && q.subjectType != Q.DOCUMENT ==> P.SortableKept(q, fetched)
    requires (q.Update? || q.Delete?) && P.ExecuteSelect(q, fetched).Ok? ==>
               |outcomes| == |P.ExecuteSelect(q, fetched).value|
    ensures q.Select? ==>
              (r.Ok? <==> P.ExecuteSelect(q, fetched).Ok?) &&
              (r.Ok? ==> r.value == Fetched(AsResponses(P.ExecuteSelect(q, fetched).value)))
    ensures q.Update? || q.Delete? ==>
              (r.Ok? <==> P.ExecuteSelect(q, fetched).Ok?) &&
              (r.Ok? ==> r.value == Affected(P.Successes(outcomes)) &&
                         0 <= r.value.count <= |P.ExecuteSelect(q, fetched).value| &&
                         (r.value.count == |P.ExecuteSelect(q, fetched).value| <==> forall i :: 0 <= i < |outcomes| ==> outcomes[i]))
    ensures q.Show? ==>
              r.Ok? && r.value.Fetched? && |r.value.items| == |collections| &&
              forall i :: 0 <= i < |collections| ==> r.value.items[i] == Some(D.CollectionName(collections[i]))
    ensures q.Insert? ==> (r.Ok? <==> D.InsertDocument(q.setters).Ok?) && (r.Ok? ==> r.value == Affected(1))
  {
    match q
    case Select(_, _, _, _, _, _, _, _, _) =>
      var rs :- P.ExecuteSelect(q, fetched);
      Ok(Fetched(AsResponses(rs)))
    case Update(_, _, _, _) =>
      var _ :- P.ExecuteSelect(q, fetched);
      Ok(Affected(P.Successes(outcomes)))
    case Delete(_, _, _) =>
      var _ :- P.ExecuteSelect(q, fetched);
      Ok(Affected(P.Successes(outcomes)))
    case Show(_, _, _) =>
      Ok(Fetched(seq(|collections|, i requires 0 <= i < |collections| => Some(D.CollectionName(collections[i])))))
    case Insert(_, _, setters, _) =>
      var _ :- D.InsertDocument(setters);
      Ok(Affected(1))
  }

  /** `should_output(fikl_query)`: only a select carries an output, and it counts when it is
      not None. */
  predicate ShouldOutput(q: Q.Query) {
    q.Select? && q.output.Some? && q.output.value != Null
  }

  /** `[doc for doc in response if object_exists(doc)]`: the records that are not None, in
      order. */
  function Present(items: seq<Option<D.Response>>): (r: seq<D.Response>)
    ensures |r| <= |items|
    ensures forall x :: x in r <==> Some(x) in items
    ensures (forall i :: 0 <= i < |items| ==> items[i].Some?) ==>
              |r| == |items| && forall i :: 0 <= i < |items| ==> r[i] == items[i].value
  {
    if items == [] then []
    else
      var rest := Present(items[1..]);
      assert forall i :: 0 < i < |items| ==> items[i] == items[1..][i - 1];
      assert forall y :: y in items <==> y == items[0] || y in items[1..];
      if items[0].Some? then [items[0].value] + rest else rest
  }

  /** `snapshot_to_document_fn(fikl_query)` applied to each record in turn; the first record
      whose projection raises ends the list with that error. */
  function DocumentsOf(fields: Q.Fields, rs: seq<D.Response>): (r: Result<seq<Value>>)
    ensures r.Ok? <==> forall i :: 0 <= i < |rs| ==> D.SnapshotToDocument(fields, rs[i]).Ok?
    ensures r.Ok? ==> |r.value| == |rs| &&
                      forall i :: 0 <= i < |rs| ==> r.value[i] == D.SnapshotToDocument(fields, rs[i]).value
  {
    if rs == [] then Ok([])
    else
      var doc :- D.SnapshotToDocument(fields, rs[0]);
      var rest :- DocumentsOf(fields, rs[1..]);
      assert forall i :: 0 < i < |rs| ==> rs[i] == rs[1..][i - 1];
      Ok([doc] + rest)
  }

  /** The response `run_query` builds from what the executor returned; `savedPath` is the path
      `output_json_to_file` reports. */
  function Respond(q: Q.Query, executed: Executed, savedPath: string): (r: Result<Value>)
    ensures executed.Affected? ==> r == Ok(Dict([Entry("count", Int(executed.count))]))
    ensures executed.Fetched? ==>
              (r.Ok? <==> forall x :: Some(x) in executed.items ==> D.SnapshotToDocument(q.RequestedFields(), x).Ok?)
    ensures executed.Fetched? && r.Ok? && !ShouldOutput(q) ==>
              var rs := Present(executed.items);
              r.value.List? && |r.value.items| == |rs| &&
              forall i :: 0 <= i < |rs| ==> r.value.items[i] == D.SnapshotToDocument(q.RequestedFields(), rs[i]).value
    ensures executed.Fetched? && r.Ok? && ShouldOutput(q) ==>
              r.value == Dict([Entry("count", Int(|Present(executed.items)|)), Entry("file", Str(savedPath))])
  {
    match executed
    case Affected(n) => Ok(Dict([Entry("count", Int(n))]))
    case Fetched(items) =>
      var rs := Present(items);
      assert forall x :: Some(x) in items <==> exists i :: 0 <= i < |rs| && rs[i] == x;
      var documents :- DocumentsOf(q.RequestedFields(), rs);
      if ShouldOutput(q) then Ok(Dict([Entry("count", Int(|documents|)), Entry("file", Str(savedPath))]))
      else Ok(List(documents))
  }

  /** `run_query` on a query already parsed: execute it, then shape the response. */
  function RunQuery(q: Q.Query, fetched: seq<Snapshot>, outcomes: seq<bool>, collections: seq<string>,
                    savedPath: string): (r: Result<Value>)
    requires P.Selecting(q) && q.subjectType != Q.DOCUMENT ==> P.SortableKept(q, fetched)
    requires (q.Update? || q.Delete?) && P.ExecuteSelect(q, fetched).Ok? ==>
               |outcomes| == |P.ExecuteSelect(q, fetched).value|
    ensures r.Ok? && !(q.Select? || q.Show?) ==> r.value.Dict? && Keys(r.value.entries) == ["count"]
    ensures r.Ok? && (q.Select? || q.Show?) ==> (r.value.List? <==> !ShouldOutput(q))
  {
    var executed :- ExecuteQuery(q, fetched, outcomes, collections);
    Respond(q, executed, savedPath)
  }

  /** An update or delete responds with the number of writes that succeeded, which is at most
      the number of records it selected. */
  lemma WriteResponse(q: Q.Query, fetched: seq<Snapshot>, outcomes: seq<bool>, collections: seq<string>, savedPath: string)
    requires q.Update? || q.Delete?
    requires q.subjectType != Q.DOCUMENT ==> P.SortableKept(q, fetched)
    requires P.ExecuteSelect(q, fetched).Ok? ==> |outcomes| == |P.ExecuteSelect(q, fetched).value|
    ensures var r := RunQuery(q, fetched, outcomes, collections, savedPath);
            (r.Ok? <==> P.ExecuteSelect(q, fetched).Ok?) &&
            (r.Ok? ==> r.value == Dict([Entry("count", Int(P.Successes(outcomes)))]) &&
                       P.Successes(outcomes) <= |P.ExecuteSelect(q, fetched).value|)
  {
    var ex := ExecuteQuery(q, fetched, outcomes, collections);
    if ex.Ok? {
      var n := ex.value.count;
      assert RunQuery(q, fetched, outcomes, collections, savedPath) == Ok(Dict([Entry("count", Int(n))]));
    }
  }

  /** A select of all fields with no output responds with one document per selected record,
      in order: its data with `_path` set to its path. Once the select succeeds, it raises
      exactly when a selected record is a document that does not exist. */
  lemma SelectStarResponse(q: Q.Query, fetched: seq<Snapshot>, outcomes: seq<bool>, collections: seq<string>, savedPath: string)
    requires q.Select? && q.fields.Star? && !ShouldOutput(q)
    requires q.subjectType != Q.DOCUMENT ==> P.SortableKept(q, fetched)
    requires P.ExecuteSelect(q, fetched).Ok?
    ensures var rs := P.ExecuteSelect(q, fetched).value;
            var r := RunQuery(q, fetched, outcomes, collections, savedPath);
            (r.Ok? <==> forall i :: 0 <= i < |rs| ==> rs[i].found) &&
            (r.Ok? ==> r.value.List? && |r.value.items| == |rs| &&
                       forall i :: 0 <= i < |rs| ==> r.value.items[i] == Dict(D.DocumentOf(rs[i].data, rs[i].path)))
  {
    var rs := P.ExecuteSelect(q, fetched).value;
    StarDocuments(q, rs, savedPath);
    assert RunQuery(q, fetched, outcomes, collections, savedPath) == Respond(q, Fetched(AsResponses(rs)), savedPath);
  }

  /** Each record's document when all fields are selected: its data with `_path` set. The
      response raises exactly when a record is a document that does not exist. */
  lemma StarDocuments(q: Q.Query, rs: seq<Snapshot>, savedPath: string)
    requires q.Select? && q.fields.Star? && !ShouldOutput(q)
    ensures var r := Respond(q, Fetched(AsResponses(rs)), savedPath);
            (r.Ok? <==> forall i :: 0 <= i < |rs| ==> rs[i].found) &&
            (r.Ok? ==> r.value.List? && |r.value.items| == |rs| &&
                       forall i :: 0 <= i < |rs| ==> r.value.items[i] == Dict(D.DocumentOf(rs[i].data, rs[i].path)))
  {
    if forall i :: 0 <= i < |rs| ==> rs[i].found {
      FoundDocuments(q, rs, savedPath);
    } else {
      var i :| 0 <= i < |rs| && !rs[i].found;
      MissingRecordRaises(q, rs, i, savedPath);
    }
  }

  lemma FoundDocuments(q: Q.Query, rs: seq<Snapshot>, savedPath: string)
    requires q.Select? && q.fields.Star? && !ShouldOutput(q)
    requires forall i :: 0 <= i < |rs| ==> rs[i].found
    ensures var r := Respond(q, Fetched(AsResponses(rs)), savedPath);
            r.Ok? && r.value.List? && |r.value.items| == |rs| &&
            forall i :: 0 <= i < |rs| ==> r.value.items[i] == Dict(D.DocumentOf(rs[i].data, rs[i].path))
  {
    var items := AsResponses(rs);
    var present := Present(items);
    forall x | Some(x) in items ensures D.SnapshotToDocument(q.RequestedFields(), x).Ok? {
      var i :| 0 <= i < |items| && items[i] == Some(x);
    }
    var r := Respond(q, Fetched(items), savedPath);
    forall i | 0 <= i < |rs| ensures r.value.items[i] == Dict(D.DocumentOf(rs[i].data, rs[i].path)) {
      assert present[i] == D.Document(rs[i]);
    }
  }

  /** One record that does not exist makes the response raise, whatever the fields. */
  lemma MissingRecordRaises(q: Q.Query, rs: seq<Snapshot>, i: int, savedPath: string)
    requires 0 <= i < |rs| && !rs[i].found
    ensures Respond(q, Fetched(AsResponses(rs)), savedPath).Err?
  {
    assert AsResponses(rs)[i] == Some(D.Document(rs[i]));
  }

  /** A document subject that does not exist makes a select raise: its snapshot has no data to
      take `_path`. */
  lemma MissingDocumentRaises(q: Q.Query, s: Snapshot, outcomes: seq<bool>, collections: seq<string>, savedPath: string)
    requires q.Select? && q.subjectType == Q.DOCUMENT && !s.found
    ensures RunQuery(q, [s], outcomes, collections, savedPath) == Err(TypeError)
  {
    var items := AsResponses([s]);
    assert items == [Some(D.Document(s))];
    assert Present(items) == [D.Document(s)];
    assert DocumentsOf(q.RequestedFields(), Present(items)) == Err(TypeError);
  }

  /** Saving the output of a select responds with the number of documents written and the
      file's path, once every selected record's projection succeeds (always, for `*`). */
  lemma SavedResponse(q: Q.Query, rs: seq<Snapshot>, savedPath: string)
    requires ShouldOutput(q)
    requires forall i :: 0 <= i < |rs| ==> D.SnapshotToDocument(q.RequestedFields(), D.Document(rs[i])).Ok?
    ensures Respond(q, Fetched(AsResponses(rs)), savedPath) ==
              Ok(Dict([Entry("count", Int(|rs|)), Entry("file", Str(savedPath))]))
  {
    var items := AsResponses(rs);
    forall x | Some(x) in items ensures D.SnapshotToDocument(q.RequestedFields(), x).Ok? {
      var i :| 0 <= i < |items| && items[i] == Some(x);
    }
  }

  /** A saved `*` select responds with the number of selected records and the file's path,
      once every selected record is a document that exists. */
  lemma SavedStarResponse(q: Q.Query, fetched: seq<Snapshot>, outcomes: seq<bool>, collections: seq<string>, savedPath: string)
    requires ShouldOutput(q) && q.fields.Star?
    requires q.subjectType != Q.DOCUMENT ==> P.SortableKept(q, fetched)
    requires P.ExecuteSelect(q, fetched).Ok?
    ensures var rs := P.ExecuteSelect(q, fetched).value;
            var r := RunQuery(q, fetched, outcomes, collections, savedPath);
            (r.Ok? <==> forall i :: 0 <= i < |rs| ==> rs[i].found) &&
            (r.Ok? ==> r.value == Dict([Entry("count", Int(|rs|)), Entry("file", Str(savedPath))]))
  {
    var rs := P.ExecuteSelect(q, fetched).value;
    var items := AsResponses(rs);
    assert RunQuery(q, fetched, outcomes, collections, savedPath) == Respond(q, Fetched(items), savedPath);
    if forall i :: 0 <= i < |rs| ==> rs[i].found {
      SavedResponse(q, rs, savedPath);
    } else {
      var i :| 0 <= i < |rs| && !rs[i].found;
      MissingRecordRaises(q, rs, i, savedPath);
    }
  }
}
