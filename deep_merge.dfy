/** What `merge_dicts` of lang/ql.py computes, key by key. Keys do not interact: the value the
    result holds at a key is the in-order fold of the assignments the inputs make to that key,
    and the merge raises exactly when some key's fold does. From that follow a description of
    the result that does not mention the loops (the last value at a key when it is not a dict,
    otherwise the merge of the dicts at that key) and the condition under which merging raises:
    some key, at some depth, holds a value that is not a dict in one input and a dict in a
    later one. */
module DeepMerge {
  import opened Values
  import opened Documents
  import Q = Query

  /** `d[k]` when `k in d`. */
  function Lookup(d: seq<Entry>, k: string): (r: Option<Value>)
    ensures r.Some? <==> HasKey(d, k)
  {
    if HasKey(d, k) then Some(Get(d, k)) else None
  }

  /** One assignment `result[key] = ...` of the inner loop, given what the result held at the
      key: a dict is merged with it, anything else replaces it. */
  function Assign(prior: Option<Value>, v: Value): Result<Value> {
    if v.Dict? then
      var m :- MergePair(if prior.Some? then prior.value else Dict([]), v);
      Ok(Dict(m))
    else Ok(v)
  }

  /** The assignments to one key, in order, starting from what the key held. */
  function AssignAll(prior: Option<Value>, vs: seq<Value>): Result<Option<Value>>
    decreases |vs|
  {
    if vs == [] then Ok(prior)
    else
      var x :- Assign(prior, vs[0]);
      AssignAll(Some(x), vs[1..])
  }

  /** The values the entries of one dict give to key `k`, in order. */
  function ValuesAt(es: seq<Entry>, k: string): (vs: seq<Value>)
    ensures ValuesDepth(vs) <= EntriesDepth(es)
  {
    if es == [] then []
    else
      var rest := ValuesAt(es[1..], k);
      ValuesDepthAppend(if es[0].key == k then [es[0].val] else [], rest);
      (if es[0].key == k then [es[0].val] else []) + rest
  }

  /** The values all the input dicts give to key `k`, in input order. */
  function InputValuesAt(ds: seq<Value>, k: string): (vs: seq<Value>)
    ensures vs == [] || ValuesDepth(vs) < ValuesDepth(ds)
  {
    if ds == [] then []
    else
      var here := if ds[0].Dict? then ValuesAt(ds[0].entries, k) else [];
      var rest := InputValuesAt(ds[1..], k);
      ValuesDepthAppend(here, rest);
      here + rest
  }

  /** The values among `vs` that are dicts, in order. */
  function Dicts(vs: seq<Value>): (r: seq<Value>)
    ensures ValuesDepth(r) <= ValuesDepth(vs)
    ensures forall i :: 0 <= i < |r| ==> r[i].Dict?
    ensures |r| <= |vs|
  {
    if vs == [] then []
    else if vs[0].Dict? then [vs[0]] + Dicts(vs[1..])
    else Dicts(vs[1..])
  }

  predicate HasDict(vs: seq<Value>) {
    exists i :: 0 <= i < |vs| && vs[i].Dict?
  }

  /** A value that is not a dict, followed later by a dict. */
  predicate ScalarBeforeDict(vs: seq<Value>) {
    exists i, j :: 0 <= i < j < |vs| && !vs[i].Dict? && vs[j].Dict?
  }

  /** Merging the dicts `ds` would meet a value that is not a dict where a later input has a
      dict, at some key of some depth. */
  ghost predicate Conflict(ds: seq<Value>)
    decreases ValuesDepth(ds), |ds|
  {
    ds != [] &&
    exists k :: ScalarBeforeDict(InputValuesAt(ds, k)) || Conflict(Dicts(InputValuesAt(ds, k)))
  }

  function Last(vs: seq<Value>): Value
    requires vs != []
  {
    vs[|vs| - 1]
  }

  // ---------------------------------------------------------------------------
  // Depth bookkeeping
  // ---------------------------------------------------------------------------

  lemma {:induction false} ValuesDepthAppend(a: seq<Value>, b: seq<Value>)
    ensures ValuesDepth(a + b) == Max(ValuesDepth(a), ValuesDepth(b))
  {
    if a != [] {
      assert (a + b)[1..] == a[1..] + b;
      ValuesDepthAppend(a[1..], b);
    } else {
      assert a + b == b;
    }
  }

  // ---------------------------------------------------------------------------
  // Key by key
  // ---------------------------------------------------------------------------

  /** One assignment changes the result at its own key only, by `Assign`. */
  lemma MergeEntryAt(acc: seq<Entry>, e: Entry, k: string)
    ensures MergeEntry(acc, e).Ok? <==> Assign(Lookup(acc, e.key), e.val).Ok?
    ensures MergeEntry(acc, e).Ok? ==>
              Lookup(MergeEntry(acc, e).value, k) ==
                if k == e.key then Some(Assign(Lookup(acc, e.key), e.val).value) else Lookup(acc, k)
  {
    assert PriorOf(acc, e.key) == if Lookup(acc, e.key).Some? then Lookup(acc, e.key).value else Dict([]);
  }

  /** The inner loop: at every key, the result holds the fold of that key's assignments. */
  lemma {:induction false} MergeIntoAt(acc: seq<Entry>, es: seq<Entry>, k: string)
    requires MergeInto(acc, es).Ok?
    ensures AssignAll(Lookup(acc, k), ValuesAt(es, k)) == Ok(Lookup(MergeInto(acc, es).value, k))
    decreases |es|
  {
    if es != [] {
      var e := es[0];
      MergeEntryAt(acc, e, k);
      var acc' := MergeEntry(acc, e).value;
      assert MergeInto(acc, es) == MergeInto(acc', es[1..]);
      MergeIntoAt(acc', es[1..], k);
      ValuesAtStep(acc, es, k);
    }
  }

  /** The first entry's assignment to `k`, if it makes one, followed by the rest. */
  lemma ValuesAtStep(acc: seq<Entry>, es: seq<Entry>, k: string)
    requires es != [] && MergeEntry(acc, es[0]).Ok?
    ensures AssignAll(Lookup(acc, k), ValuesAt(es, k)) ==
              AssignAll(Lookup(MergeEntry(acc, es[0]).value, k), ValuesAt(es[1..], k))
  {
    var e := es[0];
    var rest := ValuesAt(es[1..], k);
    MergeEntryAt(acc, e, k);
    if e.key == k {
      assert ValuesAt(es, k) == [e.val] + rest;
      assert ([e.val] + rest)[1..] == rest;
    } else {
      assert ValuesAt(es, k) == rest;
    }
  }

  /** The inner loop raises only where some key's assignments raise. */
  lemma {:induction false} MergeIntoFailsAt(acc: seq<Entry>, es: seq<Entry>) returns (k: string)
    requires MergeInto(acc, es).Err?
    ensures AssignAll(Lookup(acc, k), ValuesAt(es, k)).Err?
    decreases |es|
  {
    var e := es[0];
    MergeEntryAt(acc, e, e.key);
    if MergeEntry(acc, e).Err? {
      k := e.key;
      assert ValuesAt(es, k) == [e.val] + ValuesAt(es[1..], k);
    } else {
      var acc' := MergeEntry(acc, e).value;
      assert MergeInto(acc, es) == MergeInto(acc', es[1..]);
      k := MergeIntoFailsAt(acc', es[1..]);
      ValuesAtStep(acc, es, k);
    }
  }

  lemma {:induction false} AssignAllAppend(prior: Option<Value>, a: seq<Value>, b: seq<Value>)
    ensures AssignAll(prior, a).Err? ==> AssignAll(prior, a + b).Err?
    ensures AssignAll(prior, a).Ok? ==> AssignAll(prior, a + b) == AssignAll(AssignAll(prior, a).value, b)
    decreases |a|
  {
    if a != [] {
      assert (a + b)[1..] == a[1..] + b;
      if Assign(prior, a[0]).Ok? {
        AssignAllAppend(Some(Assign(prior, a[0]).value), a[1..], b);
      }
    } else {
      assert a + b == b;
    }
  }

  /** The outer loop: at every key, the result holds the fold of the assignments all the
      inputs make to that key. */
  lemma {:induction false} MergeAllAt(acc: seq<Entry>, ds: seq<Value>, k: string)
    requires MergeAll(acc, ds).Ok?
    ensures AssignAll(Lookup(acc, k), InputValuesAt(ds, k)) == Ok(Lookup(MergeAll(acc, ds).value, k))
    decreases |ds|
  {
    if ds != [] {
      var acc' := MergeInto(acc, ds[0].entries).value;
      MergeIntoAt(acc, ds[0].entries, k);
      MergeAllAt(acc', ds[1..], k);
      AssignAllAppend(Lookup(acc, k), ValuesAt(ds[0].entries, k), InputValuesAt(ds[1..], k));
    }
  }

  /** Merging all dicts raises only where some key's assignments raise. */
  lemma {:induction false} MergeAllFailsAt(acc: seq<Entry>, ds: seq<Value>) returns (k: string)
    requires forall i :: 0 <= i < |ds| ==> ds[i].Dict?
    requires MergeAll(acc, ds).Err?
    ensures AssignAll(Lookup(acc, k), InputValuesAt(ds, k)).Err?
    decreases |ds|
  {
    var es := ds[0].entries;
    if MergeInto(acc, es).Err? {
      k := MergeIntoFailsAt(acc, es);
    } else {
      var acc' := MergeInto(acc, es).value;
      k := MergeAllFailsAt(acc', ds[1..]);
      MergeIntoAt(acc, es, k);
    }
    AssignAllAppend(Lookup(acc, k), ValuesAt(es, k), InputValuesAt(ds[1..], k));
  }

  lemma {:induction false} MergeAllNeedsDicts(acc: seq<Entry>, ds: seq<Value>)
    requires MergeAll(acc, ds).Ok?
    ensures forall i :: 0 <= i < |ds| ==> ds[i].Dict?
    decreases |ds|
  {
    if ds != [] {
      MergeAllNeedsDicts(MergeInto(acc, ds[0].entries).value, ds[1..]);
      assert forall i :: 0 < i < |ds| ==> ds[i] == ds[1..][i - 1];
    }
  }

  /** `merge_dicts(ds)` key by key: it succeeds exactly when every input is a dict and no
      key's assignments raise, and then each key holds the fold of its assignments. */
  lemma DeepMergedByKey(ds: seq<Value>)
    ensures DeepMerged(ds).Ok? <==>
              (forall i :: 0 <= i < |ds| ==> ds[i].Dict?) &&
              (forall k :: AssignAll(None, InputValuesAt(ds, k)).Ok?)
    ensures DeepMerged(ds).Ok? ==>
              forall k :: AssignAll(None, InputValuesAt(ds, k)) == Ok(Lookup(DeepMerged(ds).value, k))
  {
    assert forall k :: Lookup([], k) == None;
    if DeepMerged(ds).Ok? {
      MergeAllNeedsDicts([], ds);
      forall k ensures AssignAll(None, InputValuesAt(ds, k)) == Ok(Lookup(DeepMerged(ds).value, k)) {
        MergeAllAt([], ds, k);
      }
    } else if forall i :: 0 <= i < |ds| ==> ds[i].Dict? {
      var k := MergeAllFailsAt([], ds);
    }
  }

  // ---------------------------------------------------------------------------
  // Merge results are dicts all the way down, and merging one into {} copies it
  // ---------------------------------------------------------------------------

  /** Every dict in the value, at any depth, is a Python dict: no key twice. */
  predicate WellFormed(v: Value)
    decreases Size(v), 0
  {
    v.Dict? ==> WellFormedEntries(v.entries)
  }

  predicate WellFormedEntries(es: seq<Entry>)
    decreases EntriesSize(es), 2
  {
    DistinctKeys(es) && AllWellFormed(es)
  }

  predicate AllWellFormed(es: seq<Entry>)
    decreases EntriesSize(es), 1
  {
    es == [] || (WellFormed(es[0].val) && AllWellFormed(es[1..]))
  }

  lemma {:induction false} PutWellFormed(d: seq<Entry>, k: string, v: Value)
    requires AllWellFormed(d) && WellFormed(v)
    ensures AllWellFormed(Put(d, k, v))
  {
    if d != [] && d[0].key != k {
      PutWellFormed(d[1..], k, v);
    }
  }

  lemma MergeAllWellFormed(acc: seq<Entry>, ds: seq<Value>)
    requires WellFormedEntries(acc) && MergeAll(acc, ds).Ok?
    ensures WellFormedEntries(MergeAll(acc, ds).value)
  {
    MaxBound(1 + EntriesDepth(acc), ValuesDepth(ds), Max(1 + EntriesDepth(acc), ValuesDepth(ds)));
    MergeAllWellFormedBelow(acc, ds, Max(1 + EntriesDepth(acc), ValuesDepth(ds)));
  }

  /** The three loops below are proved together by induction on a bound `n` on how deeply
      dicts nest in what they merge: the recursive call of the inner loop has a smaller one. */
  lemma {:induction false} MergeAllWellFormedBelow(acc: seq<Entry>, ds: seq<Value>, n: nat)
    requires 1 + EntriesDepth(acc) <= n && ValuesDepth(ds) <= n
    requires WellFormedEntries(acc) && MergeAll(acc, ds).Ok?
    ensures WellFormedEntries(MergeAll(acc, ds).value)
    decreases n, 2, |ds|
  {
    if ds != [] {
      AllStep(acc, ds);
      var acc' := MergeInto(acc, ds[0].entries).value;
      MaxBound(Depth(ds[0]), ValuesDepth(ds[1..]), n);
      MaxBound(EntriesDepth(acc), EntriesDepth(ds[0].entries), n - 1);
      MergeIntoWellFormed(acc, ds[0].entries, n);
      MergeAllWellFormedBelow(acc', ds[1..], n);
    }
  }

  lemma {:induction false} MergeIntoWellFormed(acc: seq<Entry>, es: seq<Entry>, n: nat)
    requires 1 + EntriesDepth(acc) <= n && 1 + EntriesDepth(es) <= n
    requires WellFormedEntries(acc) && MergeInto(acc, es).Ok?
    ensures WellFormedEntries(MergeInto(acc, es).value)
    decreases n, 1, |es|
  {
    if es != [] {
      IntoStep(acc, es);
      var acc' := MergeEntry(acc, es[0]).value;
      MaxBound(Depth(es[0].val), EntriesDepth(es[1..]), n - 1);
      MaxBound(EntriesDepth(acc), Depth(es[0].val), n - 1);
      MergeEntryWellFormed(acc, es[0], n);
      MergeIntoWellFormed(acc', es[1..], n);
    }
  }

  /** One turn of the outer loop. */
  lemma AllStep(acc: seq<Entry>, ds: seq<Value>)
    requires ds != [] && MergeAll(acc, ds).Ok?
    ensures ds[0].Dict? && MergeInto(acc, ds[0].entries).Ok?
    ensures MergeAll(acc, ds) == MergeAll(MergeInto(acc, ds[0].entries).value, ds[1..])
  {
  }

  /** One turn of the inner loop. */
  lemma IntoStep(acc: seq<Entry>, es: seq<Entry>)
    requires es != [] && MergeInto(acc, es).Ok?
    ensures MergeEntry(acc, es[0]).Ok?
    ensures MergeInto(acc, es) == MergeInto(MergeEntry(acc, es[0]).value, es[1..])
  {
  }

  lemma {:induction false} MergeEntryWellFormed(acc: seq<Entry>, e: Entry, n: nat)
    requires 1 + EntriesDepth(acc) <= n && 1 + Depth(e.val) <= n
    requires WellFormedEntries(acc) && MergeEntry(acc, e).Ok?
    ensures WellFormedEntries(MergeEntry(acc, e).value)
    decreases n, 0, 0
  {
    if e.val.Dict? {
      var prior := PriorOf(acc, e.key);
      assert [prior, e.val][1..] == [e.val] && [e.val][1..] == [];
      assert ValuesDepth([e.val]) == Depth(e.val);
      assert ValuesDepth([prior, e.val]) == Max(Depth(prior), Depth(e.val));
      MaxBound(Depth(prior), Depth(e.val), n - 1);
      MergeAllWellFormedBelow([], [prior, e.val], n - 1);
      PutWellFormed(acc, e.key, Dict(MergePair(prior, e.val).value));
    } else {
      PutWellFormed(acc, e.key, e.val);
    }
  }

  /** Merging a well-formed dict's entries into a result that lacks all their keys appends them
      unchanged. */
  lemma {:induction false} MergeIntoCopies(acc: seq<Entry>, es: seq<Entry>)
    requires DistinctKeys(acc + es) && AllWellFormed(es)
    ensures MergeInto(acc, es) == Ok(acc + es)
    decreases EntriesSize(es), 1
  {
    if es != [] {
      var e := es[0];
      DistinctPrefix(acc, es);
      KeySetAppend(acc, es);
      assert HasKey(es, e.key);
      ElementSize(es, 0);
      MergeEntryCopies(acc, e);
      assert (acc + [e]) + es[1..] == acc + es;
      MergeIntoCopies(acc + [e], es[1..]);
      assert MergeInto(acc, es) == MergeInto(acc + [e], es[1..]);
    } else {
      assert acc + es == acc;
    }
  }

  /** A new key with a well-formed value is appended as it is. */
  lemma {:induction false} MergeEntryCopies(acc: seq<Entry>, e: Entry)
    requires !HasKey(acc, e.key) && WellFormed(e.val)
    ensures MergeEntry(acc, e) == Ok(acc + [e])
    decreases Size(e.val), 0
  {
    if e.val.Dict? {
      assert [] + e.val.entries == e.val.entries;
      MergeIntoCopies([], e.val.entries);
      PairFromEmpty(e.val);
    }
  }

  /** `merge_dicts([{}, v])` is `v`'s entries merged into an empty result. */
  lemma PairFromEmpty(v: Value)
    requires v.Dict?
    ensures MergePair(Dict([]), v) == MergeInto([], v.entries)
  {
    assert MergePair(Dict([]), v) == MergeAll([], [Dict([]), v]);
    assert [Dict([]), v][1..] == [v];
    assert MergeInto([], []) == Ok([]);
    assert MergeAll([], [Dict([]), v]) == MergeAll([], [v]);
    MergeAllSingle([], v);
  }

  lemma {:induction false} MergeAllAppend(acc: seq<Entry>, a: seq<Value>, b: seq<Value>)
    ensures MergeAll(acc, a).Err? ==> MergeAll(acc, a + b).Err?
    ensures MergeAll(acc, a).Ok? ==> MergeAll(acc, a + b) == MergeAll(MergeAll(acc, a).value, b)
    decreases |a|
  {
    if a != [] {
      assert (a + b)[1..] == a[1..] + b;
      if a[0].Dict? && MergeInto(acc, a[0].entries).Ok? {
        MergeAllAppend(MergeInto(acc, a[0].entries).value, a[1..], b);
      }
    } else {
      assert a + b == b;
    }
  }

  /** Merging the merge of `pre` with one more dict is merging `pre` and that dict at once. */
  lemma MergeAssociates(pre: seq<Value>, v: Value)
    requires v.Dict? && (pre == [] || DeepMerged(pre).Ok?)
    ensures MergePair(if pre == [] then Dict([]) else Dict(DeepMerged(pre).value), v) == DeepMerged(pre + [v])
  {
    if pre == [] {
      PairFromEmpty(v);
      assert pre + [v] == [v];
      MergeAllSingle([], v);
    } else {
      var x := DeepMerged(pre).value;
      MergeAllWellFormed([], pre);
      assert [] + x == x;
      MergeIntoCopies([], x);
      PairOfDicts(x, v);
      MergeAllAppend([], pre, [v]);
      MergeAllSingle(x, v);
    }
  }

  lemma MergeAllSingle(acc: seq<Entry>, v: Value)
    requires v.Dict?
    ensures MergeAll(acc, [v]) == MergeInto(acc, v.entries)
  {
    assert [v][1..] == [];
  }

  /** `merge_dicts([Dict(x), v])` when merging `x` into {} gives `x` back. */
  lemma PairOfDicts(x: seq<Entry>, v: Value)
    requires v.Dict? && MergeInto([], x) == Ok(x)
    ensures MergePair(Dict(x), v) == MergeInto(x, v.entries)
  {
    assert [Dict(x), v][1..] == [v];
    assert MergeAll([], [Dict(x), v]) == MergeAll(x, [v]);
    MergeAllSingle(x, v);
  }

  // ---------------------------------------------------------------------------
  // The assignments to one key
  // ---------------------------------------------------------------------------

  lemma HasDictTail(vs: seq<Value>)
    requires vs != []
    ensures HasDict(vs) <==> vs[0].Dict? || HasDict(vs[1..])
  {
    if HasDict(vs[1..]) {
      var j :| 0 <= j < |vs[1..]| && vs[1..][j].Dict?;
      assert vs[j + 1].Dict?;
    }
    if HasDict(vs) && !vs[0].Dict? {
      var j :| 0 <= j < |vs| && vs[j].Dict?;
      assert vs[1..][j - 1].Dict?;
    }
  }

  lemma ScalarBeforeDictTail(vs: seq<Value>)
    requires vs != []
    ensures ScalarBeforeDict(vs) <==> (!vs[0].Dict? && HasDict(vs[1..])) || ScalarBeforeDict(vs[1..])
  {
    HasDictTail(vs);
    if ScalarBeforeDict(vs[1..]) {
      var i, j :| 0 <= i < j < |vs[1..]| && !vs[1..][i].Dict? && vs[1..][j].Dict?;
      assert !vs[i + 1].Dict? && vs[j + 1].Dict?;
    }
    if !vs[0].Dict? && HasDict(vs[1..]) {
      var j :| 0 <= j < |vs[1..]| && vs[1..][j].Dict?;
      assert !vs[0].Dict? && vs[j + 1].Dict?;
    }
    if ScalarBeforeDict(vs) && !(!vs[0].Dict? && HasDict(vs[1..])) {
      var i, j :| 0 <= i < j < |vs| && !vs[i].Dict? && vs[j].Dict?;
      if i > 0 {
        assert !vs[1..][i - 1].Dict? && vs[1..][j - 1].Dict?;
      }
    }
  }

  /** `merge_dicts([prior, v])` raises when `prior` is not a dict. */
  lemma PairWithScalar(prior: Value, v: Value)
    requires !prior.Dict?
    ensures MergePair(prior, v) == Err(AttributeError)
  {
    assert DeepMerged([prior, v]) == MergeAll([], [prior, v]);
    assert [prior, v][0] == prior;
  }

  /** A dict assigned where the key holds a value that is not a dict raises, and so does a
      dict assigned after such a value. */
  lemma {:induction false} AssignAllRaises(prior: Option<Value>, vs: seq<Value>)
    requires (prior.Some? && !prior.value.Dict? && HasDict(vs)) || ScalarBeforeDict(vs)
    ensures AssignAll(prior, vs).Err?
    decreases |vs|
  {
    var v := vs[0];
    HasDictTail(vs);
    ScalarBeforeDictTail(vs);
    if v.Dict? && prior.Some? && !prior.value.Dict? {
      PairWithScalar(prior.value, v);
    } else if Assign(prior, v).Ok? {
      var x := Assign(prior, v).value;
      assert v.Dict? ==> x.Dict?;
      AssignAllRaises(Some(x), vs[1..]);
    }
  }

  /** Assigning values none of which is a dict never raises, and leaves the last one. */
  lemma {:induction false} AssignAllScalars(prior: Option<Value>, vs: seq<Value>)
    requires !HasDict(vs)
    ensures AssignAll(prior, vs) == Ok(if vs == [] then prior else Some(Last(vs)))
    ensures Dicts(vs) == []
    decreases |vs|
  {
    if vs != [] {
      HasDictTail(vs);
      AssignAllScalars(Some(vs[0]), vs[1..]);
      if vs[1..] != [] { assert Last(vs[1..]) == Last(vs); }
    }
  }

  /** What the assignments `vs` to a key leave, after the dicts `pre` have been merged into it:
      they succeed exactly when merging `pre` with all the dicts among them does, and the key
      then holds the last value when that is not a dict, and that merge otherwise. */
  ghost predicate MergesAs(pre: seq<Value>, vs: seq<Value>)
    requires pre == [] || DeepMerged(pre).Ok?
  {
    var prior := if pre == [] then None else Some(Dict(DeepMerged(pre).value));
    var all := pre + Dicts(vs);
    (AssignAll(prior, vs).Ok? <==> all == [] || DeepMerged(all).Ok?) &&
    (AssignAll(prior, vs).Ok? ==>
       AssignAll(prior, vs).value ==
         if vs != [] && !Last(vs).Dict? then Some(Last(vs))
         else if all == [] then None
         else Some(Dict(DeepMerged(all).value)))
  }

  /** When no dict follows a value that is not a dict, the assignments to a key merge the
      dicts among them into what the key held, or end with the last value. */
  lemma {:induction false} AssignAllMerges(pre: seq<Value>, vs: seq<Value>)
    requires pre == [] || DeepMerged(pre).Ok?
    requires !ScalarBeforeDict(vs)
    ensures MergesAs(pre, vs)
    decreases |vs|, 2
  {
    if vs == [] {
      assert pre + Dicts(vs) == pre;
    } else if !vs[0].Dict? {
      ScalarHeadMerges(pre, vs);
    } else {
      DictHeadMerges(pre, vs);
    }
  }

  lemma ScalarHeadMerges(pre: seq<Value>, vs: seq<Value>)
    requires pre == [] || DeepMerged(pre).Ok?
    requires vs != [] && !vs[0].Dict? && !ScalarBeforeDict(vs)
    ensures MergesAs(pre, vs)
  {
    ScalarHead(vs);
    assert pre + Dicts(vs) == pre;
  }

  lemma DictHeadMerges(pre: seq<Value>, vs: seq<Value>)
    requires pre == [] || DeepMerged(pre).Ok?
    requires vs != [] && vs[0].Dict? && !ScalarBeforeDict(vs)
    ensures MergesAs(pre, vs)
    decreases |vs|, 1
  {
    if DeepMerged(pre + [vs[0]]).Ok? {
      MergedHeadMerges(pre, vs);
    } else {
      FailedHeadRaises(pre, vs);
    }
  }

  /** The dict at the head merges into what the key held, and the rest continues from that
      merge. */
  lemma {:induction false} MergedHeadMerges(pre: seq<Value>, vs: seq<Value>)
    requires pre == [] || DeepMerged(pre).Ok?
    requires vs != [] && vs[0].Dict? && !ScalarBeforeDict(vs)
    requires DeepMerged(pre + [vs[0]]).Ok?
    ensures MergesAs(pre, vs)
    decreases |vs|, 0
  {
    DictHead(pre, vs);
    AppendAssoc(pre, [vs[0]], Dicts(vs[1..]));
    assert pre + Dicts(vs) == (pre + [vs[0]]) + Dicts(vs[1..]);
    AssignAllMerges(pre + [vs[0]], vs[1..]);
    if vs[1..] != [] { assert Last(vs[1..]) == Last(vs); }
  }

  /** The dict at the head does not merge into what the key held: the assignments raise, and
      so does merging all the dicts. */
  lemma FailedHeadRaises(pre: seq<Value>, vs: seq<Value>)
    requires pre == [] || DeepMerged(pre).Ok?
    requires vs != [] && vs[0].Dict? && !ScalarBeforeDict(vs)
    requires DeepMerged(pre + [vs[0]]).Err?
    ensures MergesAs(pre, vs)
  {
    DictHead(pre, vs);
    AppendAssoc(pre, [vs[0]], Dicts(vs[1..]));
    MergeAllAppend([], pre + [vs[0]], Dicts(vs[1..]));
  }

  /** After a value that is not a dict, with no dict following, the key ends with the last
      value whatever it held. */
  lemma ScalarHead(vs: seq<Value>)
    requires vs != [] && !vs[0].Dict? && !ScalarBeforeDict(vs)
    ensures forall prior :: AssignAll(prior, vs) == Ok(Some(Last(vs)))
    ensures Dicts(vs) == []
  {
    ScalarBeforeDictTail(vs);
    AssignAllScalars(Some(vs[0]), vs[1..]);
    if vs[1..] != [] { assert Last(vs[1..]) == Last(vs); }
  }

  /** Assigning a dict to a key holding the merge of `pre` merges `pre` and that dict. */
  lemma DictHead(pre: seq<Value>, vs: seq<Value>)
    requires pre == [] || DeepMerged(pre).Ok?
    requires vs != [] && vs[0].Dict? && !ScalarBeforeDict(vs)
    ensures var prior := if pre == [] then None else Some(Dict(DeepMerged(pre).value));
            AssignAll(prior, vs) ==
              (var m :- DeepMerged(pre + [vs[0]]); AssignAll(Some(Dict(m)), vs[1..]))
    ensures !ScalarBeforeDict(vs[1..])
    ensures Dicts(vs) == [vs[0]] + Dicts(vs[1..])
  {
    ScalarBeforeDictTail(vs);
    MergeAssociates(pre, vs[0]);
  }

  /** The assignments to one key, starting from nothing, succeed exactly when no dict follows
      a value that is not a dict and the dicts among them merge. */
  lemma KeyAssignments(vs: seq<Value>)
    ensures AssignAll(None, vs).Ok? <==>
              !ScalarBeforeDict(vs) && (Dicts(vs) == [] || DeepMerged(Dicts(vs)).Ok?)
    ensures vs == [] ==> AssignAll(None, vs) == Ok(None)
    ensures AssignAll(None, vs).Ok? && vs != [] && !Last(vs).Dict? ==>
              AssignAll(None, vs).value == Some(Last(vs))
    ensures AssignAll(None, vs).Ok? && vs != [] && Last(vs).Dict? ==>
              DeepMerged(Dicts(vs)).Ok? && AssignAll(None, vs).value == Some(Dict(DeepMerged(Dicts(vs)).value))
  {
    if ScalarBeforeDict(vs) {
      AssignAllRaises(None, vs);
    } else {
      AssignAllMerges([], vs);
      assert [] + Dicts(vs) == Dicts(vs);
      if vs != [] && Last(vs).Dict? {
        DictsKeepsDict(vs, |vs| - 1);
      }
    }
  }

  lemma {:induction false} DictsKeepsDict(vs: seq<Value>, i: nat)
    requires i < |vs| && vs[i].Dict?
    ensures Dicts(vs) != []
  {
    if !vs[0].Dict? {
      DictsKeepsDict(vs[1..], i - 1);
    }
  }

  // ---------------------------------------------------------------------------
  // The merge without its loops
  // ---------------------------------------------------------------------------

  /** Merging dicts succeeds exactly when no key, at any depth, holds a value that is not a
      dict in one input and a dict in a later one. */
  lemma {:induction false} MergeSucceedsIffNoConflict(ds: seq<Value>)
    requires forall i :: 0 <= i < |ds| ==> ds[i].Dict?
    ensures DeepMerged(ds).Ok? <==> !Conflict(ds)
    decreases ValuesDepth(ds), |ds|
  {
    DeepMergedByKey(ds);
    if ds != [] {
      forall k
        ensures AssignAll(None, InputValuesAt(ds, k)).Ok? <==>
                  !(ScalarBeforeDict(InputValuesAt(ds, k)) || Conflict(Dicts(InputValuesAt(ds, k))))
      {
        var vs := InputValuesAt(ds, k);
        KeyAssignments(vs);
        if Dicts(vs) != [] {
          MergeSucceedsIffNoConflict(Dicts(vs));
        }
      }
    }
  }

  /** What the merged dict holds at each key: nothing when no input has the key, the last value
      when that is not a dict, and otherwise the merge of the dicts at that key, in order. */
  lemma MergedValueAt(ds: seq<Value>, k: string)
    requires DeepMerged(ds).Ok?
    ensures InputValuesAt(ds, k) == [] ==> !HasKey(DeepMerged(ds).value, k)
    ensures var vs := InputValuesAt(ds, k);
            vs != [] && !Last(vs).Dict? ==>
              HasKey(DeepMerged(ds).value, k) && Get(DeepMerged(ds).value, k) == Last(vs)
    ensures var vs := InputValuesAt(ds, k);
            vs != [] && Last(vs).Dict? ==>
              DeepMerged(Dicts(vs)).Ok? && HasKey(DeepMerged(ds).value, k) &&
              Get(DeepMerged(ds).value, k) == Dict(DeepMerged(Dicts(vs)).value)
  {
    DeepMergedByKey(ds);
    KeyAssignments(InputValuesAt(ds, k));
  }

  /** The document an insert query stores is built exactly when the setters, each expanded
      into a dict of its own, do not conflict: no expanded setter holds a value that is not a
      dict at a path where a later one, in the order of the merged setters, holds a dict. */
  lemma InsertSucceedsIffNoConflict(setters: seq<Q.Setter>)
    ensures var m := SetterMap(setters);
            var ds := seq(|m|, i requires 0 <= i < |m| => Dict(ExpandKey([], m[i].key, m[i].val)));
            InsertDocument(setters).Ok? <==> !Conflict(ds)
  {
    var m := SetterMap(setters);
    var ds := seq(|m|, i requires 0 <= i < |m| => Dict(ExpandKey([], m[i].key, m[i].val)));
    InsertDocumentOf(setters, m, ds);
    MergeSucceedsIffNoConflict(ds);
  }
}
