/** The helpers of lang/ql.py that shape documents: merging setters into a dict, flattening a
    nested dict into dotted keys, expanding a dotted key into nested dicts, deep-merging dicts,
    and projecting the requested fields of a document. Each loop of the source is a method
    proved equal to a specification function; the properties are lemmas about the functions. */
module Documents {
  import opened Values
  import opened PyOps
  import Q = Query

  // ---------------------------------------------------------------------------
  // merge_setters
  // ---------------------------------------------------------------------------

  /** The `(property, value)` pairs of the setters, in order. */
  function SetterItems(setters: seq<Q.Setter>): (items: seq<Entry>)
    ensures |items| == |setters|
    ensures forall i :: 0 <= i < |setters| ==> items[i] == Entry(setters[i].property, setters[i].value)
  {
    seq(|setters|, i requires 0 <= i < |setters| => Entry(setters[i].property, setters[i].value))
  }

  /** The dict `merge_setters` builds. */
  function SetterMap(setters: seq<Q.Setter>): (m: seq<Entry>)
    ensures DistinctKeys(m)
    ensures KeySet(m) == set i | 0 <= i < |setters| :: setters[i].property
  {
    SetterItemsKeys(setters);
    FromItems(SetterItems(setters))
  }

  lemma {:induction false} SetterItemsKeys(setters: seq<Q.Setter>)
    ensures KeySet(SetterItems(setters)) == set i | 0 <= i < |setters| :: setters[i].property
  {
    var items := SetterItems(setters);
    forall k ensures k in KeySet(items) <==> k in set i | 0 <= i < |setters| :: setters[i].property {
      KeySetIndex(items, k);
    }
  }

  /** One more setter adds its pair at the end. */
  lemma SetterItemsSnoc(setters: seq<Q.Setter>, i: nat)
    requires i < |setters|
    ensures SetterItems(setters[..i + 1]) == SetterItems(setters[..i]) + [Entry(setters[i].property, setters[i].value)]
  {
  }

  method MergeSetters(setters: seq<Q.Setter>) returns (result: seq<Entry>)
    ensures result == SetterMap(setters)
  {
    result := [];
    for i := 0 to |setters|
      invariant result == FromItems(SetterItems(setters[..i]))
    {
      SetterItemsSnoc(setters, i);
      result := Put(result, setters[i].property, setters[i].value);
    }
    assert setters[..|setters|] == setters;
  }

  /** `dict(items)` holds exactly the keys of the items, and each key's value is the value of
      its last item. */
  lemma {:induction false} FromItemsLastWins(items: seq<Entry>, i: nat)
    requires i < |items|
    requires forall j :: i < j < |items| ==> items[j].key != items[i].key
    ensures HasKey(FromItems(items), items[i].key) && Get(FromItems(items), items[i].key) == items[i].val
  {
    var prefix := items[..|items| - 1];
    var last := items[|items| - 1];
    if i < |items| - 1 {
      assert forall j :: i < j < |prefix| ==> prefix[j] == items[j];
      FromItemsLastWins(prefix, i);
    }
  }

  /** An item that no later item overrides decides its key's value. */
  lemma FromItemsMiddle(before: seq<Entry>, e: Entry, after: seq<Entry>)
    requires e.key !in KeySet(after)
    ensures HasKey(FromItems(before + [e] + after), e.key) && Get(FromItems(before + [e] + after), e.key) == e.val
  {
    var items := before + [e] + after;
    KeySetIndex(after, e.key);
    assert items[|before|] == e;
    forall j | |before| < j < |items| ensures items[j].key != e.key {
      assert items[j] == after[j - |before| - 1];
    }
    FromItemsLastWins(items, |before|);
  }

  /** The same for the items of a whole dict that no later item overrides. */
  lemma FromItemsMiddleDict(before: seq<Entry>, d: seq<Entry>, after: seq<Entry>, k: string)
    requires DistinctKeys(d) && HasKey(d, k) && k !in KeySet(after)
    ensures HasKey(FromItems(before + d + after), k) && Get(FromItems(before + d + after), k) == Get(d, k)
  {
    var t := GetIndex(d, k);
    assert before + d + after == (before + d[..t]) + [d[t]] + (d[t + 1..] + after);
    KeySetAppend(d[t + 1..], after);
    FromItemsMiddle(before + d[..t], d[t], d[t + 1..] + after);
  }

  /** Where `d[k]` sits in a dict: the only entry with that key. */
  lemma {:induction false} GetIndex(d: seq<Entry>, k: string) returns (t: nat)
    requires DistinctKeys(d) && HasKey(d, k)
    ensures t < |d| && d[t] == Entry(k, Get(d, k)) && k !in KeySet(d[t + 1..])
  {
    if d[0].key == k {
      t := 0;
      assert d[0] == Entry(d[0].key, d[0].val);
    } else {
      var u := GetIndex(d[1..], k);
      t := u + 1;
      assert d[t + 1..] == d[1..][u + 1..];
    }
  }

  /** merge_setters gives one key per distinct setter property, and a repeated property takes
      the value of its last setter. */
  lemma SetterMapLastWins(setters: seq<Q.Setter>, i: nat)
    requires i < |setters|
    requires forall j :: i < j < |setters| ==> setters[j].property != setters[i].property
    ensures HasKey(SetterMap(setters), setters[i].property)
    ensures Get(SetterMap(setters), setters[i].property) == setters[i].value
  {
    FromItemsLastWins(SetterItems(setters), i);
  }

  lemma SetterMapKeys(setters: seq<Q.Setter>)
    ensures DistinctKeys(SetterMap(setters))
    ensures forall k :: HasKey(SetterMap(setters), k) <==> exists i :: 0 <= i < |setters| && setters[i].property == k
  {
    var items := SetterItems(setters);
    forall k
      ensures HasKey(SetterMap(setters), k) <==> exists i :: 0 <= i < |setters| && setters[i].property == k
    {
      KeySetIndex(items, k);
    }
  }

  // ---------------------------------------------------------------------------
  // flatten
  // ---------------------------------------------------------------------------

  /** `parent_key + separator + key if parent_key else key` */
  function JoinKey(parent: string, key: string): string {
    if parent == "" then key else parent + "." + key
  }

  /** The items one entry contributes: a dict value is flattened under the joined key, any
      other value (lists included) is kept under it. */
  function EntryItems(e: Entry, parent: string): seq<Entry>
    decreases Size(e.val), 0
  {
    if e.val.Dict? then Flattened(e.val.entries, JoinKey(parent, e.key))
    else [Entry(JoinKey(parent, e.key), e.val)]
  }

  /** The `items` list `flatten` builds. */
  function FlatItems(d: seq<Entry>, parent: string): seq<Entry>
    decreases EntriesSize(d), 1
  {
    if d == [] then [] else EntryItems(d[0], parent) + FlatItems(d[1..], parent)
  }

  /** `flatten(d, parent)` */
  function Flattened(d: seq<Entry>, parent: string): (r: seq<Entry>)
    ensures DistinctKeys(r)
    decreases EntriesSize(d), 2
  {
    FromItems(FlatItems(d, parent))
  }

  lemma {:induction false} FlatItemsAppend(a: seq<Entry>, b: seq<Entry>, parent: string)
    ensures FlatItems(a + b, parent) == FlatItems(a, parent) + FlatItems(b, parent)
    decreases |a|
  {
    if a != [] {
      assert (a + b)[1..] == a[1..] + b;
      FlatItemsAppend(a[1..], b, parent);
    } else {
      assert a + b == b;
    }
  }

  method Flatten(d: seq<Entry>, parent: string) returns (r: seq<Entry>)
    ensures r == Flattened(d, parent)
    decreases EntriesSize(d)
  {
    var items := [];
    for i := 0 to |d|
      invariant items == FlatItems(d[..i], parent)
    {
      var e := d[i];
      var newKey := JoinKey(parent, e.key);
      assert d[..i + 1] == d[..i] + [e];
      FlatItemsAppend(d[..i], [e], parent);
      if e.val.Dict? {
        ElementSize(d, i);
        var sub := Flatten(e.val.entries, newKey);
        items := items + sub;
      } else {
        items := items + [Entry(newKey, e.val)];
      }
    }
    assert d[..|d|] == d;
    r := FromItems(items);
  }

  /** Flattening never leaves a dict value. */
  lemma {:induction false} FlattenedNoDicts(d: seq<Entry>, parent: string)
    ensures NoDicts(FlatItems(d, parent)) && NoDicts(Flattened(d, parent))
    decreases EntriesSize(d)
  {
    if d != [] {
      if d[0].val.Dict? {
        assert EntriesSize(d) == Size(d[0].val) + EntriesSize(d[1..]);
        FlattenedNoDicts(d[0].val.entries, JoinKey(parent, d[0].key));
      }
      FlattenedNoDicts(d[1..], parent);
      NoDictsAppend(EntryItems(d[0], parent), FlatItems(d[1..], parent));
    }
    NoDictsFromItems(FlatItems(d, parent));
  }

  /** Without a parent, the items of a dict with no dict values are its entries. */
  lemma {:induction false} FlatItemsOfFlat(d: seq<Entry>)
    requires NoDicts(d)
    ensures FlatItems(d, "") == d
  {
    if d != [] {
      FlatItemsOfFlat(d[1..]);
    }
  }

  /** An already flat dict is returned unchanged. */
  lemma FlattenFlat(d: seq<Entry>)
    requires DistinctKeys(d) && NoDicts(d)
    ensures Flattened(d, "") == d
  {
    FlatItemsOfFlat(d);
    FromItemsOfDict(d);
  }

  /** Flattening is idempotent. */
  lemma FlattenIdempotent(d: seq<Entry>)
    ensures Flattened(Flattened(d, ""), "") == Flattened(d, "")
  {
    FlattenedNoDicts(d, "");
    FlattenFlat(Flattened(d, ""));
  }

  /** A nested empty dict contributes no key. */
  lemma EmptyNestedDictVanishes(a: seq<Entry>, k: string, b: seq<Entry>, parent: string)
    ensures Flattened(a + [Entry(k, Dict([]))] + b, parent) == Flattened(a + b, parent)
  {
    FlatItemsAppend(a + [Entry(k, Dict([]))], b, parent);
    FlatItemsAppend(a, [Entry(k, Dict([]))], parent);
    FlatItemsAppend(a, b, parent);
    assert EntryItems(Entry(k, Dict([])), parent) == FromItems([]) == [];
    assert FlatItems([Entry(k, Dict([]))], parent) == [] + FlatItems([], parent);
    assert FlatItems(a + [Entry(k, Dict([]))] + b, parent) == FlatItems(a + b, parent);
  }

  /** A nested dict becomes `parent.child` keys: flattening it under `k` is flattening its
      contents with `k` as the parent. */
  lemma NestedDictJoinsKeys(k: string, inner: seq<Entry>, parent: string)
    ensures Flattened([Entry(k, Dict(inner))], parent) == Flattened(inner, JoinKey(parent, k))
  {
    assert FlatItems([Entry(k, Dict(inner))], parent) == Flattened(inner, JoinKey(parent, k));
    FromItemsOfDict(Flattened(inner, JoinKey(parent, k)));
  }

  /** A value that is not a dict, a list say, is kept as it is under its joined key, unless a
      later entry flattens to the same key. */
  lemma NonDictKept(d: seq<Entry>, i: nat, parent: string)
    requires i < |d| && !d[i].val.Dict?
    requires forall j :: i < j < |d| ==> JoinKey(parent, d[i].key) !in KeySet(EntryItems(d[j], parent))
    ensures HasKey(Flattened(d, parent), JoinKey(parent, d[i].key))
    ensures Get(Flattened(d, parent), JoinKey(parent, d[i].key)) == d[i].val
  {
    var key := JoinKey(parent, d[i].key);
    var before := FlatItems(d[..i], parent);
    var after := FlatItems(d[i + 1..], parent);
    FlatItemsAround(d, i, parent);
    var rest := d[i + 1..];
    forall j | 0 <= j < |rest| ensures key !in KeySet(EntryItems(rest[j], parent)) {
      assert rest[j] == d[i + 1 + j];
    }
    AfterKeys(rest, parent, key);
    KeySetIndex(after, key);
    var items := before + [Entry(key, d[i].val)] + after;
    forall j | |before| < j < |items|
      ensures items[j].key != key
    {
      assert items[j] == after[j - |before| - 1];
    }
    FromItemsLastWins(items, |before|);
  }

  /** The items of a dict around one entry whose value is not a dict. */
  lemma FlatItemsAround(d: seq<Entry>, i: nat, parent: string)
    requires i < |d| && !d[i].val.Dict?
    ensures FlatItems(d, parent) ==
            FlatItems(d[..i], parent) + [Entry(JoinKey(parent, d[i].key), d[i].val)] + FlatItems(d[i + 1..], parent)
  {
    assert d == d[..i] + ([d[i]] + d[i + 1..]);
    FlatItemsAppend(d[..i], [d[i]] + d[i + 1..], parent);
    assert ([d[i]] + d[i + 1..])[1..] == d[i + 1..];
    assert FlatItems([d[i]] + d[i + 1..], parent) == [Entry(JoinKey(parent, d[i].key), d[i].val)] + FlatItems(d[i + 1..], parent);
  }

  /** The items of a dict around any one of its entries. */
  lemma FlatItemsSplit(d: seq<Entry>, i: nat, parent: string)
    requires i < |d|
    ensures FlatItems(d, parent) == FlatItems(d[..i], parent) + EntryItems(d[i], parent) + FlatItems(d[i + 1..], parent)
  {
    assert d == d[..i] + ([d[i]] + d[i + 1..]);
    FlatItemsAppend(d[..i], [d[i]] + d[i + 1..], parent);
    assert ([d[i]] + d[i + 1..])[1..] == d[i + 1..];
  }

  lemma {:induction false} AfterKeys(d: seq<Entry>, parent: string, key: string)
    requires forall j :: 0 <= j < |d| ==> key !in KeySet(EntryItems(d[j], parent))
    ensures key !in KeySet(FlatItems(d, parent))
  {
    if d != [] {
      AfterKeys(d[1..], parent, key);
      KeySetAppend(EntryItems(d[0], parent), FlatItems(d[1..], parent));
    }
  }

  // ---------------------------------------------------------------------------
  // expand_key
  // ---------------------------------------------------------------------------

  /** `expand_key(d, key, v)`: an undotted key is assigned; a dotted key whose head is absent
      adds the head bound to a fresh dict into which the rest of the key is expanded; a dotted
      key whose head is present leaves the dict as it is. */
  function ExpandKey(d: seq<Entry>, key: string, v: Value): (r: seq<Entry>)
    ensures !HasDot(key) ==> KeySet(r) == KeySet(d) + {key} && HasKey(r, key) && Get(r, key) == v
    ensures !HasDot(key) ==> forall k :: k != key && HasKey(d, k) ==> Get(r, k) == Get(d, k)
    ensures !HasDot(key) && HasKey(d, key) ==> Keys(r) == Keys(d)
    ensures !HasDot(key) && !HasKey(d, key) ==> r == d + [Entry(key, v)]
    ensures HasDot(key) && HasKey(d, SplitFirst(key).0) ==> r == d
    ensures HasDot(key) && !HasKey(d, SplitFirst(key).0) ==>
              r == d + [Entry(SplitFirst(key).0, Dict(ExpandKey([], SplitFirst(key).1, v)))]
    decreases |key|
  {
    if HasDot(key) then
      var (head, rest) := SplitFirst(key);
      if HasKey(d, head) then d else Put(d, head, Dict(ExpandKey([], rest, v)))
    else Put(d, key, v)
  }

  /** Expanding a key into an empty dict and flattening the result gives back the key bound to
      the value, for a value that is not a dict and a key that does not start with a dot. */
  lemma {:induction false} FlattenExpandKey(key: string, v: Value, parent: string)
    requires !v.Dict?
    requires parent != "" || key == [] || key[0] != '.'
    ensures Flattened(ExpandKey([], key, v), parent) == [Entry(JoinKey(parent, key), v)]
    decreases |key|
  {
    if HasDot(key) {
      var (head, rest) := SplitFirst(key);
      var hp := JoinKey(parent, head);
      assert head == [] ==> key[0] == '.' by {
        if head == [] { assert key == "." + rest; }
      }
      FlattenExpandKey(rest, v, hp);
      NestedDictJoinsKeys(head, ExpandKey([], rest, v), parent);
      DottedJoin(parent, head, rest);
    } else {
      FlattenSingle(key, v, parent);
    }
  }

  lemma DottedJoin(parent: string, head: string, rest: string)
    requires parent != "" || head != ""
    ensures JoinKey(JoinKey(parent, head), rest) == JoinKey(parent, head + "." + rest)
  {
    if parent != "" {
      assert parent + "." + head + "." + rest == parent + "." + (head + "." + rest);
    }
  }

  lemma FlattenSingle(k: string, v: Value, parent: string)
    requires !v.Dict?
    ensures Flattened([Entry(k, v)], parent) == [Entry(JoinKey(parent, k), v)]
  {
    assert FlatItems([Entry(k, v)], parent) == [Entry(JoinKey(parent, k), v)] + FlatItems([], parent);
    assert FromItems([Entry(JoinKey(parent, k), v)]) == Put([], JoinKey(parent, k), v);
  }

  /** A key that starts with a dot does not come back from the round trip: expanding it nests
      the rest under an empty head, and flattening joins the empty head to nothing, so the key
      comes back without its leading dot. */
  lemma LeadingDotLost(key: string, v: Value)
    requires !v.Dict?
    requires key == [] || key[0] != '.'
    ensures Flattened(ExpandKey([], "." + key, v), "") == [Entry(key, v)]
    ensures "." + key != key
  {
    var dotted := "." + key;
    assert dotted == "" + "." + key;
    assert HasDot(dotted) by { assert dotted[0] == '.'; }
    DotIndexFirst(dotted);
    assert SplitFirst(dotted) == ("", key);
    FlattenExpandKey(key, v, "");
    NestedDictJoinsKeys("", ExpandKey([], key, v), "");
    assert |"." + key| == |key| + 1;
  }

  lemma DotIndexFirst(key: string)
    requires key != [] && key[0] == '.'
    ensures HasDot(key) && DotIndex(key) == 0
  {
  }

  // ---------------------------------------------------------------------------
  // merge_dicts
  // ---------------------------------------------------------------------------

  /** The keys of all the dicts among `ds`. */
  function AllKeys(ds: seq<Value>): set<string> {
    if ds == [] then {} else (if ds[0].Dict? then KeySet(ds[0].entries) else {}) + AllKeys(ds[1..])
  }

  function ValuesDepth(ds: seq<Value>): nat {
    if ds == [] then 0 else Max(Depth(ds[0]), ValuesDepth(ds[1..]))
  }

  /** `merge_dicts(ds)`: every entry of every input in turn goes into a result that starts
      empty. Iterating over an input that is not a dict raises AttributeError. */
  function DeepMerged(ds: seq<Value>): (r: Result<seq<Entry>>)
    ensures r.Ok? ==> 1 + EntriesDepth(r.value) <= Max(1, ValuesDepth(ds))
    ensures r.Ok? ==> KeySet(r.value) == AllKeys(ds)
    decreases Max(1, ValuesDepth(ds)), 3, 0
  {
    MergeAll([], ds)
  }

  /** The outer loop: the inputs `ds` merged into `acc`. */
  function MergeAll(acc: seq<Entry>, ds: seq<Value>): (r: Result<seq<Entry>>)
    ensures r.Ok? ==> 1 + EntriesDepth(r.value) <= Max(1 + EntriesDepth(acc), ValuesDepth(ds))
    ensures r.Ok? ==> KeySet(r.value) == KeySet(acc) + AllKeys(ds)
    decreases Max(1 + EntriesDepth(acc), ValuesDepth(ds)), 2, |ds|
  {
    if ds == [] then Ok(acc)
    else if !ds[0].Dict? then Err(AttributeError)
    else
      var acc' :- MergeInto(acc, ds[0].entries);
      MergeAll(acc', ds[1..])
  }

  /** The inner loop: the entries `es` of one input merged into `acc`. */
  function MergeInto(acc: seq<Entry>, es: seq<Entry>): (r: Result<seq<Entry>>)
    ensures r.Ok? ==> EntriesDepth(r.value) <= Max(EntriesDepth(acc), EntriesDepth(es))
    ensures r.Ok? ==> KeySet(r.value) == KeySet(acc) + KeySet(es)
    decreases Max(1 + EntriesDepth(acc), 1 + EntriesDepth(es)), 1, |es|
  {
    if es == [] then Ok(acc)
    else
      var acc' :- MergeEntry(acc, es[0]);
      var n := Max(EntriesDepth(acc), EntriesDepth(es));
      MaxSucc(EntriesDepth(acc), EntriesDepth(es));
      MaxSucc(EntriesDepth(acc'), EntriesDepth(es[1..]));
      MaxBound(EntriesDepth(acc), EntriesDepth(es), n);
      MaxBound(Depth(es[0].val), EntriesDepth(es[1..]), n);
      MaxBound(EntriesDepth(acc), Depth(es[0].val), n);
      MaxBound(EntriesDepth(acc'), EntriesDepth(es[1..]), n);
      MergeInto(acc', es[1..])
  }

  /** `result[key]` as the inner loop reads it: an empty dict when the key is new. */
  function PriorOf(acc: seq<Entry>, k: string): (p: Value)
    ensures Depth(p) <= Max(1, EntriesDepth(acc))
  {
    if HasKey(acc, k) then GetDepth(acc, k); Get(acc, k) else Dict([])
  }

  /** `merge_dicts([prior, value])`, the recursive call of the inner loop. */
  function MergePair(prior: Value, v: Value): Result<seq<Entry>>
    decreases Max(1, Max(Depth(prior), Depth(v))), 4, 0
  {
    PairDepth(prior, v);
    DeepMerged([prior, v])
  }

  /** One assignment of the inner loop: a dict value is merged with whatever the result holds
      at its key (an empty dict when the key is new); any other value replaces it. */
  function MergeEntry(acc: seq<Entry>, e: Entry): (r: Result<seq<Entry>>)
    ensures r.Ok? ==> EntriesDepth(r.value) <= Max(EntriesDepth(acc), Depth(e.val))
    ensures r.Ok? ==> KeySet(r.value) == KeySet(acc) + {e.key}
    ensures r.Ok? ==> forall k :: k != e.key && HasKey(acc, k) ==> Get(r.value, k) == Get(acc, k)
    ensures r.Ok? && !e.val.Dict? ==> Get(r.value, e.key) == e.val
    ensures e.val.Dict? && HasKey(acc, e.key) && !Get(acc, e.key).Dict? ==> r == Err(AttributeError)
    ensures !e.val.Dict? ==> r.Ok?
    ensures e.val.Dict? ==>
              (r.Ok? <==> MergePair(PriorOf(acc, e.key), e.val).Ok?) &&
              (r.Ok? ==> Get(r.value, e.key) == Dict(MergePair(PriorOf(acc, e.key), e.val).value))
    decreases Max(1 + EntriesDepth(acc), 1 + Depth(e.val)), 0, 0
  {
    if e.val.Dict? then
      var prior := if HasKey(acc, e.key) then Get(acc, e.key) else Dict([]);
      assert HasKey(acc, e.key) ==> Depth(prior) <= EntriesDepth(acc) by {
        if HasKey(acc, e.key) { GetDepth(acc, e.key); }
      }
      var n := Max(EntriesDepth(acc), Depth(e.val));
      MaxSucc(EntriesDepth(acc), Depth(e.val));
      MaxBound(EntriesDepth(acc), Depth(e.val), n);
      PairDepth(prior, e.val);
      MaxBound(Depth(prior), Depth(e.val), n);
      MaxBound(1, ValuesDepth([prior, e.val]), n);
      assert !prior.Dict? ==> DeepMerged([prior, e.val]) == Err(AttributeError);
      var merged :- DeepMerged([prior, e.val]);
      PutDepth(acc, e.key, Dict(merged));
      MaxBound(EntriesDepth(acc), Depth(Dict(merged)), n);
      Ok(Put(acc, e.key, Dict(merged)))
    else
      PutDepth(acc, e.key, e.val);
      Ok(Put(acc, e.key, e.val))
  }

  lemma {:induction false} EntryDepthBound(es: seq<Entry>, j: nat)
    requires j < |es|
    ensures Depth(es[j].val) <= EntriesDepth(es)
  {
    if j > 0 { EntryDepthBound(es[1..], j - 1); }
  }

  lemma {:induction false} ValueDepthBound(ds: seq<Value>, i: nat)
    requires i < |ds|
    ensures Depth(ds[i]) <= ValuesDepth(ds)
  {
    if i > 0 { ValueDepthBound(ds[1..], i - 1); }
  }

  lemma PairDepth(a: Value, b: Value)
    ensures ValuesDepth([a, b]) == Max(Depth(a), Depth(b))
  {
    assert [a, b][1..] == [b] && [b][1..] == [];
    assert ValuesDepth([b]) == Max(Depth(b), ValuesDepth([]));
  }

  method MergeDicts(ds: seq<Value>) returns (r: Result<seq<Entry>>)
    ensures r == DeepMerged(ds)
    decreases Max(1, ValuesDepth(ds))
  {
    var result: seq<Entry> := [];
    for i := 0 to |ds|
      invariant MergeAll([], ds) == MergeAll(result, ds[i..])
      invariant 1 + EntriesDepth(result) <= Max(1, ValuesDepth(ds))
    {
      assert ds[i..][1..] == ds[i + 1..];
      if !ds[i].Dict? {
        // `sub_dict.items()` on a value that is not a dict
        return Err(AttributeError);
      }
      var es := ds[i].entries;
      ValueDepthBound(ds, i);
      ghost var start := result;
      for j := 0 to |es|
        invariant MergeInto(start, es) == MergeInto(result, es[j..])
        invariant 1 + EntriesDepth(result) <= Max(1, ValuesDepth(ds))
      {
        var e := es[j];
        assert es[j..][1..] == es[j + 1..];
        EntryDepthBound(es, j);
        ghost var n := Max(1, ValuesDepth(ds)) - 1;
        if e.val.Dict? {
          var prior := if HasKey(result, e.key) then Get(result, e.key) else Dict([]);
          if HasKey(result, e.key) { GetDepth(result, e.key); }
          PairDepth(prior, e.val);
          MaxBound(Depth(prior), Depth(e.val), n);
          MaxBound(1, ValuesDepth([prior, e.val]), n);
          var merged := MergeDicts([prior, e.val]);
          if merged.Err? {
            return Err(merged.error);
          }
          PutDepth(result, e.key, Dict(merged.value));
          MaxBound(EntriesDepth(result), Depth(Dict(merged.value)), n);
          result := Put(result, e.key, Dict(merged.value));
        } else {
          PutDepth(result, e.key, e.val);
          MaxBound(EntriesDepth(result), Depth(e.val), n);
          result := Put(result, e.key, e.val);
        }
      }
    }
    return Ok(result);
  }

  /** Merging dicts that hold no dict values is `dict(items)` of all their entries in order: a
      later value replaces an earlier one at the same key. */
  lemma {:induction false} MergeFlatDicts(ds: seq<Value>)
    requires forall i :: 0 <= i < |ds| ==> ds[i].Dict? && NoDicts(ds[i].entries)
    ensures DeepMerged(ds) == Ok(FromItems(AllEntries(ds)))
  {
    MergeAllFlat([], ds);
    FromItemsIsUpdate(AllEntries(ds));
  }

  /** The entries of all the dicts among `ds`, in order. */
  function AllEntries(ds: seq<Value>): seq<Entry> {
    if ds == [] then [] else (if ds[0].Dict? then ds[0].entries else []) + AllEntries(ds[1..])
  }

  lemma {:induction false} MergeIntoFlat(acc: seq<Entry>, es: seq<Entry>)
    requires NoDicts(es)
    ensures MergeInto(acc, es) == Ok(Update(acc, es))
    decreases |es|
  {
    if es != [] {
      MergeIntoFlat(Put(acc, es[0].key, es[0].val), es[1..]);
    }
  }

  lemma {:induction false} MergeAllFlat(acc: seq<Entry>, ds: seq<Value>)
    requires forall i :: 0 <= i < |ds| ==> ds[i].Dict? && NoDicts(ds[i].entries)
    ensures MergeAll(acc, ds) == Ok(Update(acc, AllEntries(ds)))
    decreases |ds|
  {
    if ds != [] {
      MergeIntoFlat(acc, ds[0].entries);
      MergeAllFlat(Update(acc, ds[0].entries), ds[1..]);
      UpdateAppend(acc, ds[0].entries, AllEntries(ds[1..]));
    }
  }

  /** A dict following a scalar at the same key raises: the scalar has no `items()`. */
  lemma MergeScalarThenDict(k: string, scalar: Value, inner: seq<Entry>)
    requires !scalar.Dict?
    ensures DeepMerged([Dict([Entry(k, scalar)]), Dict([Entry(k, Dict(inner))])]) == Err(AttributeError)
  {
    var acc := Put([], k, scalar);
    assert MergeInto([], [Entry(k, scalar)]) == Ok(acc);
    assert MergeEntry(acc, Entry(k, Dict(inner))) == Err(AttributeError);
    assert MergeInto(acc, [Entry(k, Dict(inner))]) == Err(AttributeError);
    assert MergeAll(acc, [Dict([Entry(k, Dict(inner))])]) == Err(AttributeError);
  }

  // ---------------------------------------------------------------------------
  // extract_fields and the projection of a snapshot
  // ---------------------------------------------------------------------------

  /** `obj[k]` once `k in obj` has held: a dict gives the value at the key; indexing a string
      or a list with a string raises TypeError. */
  function Index(obj: Value, k: string): (r: Result<Value>)
    ensures obj.Dict? && HasKey(obj.entries, k) ==> r == Ok(Get(obj.entries, k))
    ensures !obj.Dict? ==> r == Err(TypeError)
  {
    match obj
    case Dict(es) => if HasKey(es, k) then Ok(Get(es, k)) else Err(KeyError)
    case _ => Err(TypeError)
  }

  /** The one entry `extract_fields(obj, [field])` produces. An undotted field is looked up;
      a dotted field whose head is present is extracted from the value at the head, so the
      entry ends up named after the last segment of the field; a field, or the head of a dotted
      field, that is absent gives None under the field as written. */
  function FieldEntry(obj: Value, field: string): (r: Result<Entry>)
    ensures obj.Int? || obj.Bool? || obj.Null? ==> r == Err(TypeError)
    ensures obj.Dict? && !HasDot(field) ==>
              r == Ok(Entry(field, if HasKey(obj.entries, field) then Get(obj.entries, field) else Null))
    ensures r.Ok? && HasDot(r.value.key) ==> r.value.val == Null
    decreases |field|
  {
    if !HasDot(field) then
      var present :- PyIn(Str(field), obj);
      if !present then Ok(Entry(field, Null))
      else
        var v :- Index(obj, field);
        Ok(Entry(field, v))
    else
      var (head, rest) := SplitFirst(field);
      var present :- PyIn(Str(head), obj);
      if !present then Ok(Entry(field, Null))
      else
        var sub :- Index(obj, head);
        FieldEntry(sub, rest)
  }

  /** What each field gives, in order. */
  function FieldResults(obj: Value, fields: seq<string>): (rs: seq<Result<Entry>>)
    ensures |rs| == |fields| && forall i :: 0 <= i < |fields| ==> rs[i] == FieldEntry(obj, fields[i])
  {
    seq(|fields|, i requires 0 <= i < |fields| => FieldEntry(obj, fields[i]))
  }

  /** The loop of `extract_fields` over the fields' outcomes: each entry is assigned into the
      result in turn, and the first outcome that raises ends the loop with its error. */
  function Collect(rs: seq<Result<Entry>>): Result<seq<Entry>> {
    if rs == [] then Ok([])
    else
      var reduced :- Collect(rs[..|rs| - 1]);
      var e :- rs[|rs| - 1];
      Ok(Put(reduced, e.key, e.val))
  }

  /** `extract_fields(obj, fields)` */
  function Extracted(obj: Value, fields: seq<string>): (r: Result<seq<Entry>>)
    ensures r.Ok? <==> forall i :: 0 <= i < |fields| ==> FieldEntry(obj, fields[i]).Ok?
    ensures r.Ok? ==> DistinctKeys(r.value)
  {
    var rs := FieldResults(obj, fields);
    CollectRaises(rs);
    if forall i :: 0 <= i < |fields| ==> FieldEntry(obj, fields[i]).Ok? then
      CollectIsDictOfEntries(rs);
      Collect(rs)
    else Collect(rs)
  }

  /** The entries of outcomes that did not raise. */
  function Entries(rs: seq<Result<Entry>>): (es: seq<Entry>)
    requires forall i :: 0 <= i < |rs| ==> rs[i].Ok?
    ensures |es| == |rs| && forall i :: 0 <= i < |rs| ==> es[i] == rs[i].value
  {
    seq(|rs|, i requires 0 <= i < |rs| => rs[i].value)
  }

  /** The loop raises iff some outcome raises. */
  lemma {:induction false} CollectRaises(rs: seq<Result<Entry>>)
    ensures Collect(rs).Ok? <==> forall i :: 0 <= i < |rs| ==> rs[i].Ok?
  {
    if rs != [] {
      var n := |rs| - 1;
      CollectRaises(rs[..n]);
      assert forall i :: 0 <= i < n ==> rs[..n][i] == rs[i];
    }
  }

  /** Otherwise it is the dict of the entries, a later entry winning over an earlier one with
      the same name. */
  lemma {:induction false} CollectIsDictOfEntries(rs: seq<Result<Entry>>)
    requires forall i :: 0 <= i < |rs| ==> rs[i].Ok?
    ensures Collect(rs) == Ok(FromItems(Entries(rs)))
  {
    if rs != [] {
      var n := |rs| - 1;
      var prefix := rs[..n];
      assert forall i :: 0 <= i < n ==> prefix[i] == rs[i];
      CollectIsDictOfEntries(prefix);
      var es := Entries(rs);
      assert es[..n] == Entries(prefix);
      assert FromItems(es) == Put(FromItems(es[..n]), es[n].key, es[n].val);
    }
  }

  /** The projection raises iff some field raises; otherwise it is the dict of the fields'
      entries. */
  lemma ExtractedIsDictOfEntries(obj: Value, fields: seq<string>)
    ensures Extracted(obj, fields).Ok? <==> forall i :: 0 <= i < |fields| ==> FieldEntry(obj, fields[i]).Ok?
    ensures Extracted(obj, fields).Ok? ==> Extracted(obj, fields).value == FromItems(Entries(FieldResults(obj, fields)))
  {
    CollectRaises(FieldResults(obj, fields));
    if forall i :: 0 <= i < |fields| ==> FieldEntry(obj, fields[i]).Ok? {
      CollectIsDictOfEntries(FieldResults(obj, fields));
    }
  }

  /** Once some outcome raises, the loop raises the error of the first such outcome. */
  lemma {:induction false} CollectPrefixRaises(rs: seq<Result<Entry>>, i: nat)
    requires i <= |rs| && Collect(rs[..i]).Err?
    ensures Collect(rs) == Collect(rs[..i])
    decreases |rs| - i
  {
    if i < |rs| {
      var prefix := rs[..|rs| - 1];
      assert prefix[..i] == rs[..i];
      CollectPrefixRaises(prefix, i);
    } else {
      assert rs[..i] == rs;
    }
  }

  /** The total length of the fields, used to show that the projection terminates. */
  function FieldsWeight(fields: seq<string>): nat {
    if fields == [] then 0 else |fields[0]| + 1 + FieldsWeight(fields[1..])
  }

  lemma {:induction false} FieldWeightBound(fields: seq<string>, i: nat)
    requires i < |fields|
    ensures |fields[i]| + 1 <= FieldsWeight(fields)
  {
    if i > 0 { FieldWeightBound(fields[1..], i - 1); }
  }

  method ExtractFields(obj: Value, fields: seq<string>) returns (r: Result<seq<Entry>>)
    ensures r == Extracted(obj, fields)
    decreases FieldsWeight(fields)
  {
    var reduced: seq<Entry> := [];
    ghost var rs := FieldResults(obj, fields);
    for i := 0 to |fields|
      invariant Collect(rs[..i]) == Ok(reduced)
    {
      var field := fields[i];
      CollectStep(rs, i);
      if FieldEntry(obj, field).Err? {
        // the error this field raises is the error of all the fields
        CollectPrefixRaises(rs, i + 1);
      }
      if !HasDot(field) {
        var present := PyIn(Str(field), obj);
        if present.Err? {
          return Err(present.error);
        }
        if !present.value {
          reduced := Put(reduced, field, Null);
        } else {
          var v := Index(obj, field);
          if v.Err? {
            return Err(v.error);
          }
          reduced := Put(reduced, field, v.value);
        }
      } else {
        var (head, rest) := SplitFirst(field);
        var present := PyIn(Str(head), obj);
        if present.Err? {
          return Err(present.error);
        }
        if !present.value {
          reduced := Put(reduced, field, Null);
        } else {
          var sub := Index(obj, head);
          if sub.Err? {
            return Err(sub.error);
          }
          FieldWeightBound(fields, i);
          assert |field| == |head| + 1 + |rest|;
          assert [rest][1..] == [];
          assert FieldsWeight([rest]) == |rest| + 1;
          var subReduced := ExtractFields(sub.value, [rest]);
          ExtractedSingle(sub.value, rest);
          if subReduced.Err? {
            return Err(subReduced.error);
          }
          UpdateSingle(reduced, subReduced.value[0]);
          reduced := Update(reduced, subReduced.value);
        }
      }
    }
    assert rs[..|fields|] == rs;
    return Ok(reduced);
  }

  /** One more outcome: an entry is assigned into the result, an error ends the loop. */
  lemma CollectStep(rs: seq<Result<Entry>>, i: nat)
    requires i < |rs|
    ensures Collect(rs[..i + 1]) ==
            if Collect(rs[..i]).Err? then Collect(rs[..i])
            else if rs[i].Err? then Err(rs[i].error)
            else Ok(Put(Collect(rs[..i]).value, rs[i].value.key, rs[i].value.val))
  {
    assert rs[..i + 1][..i] == rs[..i];
  }

  /** The projection of a single field is the dict of its one entry. */
  lemma ExtractedSingle(obj: Value, field: string)
    ensures FieldEntry(obj, field).Err? ==> Extracted(obj, [field]) == Err(FieldEntry(obj, field).error)
    ensures FieldEntry(obj, field).Ok? ==> Extracted(obj, [field]) == Ok([FieldEntry(obj, field).value])
  {
    var rs := FieldResults(obj, [field]);
    assert rs == [FieldEntry(obj, field)];
    assert rs[..0] == [];
    assert Collect(rs[..0]) == Ok([]);
    if rs[0].Ok? {
      assert Put([], rs[0].value.key, rs[0].value.val) == [rs[0].value];
    }
  }

  /** A requested undotted field that the document lacks is None. */
  lemma AbsentFieldIsNone(es: seq<Entry>, field: string)
    requires !HasDot(field) && !HasKey(es, field)
    ensures FieldEntry(Dict(es), field) == Ok(Entry(field, Null))
  {
  }

  /** A dotted field whose head the document lacks is None under the whole dotted field. */
  lemma AbsentHeadIsNone(es: seq<Entry>, field: string)
    requires HasDot(field) && !HasKey(es, SplitFirst(field).0)
    ensures FieldEntry(Dict(es), field) == Ok(Entry(field, Null))
  {
  }

  /** The value a field names when every segment of it leads into a dict that holds the next
      one; None otherwise. */
  function Resolve(obj: Value, field: string): Option<Value>
    decreases |field|
  {
    if !obj.Dict? then None
    else if !HasDot(field) then
      if HasKey(obj.entries, field) then Some(Get(obj.entries, field)) else None
    else
      var (head, rest) := SplitFirst(field);
      if HasKey(obj.entries, head) then Resolve(Get(obj.entries, head), rest) else None
  }

  /** A field that resolves is stored under its last segment with the value it resolves to. */
  lemma {:induction false} ResolvedFieldEntry(obj: Value, field: string)
    requires Resolve(obj, field).Some?
    ensures FieldEntry(obj, field) == Ok(Entry(LastSegment(field), Resolve(obj, field).value))
    decreases |field|
  {
    if HasDot(field) {
      var (head, rest) := SplitFirst(field);
      var sub := Get(obj.entries, head);
      assert PyIn(Str(head), obj) == Ok(true);
      assert Index(obj, head) == Ok(sub);
      assert FieldEntry(obj, field) == FieldEntry(sub, rest);
      assert Resolve(obj, field) == Resolve(sub, rest);
      ResolvedFieldEntry(sub, rest);
    } else {
      assert PyIn(Str(field), obj) == Ok(true);
      assert Index(obj, field) == Ok(Get(obj.entries, field));
    }
  }

  /** What the select pipeline hands to `snapshot_to_document_fn`: a document snapshot (its
      data and its path) or, for a show query, a collection name. */
  datatype Response = CollectionName(name: string) | Document(snapshot: Snapshot)

  /** The document of a snapshot: its data with `_path` set to its path. */
  function DocumentOf(data: seq<Entry>, path: string): seq<Entry> {
    Put(data, "_path", Str(path))
  }

  /** `snapshot_to_document_fn(query)(response)`: a name is returned as it is; a snapshot of a
      missing document raises, since its `to_dict()` is None and cannot take `_path`; `*`
      returns the whole document with its `_path`; a field list projects the document. */
  function SnapshotToDocument(fields: Q.Fields, response: Response): (r: Result<Value>)
    ensures response.CollectionName? ==> r == Ok(Str(response.name))
    ensures response.Document? && !response.snapshot.found ==> r == Err(TypeError)
    ensures response.Document? && response.snapshot.found && fields.Star? ==>
              var s := response.snapshot;
              r.Ok? && r.value.Dict? &&
              KeySet(r.value.entries) == KeySet(s.data) + {"_path"} &&
              Get(r.value.entries, "_path") == Str(s.path) &&
              forall k :: k != "_path" && HasKey(s.data, k) ==> Get(r.value.entries, k) == Get(s.data, k)
    ensures response.Document? && response.snapshot.found && fields.Names? ==>
              r == (var p := Extracted(Dict(DocumentOf(response.snapshot.data, response.snapshot.path)), fields.names);
                    if p.Ok? then Ok(Dict(p.value)) else Err(p.error))
  {
    match response
    case CollectionName(n) => Ok(Str(n))
    case Document(Snapshot(data, path, found)) =>
      if !found then Err(TypeError)
      else
        var doc := DocumentOf(data, path);
        if fields.Star? then Ok(Dict(doc))
        else
          var reduced :- Extracted(Dict(doc), fields.names);
          Ok(Dict(reduced))
  }

  /** Requesting `_path` by name gives the snapshot's path. */
  lemma PathFieldIsPath(data: seq<Entry>, path: string)
    ensures SnapshotToDocument(Q.Names(["_path"]), Document(Snapshot(data, path, true))) == Ok(Dict([Entry("_path", Str(path))]))
  {
    var doc := DocumentOf(data, path);
    assert !HasDot("_path");
    assert FieldEntry(Dict(doc), "_path") == Ok(Entry("_path", Str(path)));
    ExtractedSingle(Dict(doc), "_path");
  }

  // ---------------------------------------------------------------------------
  // The document an insert query stores (execute_insert_query)
  // ---------------------------------------------------------------------------

  /** Every setter key expanded into a dict of its own, then all of them merged. */
  function InsertDocument(setters: seq<Q.Setter>): (r: Result<seq<Entry>>)
    ensures r.Ok? ==> KeySet(r.value) == set i | 0 <= i < |setters| :: HeadOf(setters[i].property)
  {
    var m := SetterMap(setters);
    var ds := seq(|m|, i requires 0 <= i < |m| => Dict(ExpandKey([], m[i].key, m[i].val)));
    ExpandedKeys(m, ds);
    HeadsOfSetters(setters);
    DeepMerged(ds)
  }

  /** The top-level key a setter property expands to: the part before its first dot. */
  function HeadOf(key: string): string {
    if HasDot(key) then SplitFirst(key).0 else key
  }

  lemma ExpandedKey(key: string, v: Value)
    ensures KeySet(ExpandKey([], key, v)) == {HeadOf(key)}
  {
    if HasDot(key) {
      var e := Entry(SplitFirst(key).0, Dict(ExpandKey([], SplitFirst(key).1, v)));
      assert ExpandKey([], key, v) == [e];
      assert KeySet([e]) == {e.key} + KeySet([e][1..]);
    }
  }

  lemma {:induction false} ExpandedKeys(m: seq<Entry>, ds: seq<Value>)
    requires |ds| == |m| && forall i :: 0 <= i < |ds| ==> ds[i] == Dict(ExpandKey([], m[i].key, m[i].val))
    ensures AllKeys(ds) == set i | 0 <= i < |m| :: HeadOf(m[i].key)
  {
    if m != [] {
      ExpandedKeys(m[1..], ds[1..]);
      ExpandedKey(m[0].key, m[0].val);
      var rest := set i | 0 <= i < |m[1..]| :: HeadOf(m[1..][i].key);
      var all := set i | 0 <= i < |m| :: HeadOf(m[i].key);
      assert all == {HeadOf(m[0].key)} + rest by {
        forall x | x in all ensures x in {HeadOf(m[0].key)} + rest {
          var i :| 0 <= i < |m| && HeadOf(m[i].key) == x;
          if i > 0 { assert HeadOf(m[1..][i - 1].key) == x; }
        }
        forall x | x in rest ensures x in all {
          var i :| 0 <= i < |m[1..]| && HeadOf(m[1..][i].key) == x;
          assert HeadOf(m[i + 1].key) == x;
        }
      }
    }
  }

  /** The heads of the merged setters' keys are the heads of the setters' properties. */
  lemma HeadsOfSetters(setters: seq<Q.Setter>)
    ensures var m := SetterMap(setters);
            (set i | 0 <= i < |m| :: HeadOf(m[i].key)) == set i | 0 <= i < |setters| :: HeadOf(setters[i].property)
  {
    var m := SetterMap(setters);
    var props := set j | 0 <= j < |setters| :: setters[j].property;
    var a := set i | 0 <= i < |m| :: HeadOf(m[i].key);
    var b := set j | 0 <= j < |setters| :: HeadOf(setters[j].property);
    assert KeySet(m) == props;
    forall x | x in a ensures x in b {
      var i :| 0 <= i < |m| && HeadOf(m[i].key) == x;
      KeyOfIndex(m, i);
      var j :| 0 <= j < |setters| && setters[j].property == m[i].key;
    }
    forall x | x in b ensures x in a {
      var j :| 0 <= j < |setters| && HeadOf(setters[j].property) == x;
      assert setters[j].property in props;
      KeySetIndex(m, setters[j].property);
      var i :| 0 <= i < |m| && m[i].key == setters[j].property;
    }
  }

  lemma KeyOfIndex(d: seq<Entry>, i: nat)
    requires i < |d|
    ensures d[i].key in KeySet(d)
  {
    KeySetIndex(d, d[i].key);
  }


  /** The insert document of undotted setters with values that are not dicts is the merged
      setters themselves. */
  lemma InsertUndotted(setters: seq<Q.Setter>)
    requires forall i :: 0 <= i < |setters| ==> !HasDot(setters[i].property) && !setters[i].value.Dict?
    ensures InsertDocument(setters) == Ok(SetterMap(setters))
  {
    var m := SetterMap(setters);
    var ds := seq(|m|, i requires 0 <= i < |m| => Dict(ExpandKey([], m[i].key, m[i].val)));
    SetterMapFacts(setters);
    forall i | 0 <= i < |m|
      ensures ds[i] == Dict([m[i]])
    {
      assert ExpandKey([], m[i].key, m[i].val) == Put([], m[i].key, m[i].val);
    }
    MergeFlatDicts(ds);
    AllEntriesSingletons(ds, m);
    FromItemsOfDict(m);
  }

  /** The keys of the setter map are setter properties and its values setter values. */
  lemma SetterMapFacts(setters: seq<Q.Setter>)
    ensures forall i :: 0 <= i < |SetterMap(setters)| ==>
              exists j :: 0 <= j < |setters| && SetterMap(setters)[i] == Entry(setters[j].property, setters[j].value)
  {
    var items := SetterItems(setters);
    FromItemsEntries(items);
    assert SetterMap(setters) == FromItems(items);
    forall i | 0 <= i < |SetterMap(setters)|
      ensures exists j :: 0 <= j < |setters| && SetterMap(setters)[i] == Entry(setters[j].property, setters[j].value)
    {
      var j :| 0 <= j < |items| && FromItems(items)[i] == items[j];
      assert items[j] == Entry(setters[j].property, setters[j].value);
    }
  }

  /** Every entry of `dict(items)` is one of the items. */
  lemma {:induction false} FromItemsEntries(items: seq<Entry>)
    ensures forall i :: 0 <= i < |FromItems(items)| ==> exists j :: 0 <= j < |items| && FromItems(items)[i] == items[j]
  {
    if items != [] {
      var prefix := items[..|items| - 1];
      var last := items[|items| - 1];
      FromItemsEntries(prefix);
      PutEntries(FromItems(prefix), last.key, last.val);
      assert FromItems(items) == Put(FromItems(prefix), last.key, last.val);
      forall i | 0 <= i < |FromItems(items)|
        ensures exists j :: 0 <= j < |items| && FromItems(items)[i] == items[j]
      {
        if FromItems(items)[i] != last {
          var j :| 0 <= j < |FromItems(prefix)| && FromItems(items)[i] == FromItems(prefix)[j];
          var j' :| 0 <= j' < |prefix| && FromItems(prefix)[j] == prefix[j'];
          assert items[j'] == prefix[j'];
        } else {
          assert items[|items| - 1] == last;
        }
      }
    } else {
      assert FromItems(items) == [];
    }
  }

  /** Every entry of `d[k] = v` is the new entry or one of the old ones. */
  lemma {:induction false} PutEntries(d: seq<Entry>, k: string, v: Value)
    ensures forall i :: 0 <= i < |Put(d, k, v)| ==> Put(d, k, v)[i] == Entry(k, v) || exists j :: 0 <= j < |d| && Put(d, k, v)[i] == d[j]
  {
    if d != [] && d[0].key != k {
      PutEntries(d[1..], k, v);
      forall i | 0 <= i < |Put(d, k, v)|
        ensures Put(d, k, v)[i] == Entry(k, v) || exists j :: 0 <= j < |d| && Put(d, k, v)[i] == d[j]
      {
        if i > 0 && Put(d, k, v)[i] != Entry(k, v) {
          var j :| 0 <= j < |d[1..]| && Put(d[1..], k, v)[i - 1] == d[1..][j];
          assert Put(d, k, v)[i] == d[j + 1];
        }
      }
    } else if d != [] {
      forall i | 0 <= i < |Put(d, k, v)|
        ensures Put(d, k, v)[i] == Entry(k, v) || exists j :: 0 <= j < |d| && Put(d, k, v)[i] == d[j]
      {
        if i > 0 { assert Put(d, k, v)[i] == d[i]; }
      }
    }
  }

  lemma {:induction false} AllEntriesSingletons(ds: seq<Value>, m: seq<Entry>)
    requires |ds| == |m| && forall i :: 0 <= i < |m| ==> ds[i] == Dict([m[i]])
    ensures AllEntries(ds) == m
  {
    if ds != [] {
      AllEntriesSingletons(ds[1..], m[1..]);
    }
  }

  /** `h.t` splits at the dot after `h` when `h` has no dot. */
  lemma {:induction false} SplitFirstOf(h: string, t: string)
    requires !HasDot(h)
    ensures SplitFirst(h + "." + t) == (h, t)
  {
    DotIndexOf(h, t);
    assert (h + "." + t)[..|h|] == h;
    assert (h + "." + t)[|h| + 1..] == t;
  }

  lemma {:induction false} DotIndexOf(h: string, t: string)
    requires !HasDot(h)
    ensures HasDot(h + "." + t) && DotIndex(h + "." + t) == |h|
  {
    assert (h + "." + t)[|h|] == '.';
    if h != [] {
      assert (h + "." + t)[1..] == h[1..] + "." + t;
      DotIndexOf(h[1..], t);
    }
  }

  /** A key with one dot expands into a dict holding a one-entry dict. */
  lemma ExpandOneDot(h: string, t: string, v: Value)
    requires !HasDot(h) && !HasDot(t)
    ensures ExpandKey([], h + "." + t, v) == [Entry(h, Dict([Entry(t, v)]))]
  {
    SplitFirstOf(h, t);
    assert ExpandKey([], t, v) == Put([], t, v);
  }

  /** Two dotted setters under one head are merged into one nested dict: `h.a = 1, h.b = 2`
      inserts `{h: {a: 1, b: 2}}`. */
  lemma InsertNestedPair(h: string, a: string, x: Value, b: string, y: Value)
    requires !HasDot(h) && !HasDot(a) && !HasDot(b) && a != b
    requires !x.Dict? && !y.Dict?
    ensures InsertDocument([Q.Setter(h + "." + a, x), Q.Setter(h + "." + b, y)])
         == Ok([Entry(h, Dict([Entry(a, x), Entry(b, y)]))])
  {
    PairExpansions(h, a, x, b, y);
    PairFromItems(a, x, b, y);
    MergeSameHead(h, [Entry(a, x)], [Entry(b, y)]);
  }

  /** The two setters are expanded into one-entry dicts under the same head. */
  lemma PairExpansions(h: string, a: string, x: Value, b: string, y: Value)
    requires !HasDot(h) && !HasDot(a) && !HasDot(b) && a != b
    ensures InsertDocument([Q.Setter(h + "." + a, x), Q.Setter(h + "." + b, y)])
         == DeepMerged([Dict([Entry(h, Dict([Entry(a, x)]))]), Dict([Entry(h, Dict([Entry(b, y)]))])])
  {
    var ka, kb := h + "." + a, h + "." + b;
    assert ka != kb by {
      assert ka[|h| + 1..] == a && kb[|h| + 1..] == b;
    }
    ExpandOneDot(h, a, x);
    ExpandOneDot(h, b, y);
    InsertDocumentOfPair(ka, x, kb, y);
  }

  /** Two setters of different properties: the merge of their two expansions. */
  lemma InsertDocumentOfPair(ka: string, x: Value, kb: string, y: Value)
    requires ka != kb
    ensures InsertDocument([Q.Setter(ka, x), Q.Setter(kb, y)])
         == DeepMerged([Dict(ExpandKey([], ka, x)), Dict(ExpandKey([], kb, y))])
  {
    var m := [Entry(ka, x), Entry(kb, y)];
    PairSetterMap(ka, x, kb, y);
    InsertDocumentOf([Q.Setter(ka, x), Q.Setter(kb, y)], m, [Dict(ExpandKey([], ka, x)), Dict(ExpandKey([], kb, y))]);
  }

  /** The insert document is the merge of the expanded setters. */
  lemma InsertDocumentOf(setters: seq<Q.Setter>, m: seq<Entry>, ds: seq<Value>)
    requires SetterMap(setters) == m && |ds| == |m|
    requires forall i :: 0 <= i < |ds| ==> ds[i] == Dict(ExpandKey([], m[i].key, m[i].val))
    ensures InsertDocument(setters) == DeepMerged(ds)
  {
    assert seq(|m|, i requires 0 <= i < |m| => Dict(ExpandKey([], m[i].key, m[i].val))) == ds;
  }

  /** Two items with different keys make a dict of both, in order. */
  lemma PairFromItems(a: string, x: Value, b: string, y: Value)
    requires a != b && !x.Dict? && !y.Dict?
    ensures DistinctKeys([Entry(a, x)]) && NoDicts([Entry(a, x)]) && NoDicts([Entry(b, y)])
    ensures FromItems([Entry(a, x)] + [Entry(b, y)]) == [Entry(a, x), Entry(b, y)]
  {
    var xy := [Entry(a, x), Entry(b, y)];
    assert [Entry(a, x)] + [Entry(b, y)] == xy;
    assert xy[..1] == [Entry(a, x)];
    assert FromItems(xy[..1]) == [Entry(a, x)];
  }

  /** Two setters of different properties give a dict of both, in order. */
  lemma PairSetterMap(a: string, x: Value, b: string, y: Value)
    requires a != b
    ensures SetterMap([Q.Setter(a, x), Q.Setter(b, y)]) == [Entry(a, x), Entry(b, y)]
  {
    var m := [Entry(a, x), Entry(b, y)];
    assert SetterItems([Q.Setter(a, x), Q.Setter(b, y)]) == m;
    assert m[..1] == [Entry(a, x)];
    assert FromItems(m[..1]) == [Entry(a, x)];
  }

  /** Two inputs that each hold one flat dict under the same key merge into one dict under
      that key, holding the entries of both. */
  lemma MergeSameHead(h: string, x: seq<Entry>, y: seq<Entry>)
    requires DistinctKeys(x) && NoDicts(x) && NoDicts(y)
    ensures DeepMerged([Dict([Entry(h, Dict(x))]), Dict([Entry(h, Dict(y))])])
         == Ok([Entry(h, Dict(FromItems(x + y)))])
  {
    var acc1 := [Entry(h, Dict(x))];
    var acc2 := [Entry(h, Dict(FromItems(x + y)))];
    MergeIntoEmpty(h, x);
    MergeIntoExisting(h, x, y);
    assert MergeAll(acc1, [Dict([Entry(h, Dict(y))])]) == Ok(acc2);
  }

  lemma AllEntriesPair(x: seq<Entry>, y: seq<Entry>)
    ensures AllEntries([Dict(x), Dict(y)]) == x + y
  {
    assert [Dict(x), Dict(y)][1..] == [Dict(y)] && [Dict(y)][1..] == [];
    assert AllEntries([Dict(y)]) == y + AllEntries([]);
  }

  lemma MergeIntoEmpty(h: string, x: seq<Entry>)
    requires DistinctKeys(x) && NoDicts(x)
    ensures MergeInto([], [Entry(h, Dict(x))]) == Ok([Entry(h, Dict(x))])
  {
    MergeFlatDicts([Dict([]), Dict(x)]);
    AllEntriesPair([], x);
    assert [] + x == x;
    FromItemsOfDict(x);
    assert DeepMerged([Dict([]), Dict(x)]) == Ok(x);
    assert PriorOf([], h) == Dict([]);
    MergeEntryOfDict([], Entry(h, Dict(x)), x);
    assert Put([], h, Dict(x)) == [Entry(h, Dict(x))];
    MergeIntoOne([], Entry(h, Dict(x)));
  }

  /** A dict of one entry: reading its key, and assigning to it. */
  lemma SingleEntry(k: string, v: Value, w: Value)
    ensures PriorOf([Entry(k, v)], k) == v
    ensures Put([Entry(k, v)], k, w) == [Entry(k, w)]
  {
    assert HasKey([Entry(k, v)], k);
  }

  /** A dict value is merged with what the result holds at its key, and put there. */
  lemma MergeEntryOfDict(acc: seq<Entry>, e: Entry, merged: seq<Entry>)
    requires e.val.Dict? && DeepMerged([PriorOf(acc, e.key), e.val]) == Ok(merged)
    ensures MergeEntry(acc, e) == Ok(Put(acc, e.key, Dict(merged)))
  {
  }

  /** Merging a single entry is that entry's assignment. */
  lemma MergeIntoOne(acc: seq<Entry>, e: Entry)
    ensures MergeInto(acc, [e]) == MergeEntry(acc, e)
  {
    assert [e][1..] == [];
  }

  lemma MergeIntoExisting(h: string, x: seq<Entry>, y: seq<Entry>)
    requires NoDicts(x) && NoDicts(y)
    ensures MergeInto([Entry(h, Dict(x))], [Entry(h, Dict(y))]) == Ok([Entry(h, Dict(FromItems(x + y)))])
  {
    var acc := [Entry(h, Dict(x))];
    MergeFlatDicts([Dict(x), Dict(y)]);
    AllEntriesPair(x, y);
    var merged := FromItems(x + y);
    assert DeepMerged([Dict(x), Dict(y)]) == Ok(merged);
    SingleEntry(h, Dict(x), Dict(merged));
    MergeEntryOfDict(acc, Entry(h, Dict(y)), merged);
    MergeIntoOne(acc, Entry(h, Dict(y)));
  }
}
