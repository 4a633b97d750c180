/** Python values as fikl sees them: the fields of a Firestore document, the literals of a
    query, and the dicts that hold them. A Python dict keeps its insertion order, so a dict is
    modelled as the sequence of its entries in that order. Floats are not modelled. */
module Values {

  datatype Value =
    | Int(i: int)
    | Str(s: string)
    | Bool(b: bool)
    | Null
    | List(items: seq<Value>)
    | Dict(entries: seq<Entry>)

  /** One key/value pair of a dict. */
  datatype Entry = Entry(key: string, val: Value)

  /** A Firestore document snapshot as the query engine reads it: `to_dict()`,
      `reference.path` and `exists`. A snapshot of a document that does not exist
      (`found` false) has no data: its `to_dict()` is None. A collection's stream only
      yields documents that exist; a document subject's `get()` may not. */
  datatype Snapshot = Snapshot(data: seq<Entry>, path: string, found: bool)

  /** The Python exceptions the modelled code can raise. `LiteralError` stands for the
      ValueError that ast.literal_eval raises on text that is not a Python literal. */
  datatype Error = TypeError | KeyError | AttributeError | LiteralError

  datatype Option<+T> = None | Some(value: T)

  /** A computation that returns a value or raises. */
  datatype Result<+T> = Ok(value: T) | Err(error: Error) {
    predicate IsFailure() { Err? }
    function PropagateFailure<U>(): Result<U> requires Err? { Err(error) }
    function Extract(): T requires Ok? { value }
  }

  // ---------------------------------------------------------------------------
  // Dict primitives: `k in d`, `d[k]`, `d[k] = v` and `dict(items)`.
  // ---------------------------------------------------------------------------

  /** The keys of a dict, `set(d.keys())`. */
  function KeySet(d: seq<Entry>): set<string> {
    if d == [] then {} else {d[0].key} + KeySet(d[1..])
  }

  /** `list(d.keys())` */
  function Keys(d: seq<Entry>): seq<string> {
    if d == [] then [] else [d[0].key] + Keys(d[1..])
  }

  /** `k in d` */
  predicate HasKey(d: seq<Entry>, k: string) {
    k in KeySet(d)
  }

  /** `d[k]` for a key that is present: the value of its first entry. */
  function Get(d: seq<Entry>, k: string): Value
    requires HasKey(d, k)
  {
    if d[0].key == k then d[0].val else Get(d[1..], k)
  }

  /** A Python dict never holds a key twice. */
  predicate DistinctKeys(d: seq<Entry>) {
    d == [] || (d[0].key !in KeySet(d[1..]) && DistinctKeys(d[1..]))
  }

  /** `d[k] = v`: an existing key keeps its position and takes the new value, a new key is
      appended at the end. */
  function Put(d: seq<Entry>, k: string, v: Value): (r: seq<Entry>)
    ensures KeySet(r) == KeySet(d) + {k}
    ensures HasKey(d, k) ==> Keys(r) == Keys(d)
    ensures !HasKey(d, k) ==> r == d + [Entry(k, v)]
    ensures HasKey(r, k) && Get(r, k) == v
    ensures forall k' :: k' != k && HasKey(d, k') ==> Get(r, k') == Get(d, k')
    ensures DistinctKeys(d) ==> DistinctKeys(r)
  {
    if d == [] then [Entry(k, v)]
    else if d[0].key == k then [Entry(k, v)] + d[1..]
    else [d[0]] + Put(d[1..], k, v)
  }

  lemma {:induction false} KeySetAppend(a: seq<Entry>, b: seq<Entry>)
    ensures KeySet(a + b) == KeySet(a) + KeySet(b)
  {
    if a != [] {
      assert (a + b)[1..] == a[1..] + b;
      KeySetAppend(a[1..], b);
    } else {
      assert a + b == b;
    }
  }

  lemma {:induction false} KeySetIndex(d: seq<Entry>, k: string)
    ensures k in KeySet(d) <==> exists i :: 0 <= i < |d| && d[i].key == k
  {
    if d != [] {
      KeySetIndex(d[1..], k);
      if k in KeySet(d[1..]) {
        var i :| 0 <= i < |d[1..]| && d[1..][i].key == k;
        assert d[i + 1].key == k;
      }
      if exists i :: 0 <= i < |d| && d[i].key == k {
        var i :| 0 <= i < |d| && d[i].key == k;
        if i > 0 { assert d[1..][i - 1].key == k; }
      }
    }
  }

  /** `dict(items)`: later pairs overwrite earlier ones with the same key. */
  function FromItems(items: seq<Entry>): (d: seq<Entry>)
    ensures DistinctKeys(d)
    ensures KeySet(d) == KeySet(items)
  {
    if items == [] then []
    else
      var last := items[|items| - 1];
      var prefix := items[..|items| - 1];
      assert items == prefix + [last];
      KeySetAppend(prefix, [last]);
      Put(FromItems(prefix), last.key, last.val)
  }

  /** `dict(d.items())` of a dict is the dict itself. */
  lemma {:induction false} FromItemsOfDict(d: seq<Entry>)
    requires DistinctKeys(d)
    ensures FromItems(d) == d
  {
    if d != [] {
      var prefix := d[..|d| - 1];
      var last := d[|d| - 1];
      assert d == prefix + [last];
      DistinctPrefix(prefix, [last]);
      FromItemsOfDict(prefix);
    }
  }

  lemma {:induction false} DistinctPrefix(a: seq<Entry>, b: seq<Entry>)
    requires DistinctKeys(a + b)
    ensures DistinctKeys(a) && DistinctKeys(b) && KeySet(a) !! KeySet(b)
  {
    if a != [] {
      assert (a + b)[1..] == a[1..] + b;
      DistinctPrefix(a[1..], b);
      KeySetAppend(a[1..], b);
    } else {
      assert a + b == b;
    }
  }

  /** The size of a value, counting every value nested in a dict. Used to show that
      flattening terminates. */
  function Size(v: Value): (n: nat)
    ensures n >= 1
  {
    match v
    case Dict(es) => 1 + EntriesSize(es)
    case _ => 1
  }

  function EntriesSize(es: seq<Entry>): nat {
    if es == [] then 0 else Size(es[0].val) + EntriesSize(es[1..])
  }

  lemma {:induction false} EntriesSizeAppend(a: seq<Entry>, b: seq<Entry>)
    ensures EntriesSize(a + b) == EntriesSize(a) + EntriesSize(b)
  {
    if a != [] {
      assert (a + b)[1..] == a[1..] + b;
      EntriesSizeAppend(a[1..], b);
    } else {
      assert a + b == b;
    }
  }

  /** One entry's value is no larger than all the entries together. */
  lemma ElementSize(d: seq<Entry>, i: nat)
    requires i < |d|
    ensures Size(d[i].val) <= EntriesSize(d)
  {
    assert d == d[..i] + d[i..];
    EntriesSizeAppend(d[..i], d[i..]);
  }

  function Max(a: nat, b: nat): nat {
    if a < b then b else a
  }

  lemma AppendAssoc<T>(a: seq<T>, b: seq<T>, c: seq<T>)
    ensures a + (b + c) == (a + b) + c
  {
  }

  lemma MaxSucc(a: nat, b: nat)
    ensures Max(1 + a, 1 + b) == 1 + Max(a, b)
  {
  }

  lemma ConsTail<T>(s: seq<T>)
    requires s != []
    ensures [s[0]] + s[1..] == s
  {
  }

  /** Both arguments are at most `n` exactly when their maximum is. */
  lemma MaxBound(a: nat, b: nat, n: int)
    ensures Max(a, b) <= n <==> a <= n && b <= n
  {
  }

  /** How deeply dicts nest in a value: 0 for anything but a dict. Used to show that deep
      merging terminates. */
  function Depth(v: Value): nat {
    match v
    case Dict(es) => 1 + EntriesDepth(es)
    case _ => 0
  }

  function EntriesDepth(es: seq<Entry>): nat {
    if es == [] then 0 else Max(Depth(es[0].val), EntriesDepth(es[1..]))
  }

  lemma {:induction false} GetDepth(d: seq<Entry>, k: string)
    requires HasKey(d, k)
    ensures Depth(Get(d, k)) <= EntriesDepth(d)
  {
    if d[0].key != k { GetDepth(d[1..], k); }
  }

  lemma {:induction false} PutDepth(d: seq<Entry>, k: string, v: Value)
    ensures EntriesDepth(Put(d, k, v)) <= Max(EntriesDepth(d), Depth(v))
  {
    if d != [] && d[0].key != k {
      PutDepth(d[1..], k, v);
    }
  }

  /** No value of the dict is itself a dict: the shape `flatten` produces. */
  predicate NoDicts(d: seq<Entry>) {
    d == [] || (!d[0].val.Dict? && NoDicts(d[1..]))
  }

  lemma {:induction false} NoDictsPut(d: seq<Entry>, k: string, v: Value)
    requires NoDicts(d) && !v.Dict?
    ensures NoDicts(Put(d, k, v))
  {
    if d != [] && d[0].key != k {
      NoDictsPut(d[1..], k, v);
    }
  }

  lemma {:induction false} NoDictsAppend(a: seq<Entry>, b: seq<Entry>)
    ensures NoDicts(a + b) <==> NoDicts(a) && NoDicts(b)
  {
    if a != [] {
      assert (a + b)[1..] == a[1..] + b;
      NoDictsAppend(a[1..], b);
    } else {
      assert a + b == b;
    }
  }

  lemma {:induction false} NoDictsFromItems(items: seq<Entry>)
    requires NoDicts(items)
    ensures NoDicts(FromItems(items))
  {
    if items != [] {
      var prefix := items[..|items| - 1];
      assert items == prefix + [items[|items| - 1]];
      NoDictsAppend(prefix, [items[|items| - 1]]);
      NoDictsFromItems(prefix);
      NoDictsPut(FromItems(prefix), items[|items| - 1].key, items[|items| - 1].val);
    }
  }

  /** `d.update(other)`: every entry of `other`, in order, as `d[k] = v`. A key of `other`
      takes the value of its last entry there; every other key of `d` keeps its value. */
  function Update(d: seq<Entry>, other: seq<Entry>): (r: seq<Entry>)
    ensures KeySet(r) == KeySet(d) + KeySet(other)
    ensures forall k :: HasKey(d, k) && k !in KeySet(other) ==> HasKey(r, k) && Get(r, k) == Get(d, k)
    ensures forall i :: 0 <= i < |other| && other[i].key !in KeySet(other[i + 1..]) ==>
              HasKey(r, other[i].key) && Get(r, other[i].key) == other[i].val
    ensures DistinctKeys(d) ==> DistinctKeys(r)
    decreases |other|
  {
    if other == [] then d
    else
      var r := Update(Put(d, other[0].key, other[0].val), other[1..]);
      assert forall i :: 0 < i < |other| ==> other[i] == other[1..][i - 1] && other[i + 1..] == other[1..][i..];
      r
  }

  /** `dict(items)` is the empty dict updated with the items. */
  lemma {:induction false} FromItemsIsUpdate(items: seq<Entry>)
    ensures FromItems(items) == Update([], items)
  {
    if items != [] {
      var prefix := items[..|items| - 1];
      var last := items[|items| - 1];
      assert items == prefix + [last];
      FromItemsIsUpdate(prefix);
      UpdateAppend([], prefix, [last]);
    }
  }

  lemma {:induction false} UpdateAppend(d: seq<Entry>, a: seq<Entry>, b: seq<Entry>)
    ensures Update(d, a + b) == Update(Update(d, a), b)
    decreases |a|
  {
    if a != [] {
      assert (a + b)[1..] == a[1..] + b;
      UpdateAppend(Put(d, a[0].key, a[0].val), a[1..], b);
    } else {
      assert a + b == b;
    }
  }

  /** Updating with a single entry is assigning it. */
  lemma UpdateSingle(d: seq<Entry>, e: Entry)
    ensures Update(d, [e]) == Put(d, e.key, e.val)
  {
    assert [e][1..] == [];
  }

  /** Updating a dict with `other` is building a dict from the entries of both, in order. */
  lemma UpdateIsFromItems(d: seq<Entry>, other: seq<Entry>)
    requires DistinctKeys(d)
    ensures Update(d, other) == FromItems(d + other)
  {
    FromItemsIsUpdate(d + other);
    UpdateAppend([], d, other);
    FromItemsIsUpdate(d);
    FromItemsOfDict(d);
  }
}
