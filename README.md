# fikl query engine: a Dafny model

fikl is a SQL-like query language for Firestore. A query is parsed by Lark. The
`FIKLTree` transformer (lang/transformer.py) turns the parse tree into a query record. The
engine (lang/ql.py) then does three things:

- It pushes the non-local where and order clauses to Firestore.
- It evaluates the `local` clauses on the fetched documents. It filters them on the flattened
  document and sorts them with a stable multi-key sort.
- It shapes documents: merging setters, flattening and expanding dotted keys, deep-merging
  dicts, and projecting the requested fields.

This project models that core and proves its properties. The modules are:

- `Values`: Python values and dicts. A dict is the sequence of its entries in insertion
  order. `d[k] = v`, `dict(items)` and `d.update(other)` are modelled on that sequence.
- `PyOps`: the Python operators the engine applies to document values: `==`, `in` and the
  orderings, with their TypeErrors. Also the string helpers `split(".", 1)` and `strip()`.
- `Query`: the query records (the enums and TypedDicts of lang/transformer.py).
- `Transformer`: the `_as_*` helpers and statement builders of `FIKLTree`, over an abstract
  parse-tree datatype. It also holds the inverse map from a query back to a statement, and
  the round-trip lemma connecting the two.
- `Documents`: `merge_setters`, `flatten`, `expand_key`, `merge_dicts`, `extract_fields` and
  the projection of `snapshot_to_document_fn`, plus the insert document these build. Each
  loop of the source is a method proved equal to a specification function.
- `DeepMerge`: what `merge_dicts` computes key by key. Each key holds the last value given
  to it, or the merge of the dicts given to it. The merge raises exactly when a key, at some
  depth, holds a non-dict in one input and a dict in a later one.
- `LocalFilter`: `local_compare`, `includes` and `filter_locally`.
- `LocalSort`: `cmp`, `multikeysort`, `order_by_as_sort_column` and `sort_locally`. The
  records' Python sort is modelled as an insertion sort. A lemma shows that any sorted,
  stable permutation equals it, so the model fixes the output of any stable sort.
- `Planner`: `add_where_clauses`, `add_order_by_clauses` and the limit, modelled as the
  value of the Firestore query built. It also models the local phase of
  `execute_select_query` and the success-count loops of the update and delete executors.
- `Runner`: `execute_query` and `run_query`. It dispatches a query to its executor and shapes
  the result into the response: `{"count": n}`, the projected documents, or a
  `{"count", "file"}` summary when the output is saved.

How the model handles what it cannot run:

- Python exceptions are modelled as the `Err` case of a `Result`. The errors are TypeError,
  KeyError, AttributeError and the ValueError of `ast.literal_eval`.
- The records Firestore returns for a query are a parameter.
- The outcome of each remote write is a parameter.

## Model

| member | source | states |
|---|---|---|
| Values.Put | lang/ql.py:119 | `d[k] = v` adds `k` to the keys. An existing key keeps its place and the list of keys is unchanged. A new key is appended. `k` then maps to `v`, every other key keeps its value, and distinct keys stay distinct. |
| Values.FromItems | lang/ql.py:103 | `dict(items)` has distinct keys: exactly the keys of the items. |
| Values.FromItemsOfDict | lang/ql.py:103 | `dict(d.items())` of a dict is the dict itself. |
| Values.Update | lang/ql.py:90 | `d.update(other)` has the keys of both dicts. A key of `d` that `other` lacks keeps its value. A key of `other` takes the value of its last entry there. Distinct keys stay distinct. |
| Values.FromItemsIsUpdate | lang/ql.py:103 | `dict(items)` is the empty dict updated with the items in order. |
| Values.UpdateAppend | lang/ql.py:90 | Updating with `a + b` is updating with `a`, then with `b`. |
| Values.UpdateSingle | lang/ql.py:90 | `d.update({k: v})` is `d[k] = v`. |
| Values.UpdateIsFromItems | lang/ql.py:90 | Updating a dict with `other` is `dict` of the entries of both, in order. |
| PyOps.Sign | lang/ql.py:407 | `(x > 0) - (x < 0)` is -1, 0 or 1, with the sign of `x`. |
| PyOps.PyIn | lang/ql.py:373-378 | `x in c` on a list is element equality. It raises TypeError exactly in three cases: `c` is not a string, list or dict; `c` is a string and `x` is not; or `c` is a dict and `x` is unhashable. |
| PyOps.StrCmp | lang/ql.py:361-368 | Python's string order is three-valued. |
| PyOps.PyCompare | lang/ql.py:361-368 | A successful Python comparison is -1, 0 or 1. |
| PyOps.ListCompare | lang/ql.py:361-368 | A successful lexicographic list comparison is -1, 0 or 1. |
| PyOps.StrCmpZero | lang/ql.py:405-407 | Two strings compare equal exactly when they are equal. |
| PyOps.StrCmpAntisymmetric | lang/ql.py:405-407 | Swapping two strings negates their comparison. |
| PyOps.StrCmpTransitive | lang/ql.py:405-407 | The string order is transitive. |
| PyOps.StripLeft | lang/ql.py:413-414 | `s.lstrip()` drops exactly the leading white space: it is the suffix of `s` after a run of white space, and it does not start with white space. |
| PyOps.StripRight | lang/ql.py:413-414 | `s.rstrip()` drops exactly the trailing white space: it is the prefix of `s` before a run of white space, and it does not end with white space. |
| PyOps.DotIndex | lang/ql.py:113-114 | The index found is the first dot of the key. |
| PyOps.SplitFirst | lang/ql.py:113-114 | `key.split(".", 1)` is a dot-free head and a rest, which rejoin to the key. |
| PyOps.LastSegment | lang/ql.py:156-163 | The name a dotted field is stored under has no dot. |
| Documents.SetterItems | lang/ql.py:89-90 | One `(property, value)` pair per setter, in setter order. |
| Documents.SetterMap | lang/ql.py:81-91 | The merged setters have distinct keys: exactly the setters' properties. |
| Documents.MergeSetters | lang/ql.py:88-91 | The loop of `result.update` calls builds the setter map. |
| Documents.FromItemsLastWins | lang/ql.py:103 | In `dict(items)`, a key takes the value of its last item. |
| Documents.SetterMapLastWins | lang/ql.py:88-91 | A repeated setter property takes the value of its last setter. |
| Documents.SetterMapKeys | lang/ql.py:88-91 | The merged setters have one key per distinct setter property, and no other keys. |
| Documents.SetterMapFacts | lang/ql.py:88-91 | Every entry of the merged setters is the property and value of some setter. |
| Documents.Flattened | lang/ql.py:94-103 | The flattened dict never holds a key twice. |
| Documents.FlatItemsAppend | lang/ql.py:96-102 | The items of a concatenation are the items of each part, in order. |
| Documents.FlatItemsAround | lang/ql.py:101-102 | A non-dict entry contributes exactly its own item, under the joined key, between the items before and after it. |
| Documents.Flatten | lang/ql.py:94-103 | The loop that extends and appends to `items` computes `flatten(d, parent)`. |
| Documents.FlattenedNoDicts | lang/ql.py:97-103 | No value of a flattened dict is a dict. |
| Documents.FlatItemsOfFlat | lang/ql.py:97-102 | With no parent key, a dict with no dict values yields its own entries as items. |
| Documents.FlattenFlat | lang/ql.py:97-103 | An already flat dict is returned unchanged. |
| Documents.FlattenIdempotent | lang/ql.py:94-103 | Flattening twice is flattening once. |
| Documents.EmptyNestedDictVanishes | lang/ql.py:99-100 | A nested empty dict contributes no key. |
| Documents.NestedDictJoinsKeys | lang/ql.py:98-100 | A nested dict under `k` is flattened under the joined key `parent.k`. |
| Documents.NonDictKept | lang/ql.py:101-102 | A value that is not a dict, a list say, is kept unchanged under its joined key, unless a later entry yields the same key. |
| Documents.AfterKeys | lang/ql.py:96-103 | A key that no entry yields is absent from the items. |
| Documents.FlattenSingle | lang/ql.py:101-103 | A single non-dict entry flattens to itself under the joined key. |
| Documents.DottedJoin | lang/ql.py:98 | Joining a parent with `head`, then with `rest`, joins it with `head.rest`. |
| Documents.ExpandKey | lang/ql.py:106-120 | An undotted key is `d[key] = v`: it maps to `v`, every other key keeps its value, an existing key keeps its place, and a new key is appended. A dotted key whose head exists leaves the dict unchanged and drops the value. A dotted key whose head is absent appends the head, bound to the expansion of the rest in an empty dict. |
| Documents.FlattenExpandKey | lang/ql.py:113-120 | `flatten(expand_key({}, k, v)) == {k: v}` for a non-dict `v`, unless `k` starts with a dot. |
| Documents.LeadingDotLost | lang/ql.py:113-117 | For every key not starting with a dot and every non-dict value, expanding `.key` and flattening gives `{key: v}`: the leading dot is lost, so the round trip changes the key. |
| Documents.ExpandOneDot | lang/ql.py:113-117 | `h.t` expands to `{h: {t: v}}`. |
| Documents.DeepMerged | lang/ql.py:123-137 | If `merge_dicts` does not raise, its keys are the union of the inputs' keys, and nesting never deepens. What each key holds, and when the merge raises, are stated by the DeepMerge lemmas below. |
| Documents.MergeAll | lang/ql.py:131-136 | The outer loop adds the keys of every input to the result. Its values are stated by `DeepMerge.MergeAllAt`. |
| Documents.MergeInto | lang/ql.py:132-136 | The inner loop adds the keys of one input to the result. Its values are stated by `DeepMerge.MergeIntoAt`. |
| Documents.MergeEntry | lang/ql.py:133-136 | One assignment. A scalar never raises and replaces the earlier value. A dict raises exactly when `merge_dicts([result[key], value])` does, with `{}` for a missing key, and otherwise the key holds that merge. Other keys keep their values. A dict after a scalar at the same key raises AttributeError. |
| Documents.PriorOf | lang/ql.py:134 | `result[key]` of the `defaultdict`: the value at the key, or `{}`, no deeper than the result. |
| Documents.MergeDicts | lang/ql.py:123-137 | The nested loops compute `merge_dicts`. |
| Documents.MergeFlatDicts | lang/ql.py:130-137 | Merging dicts with no dict values is `dict` of all their entries in order: later scalars win. |
| Documents.MergeIntoFlat | lang/ql.py:132-136 | Merging flat entries is `update`. |
| Documents.MergeAllFlat | lang/ql.py:131-136 | Merging flat inputs is updating with all their entries. |
| Documents.MergeScalarThenDict | lang/ql.py:133-134 | A dict following a scalar at the same key raises. |
| Documents.MergeSameHead | lang/ql.py:133-134 | Two dicts under the same key are merged recursively into one dict under that key. |
| Documents.MergeIntoEmpty | lang/ql.py:133-134 | A dict merged into a missing key is merged with `{}`: it is kept as it is. |
| Documents.MergeIntoExisting | lang/ql.py:133-134 | A dict merged into an existing dict is `dict` of both entry lists. |
| Documents.MergeIntoOne | lang/ql.py:132-136 | The inner loop over a single entry is that entry's assignment. |
| Documents.Index | lang/ql.py:160 | `obj[k]` on a dict that has `k` is its value. On anything but a dict it raises TypeError. |
| Documents.FieldEntry | lang/ql.py:149-163 | On an int, bool or None it raises TypeError. On a dict, an undotted field gives its value, or None when absent. A dotted name is kept only for a field that resolved to None. |
| Documents.FieldResults | lang/ql.py:149-163 | One outcome per requested field, in order. |
| Documents.Extracted | lang/ql.py:140-165 | `extract_fields` raises exactly when some field raises. Otherwise it is a dict with distinct keys. |
| Documents.CollectRaises | lang/ql.py:149-163 | The projection loop raises exactly when some field raises. |
| Documents.CollectIsDictOfEntries | lang/ql.py:149-165 | Otherwise it builds `dict` of the field entries: a later entry wins. |
| Documents.CollectPrefixRaises | lang/ql.py:149-163 | Once a field raises, the loop raises that error. |
| Documents.CollectStep | lang/ql.py:149-163 | One more field: its entry is assigned into the result, or its error ends the loop. |
| Documents.ExtractedIsDictOfEntries | lang/ql.py:140-165 | `extract_fields` raises exactly when some field raises. Otherwise it is the dict of each field's entry. |
| Documents.ExtractFields | lang/ql.py:140-165 | The loop filling `reduced`, recursing on dotted fields, computes the projection. |
| Documents.ExtractedSingle | lang/ql.py:149-165 | Projecting one field gives the dict of its entry, or that field's error. |
| Documents.AbsentFieldIsNone | lang/ql.py:150-152 | A requested undotted field that the object lacks maps to None. |
| Documents.AbsentHeadIsNone | lang/ql.py:156-158 | A dotted field whose head is absent maps to None under the full dotted key. |
| Documents.ResolvedFieldEntry | lang/ql.py:155-163 | A dotted field that resolves through nested dicts is stored under its last segment with the resolved value. |
| Documents.SnapshotToDocument | lang/ql.py:178-200 | A collection name is returned as it is. A snapshot of a document that does not exist raises TypeError, because its `to_dict()` is None and cannot take `_path`. For `*`, the document is returned with `_path` set to the reference path. Otherwise the projection of exactly the requested fields is returned. |
| Documents.PathFieldIsPath | lang/ql.py:192-198 | Requesting `_path` gives the snapshot's path. |
| Documents.InsertUndotted | lang/ql.py:323-327 | With undotted, non-dict setters, the insert document is the merged setters. |
| Documents.InsertDocument | lang/ql.py:323-327 | The inserted document's keys are the heads before the first dot of the setter properties. |
| Documents.ExpandedKey | lang/ql.py:106-120 | `expand_key({}, k, v)` has the single key `k`'s head. |
| Documents.ExpandedKeys | lang/ql.py:325-326 | The expanded setters together hold the heads of the setter keys. |
| Documents.HeadsOfSetters | lang/ql.py:323-326 | The heads of the merged setters' keys are the heads of the setters' properties. |
| Documents.InsertNestedPair | lang/ql.py:323-327 | Two dotted setters `h.a = x, h.b = y` under one head insert the single nested dict `{h: {a: x, b: y}}`. |
| Documents.InsertDocumentOf | lang/ql.py:325-327 | The insert document is the merge of the setters, each expanded into a dict of its own. |
| Documents.FromItemsEntries | lang/ql.py:103 | Every entry of `dict(items)` is one of the items. |
| DeepMerge.MergeEntryAt | lang/ql.py:133-136 | One assignment changes the result only at its own key. A dict is merged with the key's prior value, or `{}`; any other value replaces it. The assignment raises exactly when that merge raises. |
| DeepMerge.MergeIntoAt | lang/ql.py:132-136 | After the inner loop, every key holds the in-order fold of the assignments the input's entries make to it. |
| DeepMerge.MergeIntoFailsAt | lang/ql.py:132-136 | When the inner loop raises, the fold at some key raises. |
| DeepMerge.AssignAllAppend | lang/ql.py:132-136 | Folding the assignments `a + b` is folding `a`, then `b`. If `a` raises, so does `a + b`. |
| DeepMerge.MergeAllAt | lang/ql.py:131-136 | After the outer loop, every key holds the fold of all the inputs' assignments to it, in input order. |
| DeepMerge.MergeAllFailsAt | lang/ql.py:131-136 | When merging dicts raises, the fold at some key raises. |
| DeepMerge.MergeAllNeedsDicts | lang/ql.py:131-132 | A merge that does not raise had only dicts as inputs. |
| DeepMerge.DeepMergedByKey | lang/ql.py:123-137 | `merge_dicts` succeeds exactly when every input is a dict and no key's fold raises. Each key then holds its fold. |
| DeepMerge.MergeAllWellFormed | lang/ql.py:131-136 | Merging into a dict with distinct keys at every depth gives such a dict. |
| DeepMerge.MergeIntoWellFormed | lang/ql.py:132-136 | The inner loop keeps keys distinct at every depth, for every bound `n` on how deeply the dicts nest. |
| DeepMerge.MergeEntryWellFormed | lang/ql.py:133-136 | One assignment keeps keys distinct at every depth, for every bound `n` on how deeply the dicts nest. |
| DeepMerge.MergeIntoCopies | lang/ql.py:132-136 | Merging entries with new, distinct keys appends them unchanged, so merging a dict into `{}` copies it. |
| DeepMerge.MergeEntryCopies | lang/ql.py:133-136 | Assigning a new key appends its entry unchanged. |
| DeepMerge.PairFromEmpty | lang/ql.py:134 | `merge_dicts([{}, v])` merges `v`'s entries into an empty dict. |
| DeepMerge.MergeAllAppend | lang/ql.py:131-136 | Merging `a + b` is merging `a`, then `b`. If `a` raises, so does `a + b`. |
| DeepMerge.MergeAssociates | lang/ql.py:134 | Merging a dict with the merge of earlier dicts is merging all of them at once. |
| DeepMerge.PairWithScalar | lang/ql.py:134 | `merge_dicts([x, v])` raises AttributeError when `x` is not a dict. |
| DeepMerge.AssignAllRaises | lang/ql.py:133-136 | A key's assignments raise when a dict comes after a non-dict, including a non-dict the key already held. |
| DeepMerge.AssignAllScalars | lang/ql.py:135-136 | With no dict among them, a key's assignments leave the last value. |
| DeepMerge.AssignAllMerges | lang/ql.py:133-136 | With no non-dict before a dict, a key's assignments succeed exactly when its dicts merge. The key then holds the last value if that is not a dict, and otherwise the merge of its dicts. |
| DeepMerge.KeyAssignments | lang/ql.py:133-136 | A new key's assignments succeed exactly when no non-dict precedes a dict and its dicts merge. The key then holds its last value if that is not a dict, and otherwise the merge of all its dicts. |
| DeepMerge.MergeSucceedsIffNoConflict | lang/ql.py:123-137 | On dict inputs, `merge_dicts` raises exactly when some key, at some depth, holds a non-dict in one input and a dict in a later one. |
| DeepMerge.MergedValueAt | lang/ql.py:123-137 | A key that no input has is absent from the result. Otherwise the key holds its last value if that is not a dict, and otherwise the merge of every dict given to it, in order. |
| DeepMerge.InsertSucceedsIffNoConflict | lang/ql.py:323-327 | The insert document is built exactly when the expanded setters do not conflict in that sense. |
| LocalFilter.Iterate | lang/ql.py:380 | What `every` iterates: a list's elements, or a string's one-character strings. It raises TypeError exactly on a value that is not a list, string or dict. |
| LocalFilter.Apply | lang/ql.py:359-382 | An unknown operator gives False. `==` gives Python equality and `!=` its negation; neither raises. `in` is Python `in` and `array_contains` is `in` with the operands reversed, both raising exactly when that does. `not_in` raises exactly when `in` does and otherwise negates it. Each ordering raises exactly when the comparison does, and otherwise gives the comparison's sign test. |
| LocalFilter.LocalCompare | lang/ql.py:352-382 | A document without the property gives False. On a present property it applies the operator to the property's value and the clause's value. A match, or an error, needs the operator to be known. |
| LocalFilter.Every | lang/ql.py:390-391 | True exactly when every outcome is True. False exactly when a False comes before any error. It never raises when no outcome raises. |
| LocalFilter.Outcomes | lang/ql.py:390-391 | One `local_compare` outcome per clause, in clause order, each on the clause's own property. |
| LocalFilter.Includes | lang/ql.py:385-391 | True exactly when every clause holds on the flattened document. It raises only if some clause raises. |
| LocalFilter.Locals | lang/ql.py:398-399 | The local clauses: an order-preserving subsequence that holds every local clause and only local clauses. |
| LocalFilter.KeepWhere | lang/ql.py:400 | The comprehension `[doc for doc in records if test(doc)]` raises exactly when the test raises on some record. Otherwise it returns an order-preserving subsequence that keeps every copy of each accepted record and none of any other. |
| LocalFilter.Keep | lang/ql.py:400 | Raises exactly when some record's test raises. Otherwise returns an order-preserving subsequence that keeps every copy of each matching record and none of any other. |
| LocalFilter.FilterLocally | lang/ql.py:394-402 | Without a where, every record is returned. With one, it raises exactly when some record's test raises, and otherwise returns an order-preserving subsequence of the records. |
| LocalFilter.MissingPropertyNeverMatches | lang/ql.py:356-357 | A document that lacks the property fails the clause, whatever the operator, even `not_in`. |
| LocalFilter.NotInNegatesIn | lang/ql.py:373-376 | `not_in` is the negation of `in`, and the two raise together. |
| LocalFilter.NotEqualNegatesEqual | lang/ql.py:369-372 | `!=` is the negation of `==`, and neither raises. |
| LocalFilter.OrderingComplements | lang/ql.py:361-368 | `>` complements `<=` and `<` complements `>=`: each pair raises together or gives opposite answers. |
| LocalFilter.UnknownOperatorNeverMatches | lang/ql.py:360-382 | Any other operator, `like` included, never matches. |
| LocalFilter.ContainsAnyIsConjunction | lang/ql.py:379-380 | `array_contains_any` holds exactly when every listed value is in the document's value (AND). |
| LocalFilter.ContainsAnyUnfold | lang/ql.py:379-380 | `array_contains_any` on a present property is `every` over the clause's items. |
| LocalFilter.NumberComparisons | lang/ql.py:361-372 | Between two numbers, each of `>`, `>=`, `<`, `<=`, `==` and `!=` is the numeric comparison of their values and never raises. |
| LocalFilter.StringComparisons | lang/ql.py:361-372 | Between two strings, `==` and `!=` are string equality and its negation, and the orderings are lexicographic order. None of them raises. |
| LocalFilter.InOfList | lang/ql.py:373-376 | Against a list, `in` never raises and holds exactly when some element equals the value; `not_in` holds exactly when none does. |
| LocalFilter.ArrayContainsOfList | lang/ql.py:377-378 | On a list-valued field, `array_contains` never raises and holds exactly when some element equals the clause's value. |
| LocalFilter.ContainsAnyOfList | lang/ql.py:379-380 | Against a list-valued field it never raises, and holds exactly when each listed value equals some element. |
| LocalFilter.NestedPropertyIsCompared | lang/ql.py:389-391 | In any document, a clause on `a.b` applies its operator to field `b` of the nested dict `a`, unless a later field flattens to the same dotted name. |
| LocalFilter.NoLocalClausesKeepAll | lang/ql.py:394-402 | With no local clauses, or with no where at all, every record is kept in order. |
| LocalFilter.KeepAll | lang/ql.py:400 | An empty list of local clauses keeps every record. |
| LocalFilter.RemoteClauseIgnored | lang/ql.py:397-400 | A non-local clause, inserted anywhere, never changes the local filter's result. |
| LocalFilter.LocalsSkipRemote | lang/ql.py:398-399 | Selecting the local clauses drops a non-local clause wherever it stands. |
| LocalFilter.LocalsAppend | lang/ql.py:398-399 | Selecting local clauses distributes over concatenation. |
| LocalFilter.FilterKeepsExactlyMatching | lang/ql.py:394-402 | When no comparison raises, filtering succeeds. Each kept record then satisfies every local clause, and every satisfying record is kept. |
| LocalSort.Cmp | lang/ql.py:405-407 | `cmp` is -1, 0 or 1, agrees with Python's `<`/`>`, and is 0 exactly on equal values. |
| LocalSort.CmpAntisymmetric | lang/ql.py:405-407 | Swapping the arguments negates `cmp`. |
| LocalSort.CmpTransitive | lang/ql.py:405-407 | `cmp` is transitive in both directions. |
| LocalSort.ParseColumn | lang/ql.py:413-414 | A leading `-` reverses the order. The key is the rest, stripped. |
| LocalSort.ParseColumns | lang/ql.py:412-416 | One parsed column per column text, in order. |
| LocalSort.ColumnCmp | lang/ql.py:422-423 | One column's comparison is -1, 0 or 1. |
| LocalSort.Compare | lang/ql.py:418-426 | The comparer is -1, 0 or 1. |
| LocalSort.CompareReflexive | lang/ql.py:418-426 | A record compares equal to itself. |
| LocalSort.CompareAntisymmetric | lang/ql.py:418-426 | Swapping two records negates the comparer. |
| LocalSort.CompareTransitive | lang/ql.py:418-426 | On comparable records the comparer is transitive. |
| LocalSort.FirstColumnOrdered | lang/ql.py:418-426 | Records in comparer order have their first column in order: ascending, or reversed for `-`. |
| LocalSort.Insert | lang/ql.py:427 | Inserting adds exactly one copy of the record. |
| LocalSort.Sort | lang/ql.py:427 | The sort is a permutation. |
| LocalSort.InsertSorted | lang/ql.py:427 | Inserting into a sorted sequence keeps it sorted. |
| LocalSort.SortSorted | lang/ql.py:427 | The sort's output is sorted. |
| LocalSort.ClassInsertOther | lang/ql.py:427 | Inserting a record leaves unchanged every group of records that compare equal, except its own. |
| LocalSort.ClassInsertSame | lang/ql.py:427 | An inserted record goes after the records it compares equal to. |
| LocalSort.SortStable | lang/ql.py:427 | Every group of equal records keeps its input order. |
| LocalSort.SortIsStableSort | lang/ql.py:427 | The sort is a sorted, stable permutation. |
| LocalSort.SameHead | lang/ql.py:427 | Two sorted permutations with the same groups start with the same record. |
| LocalSort.SameTailClasses | lang/ql.py:427 | Dropping a common head keeps the groups equal. |
| LocalSort.SortedStableUnique | lang/ql.py:427 | Two sorted permutations with the same groups are equal. |
| LocalSort.StableSortIsUnique | lang/ql.py:427 | Any sorted, stable permutation of the records, `sorted`'s included, equals the model's sort. |
| LocalSort.NoColumnsKeepOrder | lang/ql.py:422-427 | With no columns the records keep their order. |
| LocalSort.MultiKeySort | lang/ql.py:410-427 | `multikeysort` returns a permutation of the records. It is sorted by the columns, the first non-zero column deciding and `-` negating. Records that compare equal keep their order. |
| LocalSort.OrderColumns | lang/ql.py:438-439 | One sort column per order clause, local or not, in order. |
| LocalSort.OrderByAsSortColumn | lang/ql.py:430-432 | `asc` gives the property as it is. The column starts with `-` exactly when the direction is not `asc` or the property itself starts with `-`, and any other direction prefixes the property with `-`. |
| LocalSort.OrderColumnsFollowDirections | lang/ql.py:430-432 | For a plain property name, the column reads that property and is reversed exactly when the direction is not `asc`. |
| LocalSort.DashedPropertyReversed | lang/ql.py:430-432 | An ascending property whose name starts with `-` is sorted descending by the rest of its name. |
| LocalSort.SortLocally | lang/ql.py:435-441 | Without an order clause the records are returned unchanged. With one, they are a sorted, stable permutation by every order clause. |
| LocalSort.EmptyOrderKeepsOrder | lang/ql.py:437-440 | An empty order list keeps the records in order. |
| Planner.Remotes | lang/ql.py:232-233 | The non-local clauses: an order-preserving subsequence holding every non-local clause and only those. It is the complement of the local clauses in count. |
| Planner.CorrectedOperator | lang/ql.py:235 | `not_in` becomes `not-in`. Every other operator passes through. |
| Planner.ApplyWheres | lang/ql.py:234-238 | One filter per clause is appended, in order, after the existing ones. Nothing else in the query changes. |
| Planner.AddWhereClauses | lang/ql.py:223-241 | Without a where the query is unchanged. Otherwise one filter per non-local clause is appended after the existing ones. Source, orderings and limit are unchanged. |
| Planner.RemoteOrders | lang/ql.py:212-213 | The non-local order clauses: an order-preserving subsequence holding every non-local clause and only those. |
| Planner.DirectionOf | lang/ql.py:215 | ASCENDING exactly when the direction is `asc`. |
| Planner.ApplyOrders | lang/ql.py:214-217 | One ordering per clause is appended, in order, after the existing ones. Nothing else in the query changes. |
| Planner.AddOrderByClauses | lang/ql.py:203-220 | Without an order clause the query is unchanged. Otherwise one ordering per non-local order clause is appended after the existing ones. Source, filters and limit are unchanged. |
| Planner.CollectionQuery | lang/ql.py:454-459 | The query sent has the given source and the select's limit. It has one filter per non-local where clause and one ordering per non-local order clause, and none of either without the clause. |
| Planner.ExecuteSelect | lang/ql.py:444-469 | A document select returns what was fetched. A collection select raises exactly when the local filter raises, with its error. The sort only needs the records the filter keeps to be comparable. |
| Planner.KeptWereFetched | lang/ql.py:461 | The local filter keeps only fetched records. |
| Planner.WhereClausesSplit | lang/ql.py:232-233 | Every where clause goes to exactly one side: pushed when not local, evaluated locally when local. |
| Planner.PushedFilters | lang/ql.py:223-239 | The filters sent are exactly the non-local clauses, in declaration order, with `not_in` renamed. |
| Planner.CollectionFilters | lang/ql.py:455-459 | The order clauses and the limit leave the filters of the where clauses unchanged. |
| Planner.PushedOrderings | lang/ql.py:203-218 | Only a select pushes orderings: exactly its non-local order clauses, in order, `asc` as ASCENDING and anything else as DESCENDING. |
| Planner.LimitOnlyForSelect | lang/ql.py:458-459 | The limit is that of a select. An update or delete sets none. |
| Planner.SelectResult | lang/ql.py:454-461 | A collection select returns the records the local filter keeps, each as often as it was fetched: exactly the fetched records that satisfy every local clause (sound and complete). With an order clause, they are a sorted, stable permutation by every order clause. Without one, they keep the fetched order. |
| Planner.Successes | lang/ql.py:282-291 | The count is at most the number of writes. It equals that number exactly when all succeed, and is 0 exactly when none do. |
| Planner.SuccessesAppend | lang/ql.py:284-289 | Counts add over concatenation. |
| Planner.CountSuccesses | lang/ql.py:282-291 | The `count += 1` loop returns the number of writes that did not raise. |
| Runner.AsResponses | lang/ql.py:244-270 | One response per selected record, in order, each the record itself. |
| Runner.ExecuteQuery | lang/ql.py:244-349 | A select returns its records, and raises exactly when the selection raises. An update or delete raises exactly when its selection raises. Otherwise it returns the number of writes that succeeded. That count is at most the number of selected records, and equal to it exactly when every write succeeds. A show lists the root collection names. An insert returns 1, and raises exactly when its document cannot be built. |
| Runner.Present | lang/ql.py:57-58 | `object_exists` keeps exactly the responses that are not None, in order, and all of them when none is None. |
| Runner.DocumentsOf | lang/ql.py:57-58 | One projected document per response, in order. It raises exactly when some projection raises. |
| Runner.Respond | lang/ql.py:54-65 | A count becomes `{"count": n}`. A record list raises exactly when projecting a present record raises. Otherwise it becomes the list of projected present records, or `{"count", "file"}` when the output is saved. |
| Runner.RunQuery | lang/ql.py:42-65 | A successful update, delete or insert responds with a dict whose only key is `count`. A select or show responds with a list exactly when its output is not saved. |
| Runner.WriteResponse | lang/ql.py:54-55 | An update or delete responds `{"count": n}`, where `n` is the number of writes that succeeded. `n` is at most the number of selected records. It raises exactly when its selection raises. |
| Runner.SelectStarResponse | lang/ql.py:57-65 | A `*` select whose output is not saved raises exactly when a selected record is a document that does not exist. Otherwise it responds with one document per selected record, in order: the record's data with `_path` set to its path. |
| Runner.StarDocuments | lang/ql.py:57-65 | For a `*` select whose output is not saved, the response to a list of records raises exactly when one of them does not exist. Otherwise it is the list of their documents, in order. |
| Runner.MissingRecordRaises | lang/ql.py:57-58 | A response to records of which one does not exist raises, whatever fields are requested. |
| Runner.MissingDocumentRaises | lang/ql.py:469 | A select whose document subject does not exist raises TypeError, because the snapshot has no data to take `_path`. |
| Runner.SavedResponse | lang/ql.py:60-63 | Once every record's projection succeeds, a saved output responds with the number of documents written and the file's path. |
| Runner.SavedStarResponse | lang/ql.py:57-63 | A saved `*` select raises exactly when a selected record does not exist. Otherwise it responds with the number of selected records and the file's path. |
| Transformer.LiteralEval | lang/transformer.py:113 | `literal_eval` succeeds exactly when the token has a literal value, and returns that value. |
| Transformer.AsValue | lang/transformer.py:98-113 | `NULL` gives None. `CNAME`, `ASC` and `DESC` give their raw text. Anything else is evaluated. |
| Transformer.EvalAll | lang/transformer.py:129-131 | An array is evaluated element by element, in order. It raises when any element does not evaluate. |
| Transformer.AsFiklMatch | lang/transformer.py:115-133 | A literal `null` is None, and any other literal is evaluated. An array is the list of its evaluated literals in order. Anything else is None. |
| Transformer.ArrayWithNullRaises | lang/transformer.py:129-131 | An array with an element that does not evaluate, `null` for one, raises. |
| Transformer.AsComparison | lang/transformer.py:158-166 | A comparison becomes `{property, operator, value, local}`, with `local` true exactly when a local node is present. |
| Transformer.AsComparisons | lang/transformer.py:168 | One where clause per comparison, in order. |
| Transformer.AsWhere | lang/transformer.py:153-168 | No where node gives None. Otherwise it gives every comparison in order, and raises exactly when a value does not evaluate. |
| Transformer.AsOrder | lang/transformer.py:203-219 | No order node gives None. Otherwise one order-by per sorter, in order. The direction is `asc` without a direction node and the node's text with one. `local` is true exactly when a local node is present. |
| Transformer.AsFields | lang/transformer.py:187-194 | `*` unless the subset is a fields node. A fields node gives its properties in order. |
| Transformer.AsSubjectType | lang/transformer.py:221-229 | `WITHIN` gives COLLECTION_GROUP, `FROM` gives COLLECTION and `AT` gives DOCUMENT, in both directions. |
| Transformer.AsOptionalValue | lang/transformer.py:135-145 | `_as_limit` and `_as_output`: an absent node gives None, a present one its value. |
| Transformer.AsOptionalText | lang/transformer.py:147-151 | `_as_function` (and `_as_group`): an absent node gives None, a present one its raw text. |
| Transformer.AsIdentifier | lang/transformer.py:170-175 | No identifier node gives None. Otherwise it gives the property's name. |
| Transformer.AsSetters | lang/transformer.py:177-185 | One setter per setter node, in order. It raises exactly when a value does not evaluate. |
| Transformer.DoSelect | lang/transformer.py:231-249 | A SELECT with every part mapped by its helper. It raises exactly when the where, limit or output raises. |
| Transformer.SelectDocument | lang/transformer.py:258-262 | A SELECT whose where, order, limit, group and function are all None. |
| Transformer.DoUpdate | lang/transformer.py:264-276 | An UPDATE with the mapped subject, subject type, where and setters. |
| Transformer.UpdateDocument | lang/transformer.py:282-284 | An UPDATE whose where is None. |
| Transformer.DoDelete | lang/transformer.py:286-296 | A DELETE with the mapped subject, subject type and where. |
| Transformer.DeleteDocument | lang/transformer.py:302-304 | A DELETE whose where is None. It never raises. |
| Transformer.ShowCollections | lang/transformer.py:306-315 | A SHOW with where None. The subject type defaults to DOCUMENT, and an absent subject is None. |
| Transformer.InsertDocument | lang/transformer.py:317-325 | An INSERT whose subject type is always COLLECTION. The identifier is None when no identifier node is given. |
| Transformer.TransformIsCanonical | lang/transformer.py:306-325 | No statement builds a SHOW with a where, or an INSERT outside a collection. |
| Transformer.KeywordOf | lang/transformer.py:221-229 | Every subject type has a keyword that maps to it. |
| Transformer.UnparseTransform | lang/transformer.py:231-325 | Every query of a shape the builders can produce is built from some statement. |
| Transformer.SelectRoundTrip | lang/transformer.py:231-249 | Transforming the statement tree unparsed from any select query gives back that query: `_do_select` loses none of its parts. |
| Transformer.UpdateRoundTrip | lang/transformer.py:264-284 | Transforming the statement tree unparsed from any update query gives back that query, with a where node or without one. |
| Transformer.WhereRoundTrip | lang/transformer.py:153-168 | Every where list is produced by some where node. |
| Transformer.OrderRoundTrip | lang/transformer.py:203-219 | Every order list is produced by some order node. |
| Transformer.SettersRoundTrip | lang/transformer.py:177-185 | Every setter list is produced by some set of setter nodes. |
| Transformer.FieldsRoundTrip | lang/transformer.py:187-194 | Both `*` and every field list are produced by some subset node. |

## Left out

- Firestore and file I/O are not modelled: the client, `.get()`, `.reference`, `collections()`,
  `output_json_to_file`, and the remote writes of `execute_update_query`,
  `execute_delete_query` and `execute_insert_query`. Instead:
  - the records a query returns are a parameter of `Planner.ExecuteSelect`;
  - the outcome of each write is a parameter of `Planner.CountSuccesses`;
  - a Firestore query is the value of the calls made on it (`Planner.StoreQuery`).
- `parse` inside `run_query`, and the wrapping of its exceptions in `QueryError`, are not
  modelled: `Runner.RunQuery` takes the parsed query, and an error is the `Err` it raises.
- `execute_show_query` only calls the client: the root collection names are a parameter of
  `Runner.ExecuteQuery`.
- `output_json_to_file` and `json.dumps` are not modelled: the saved file's path is a
  parameter of `Runner.Respond`.
- Update is described as expanding dotted setters the way insert does, but
  `execute_update_query` passes the flat merged setters to Firestore's `update`
  (lang/ql.py:304-308). The model follows the code. The remote write itself is not modelled,
  only its success count.
- The CLI (lang/cli.py), the entry point `lang/__main__.py` and the constants of `lang/__init__.py`
  are not part of this model.
- The Lark grammar, `parse`, `build_parse_tree`, `read_grammar` and `resource_path` are not part of
  this model; nor is `fikl.lark`. The parse tree is an abstract datatype. `find_data` is
  taken to return the nodes in the order they appear in the query. Which token types
  (`ASC`/`DESC` and their case) the grammar produces is not known here.
- `ast.literal_eval` is a foreign call. Each literal token carries the value it evaluates to, or
  none when it raises.
- `select_collection`, `update_collection` and `delete_collection` only forward their arguments.
  They are the `SelectCollectionStmt`, `UpdateCollectionStmt` and `DeleteCollectionStmt` cases
  of `Transformer.Transform`.
- `self.vars` is never used, and is not modelled. `object_exists` is modelled by
  `Runner.Present` and `Runner.ShouldOutput`.
- A snapshot's `exists` is its `found` field. The model does not stop a collection subject's
  records from being missing documents, although Firestore's stream never yields one. The
  local filter and sort read their data as given; only the projection looks at `found`.
- Floats are not modelled: values are ints, bools, strings, None, lists and dicts.
- `like`, paging, group-by and the count/distinct functions are not executed by the code.
  `group` and `function` are only parsed.
- `pydash.every` is taken to be `all(pred(x) for x in collection)`. It iterates list
  elements, string characters and dict keys, stops at the first false, and raises TypeError
  on anything else.
- `expand_key` writes into the dict it is given. `Documents.ExpandKey` returns the new dict
  instead. Its only caller passes a fresh `{}`, so no aliasing is lost.
- The where-clause errors of `local_compare` are not excluded by preconditions. A comparison
  that raises (int against str, `in` on a number) is modelled as the `Err` it raises.
- `LocalSort.MultiKeySort`: requires that every two records be comparable on every column:
  the key is present and both values are numbers or both strings. Python's `sorted` raises
  on a missing key or a mixed pair only if Timsort happens to compare that pair. The model
  states no result for inputs outside this precondition.
- `LocalSort.SortLocally`: the same precondition, for the parsed order columns.
- `Planner.ExecuteSelect`: the same precondition, through `Planner.SortableKept`, but only
  on the records the local filter keeps. Records it drops are never compared.
- `Runner.ExecuteQuery`, `Runner.RunQuery`: the same precondition as `Planner.ExecuteSelect`.
  An update or delete also needs one write outcome per selected record.
- NameToken: property, subject, direction and identifier tokens are restricted to tokens
  whose `_as_value` is a string. A literal there that fails to evaluate, or evaluates to a
  non-string, is not modelled; the grammar that decides which tokens occur there is not
  part of this model.
- `LocalSort.Sort`: `sorted` is Timsort. The model uses an insertion sort and proves
  (`LocalSort.StableSortIsUnique`) that every sorted stable permutation equals it, so the
  output is the same. The order of comparisons, which decides which error a bad input raises,
  is not modelled.
- Strings are compared by code point, with no Unicode normalisation.
