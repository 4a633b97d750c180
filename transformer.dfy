/** The mapping from a parse tree to a query (class FIKLTree of lang/transformer.py). The
    grammar and the parser are not part of this model: each parse-tree node is an abstract
    datatype carrying only what the transformer reads from it. A token carries its Lark type,
    its text and the value `ast.literal_eval` makes of that text (`None` when literal_eval
    raises). */
module Transformer {
  import opened Values
  import Q = Query

  datatype TokenType = CNAME | NULL | ASC | DESC | LITERAL

  datatype Token = Token(kind: TokenType, text: string, evaluated: Option<Value>)

  /** `ast.literal_eval(token.value)` */
  function LiteralEval(t: Token): (r: Result<Value>)
    ensures r.Ok? <==> t.evaluated.Some?
    ensures r.Ok? ==> r.value == t.evaluated.value
  {
    match t.evaluated
    case Some(v) => Ok(v)
    case None => Err(LiteralError)
  }

  /** `_as_value`: a name, `asc` or `desc` token stands for its own text, `null` for None, and
      any other token for the literal its text spells. */
  function AsValue(t: Token): (r: Result<Value>)
    ensures t.kind == NULL ==> r == Ok(Null)
    ensures t.kind in {CNAME, ASC, DESC} ==> r == Ok(Str(t.text))
    ensures t.kind == LITERAL ==> r == LiteralEval(t)
  {
    match t.kind
    case CNAME => Ok(Str(t.text))
    case NULL => Ok(Null)
    case DESC => Ok(Str(t.text))
    case ASC => Ok(Str(t.text))
    case LITERAL => LiteralEval(t)
  }

  /** A token whose `_as_value` is a string: what a property, subject or direction node holds
      wherever the query records it as a `str`. */
  type NameToken = t: Token | AsValue(t).Ok? && AsValue(t).value.Str? witness Token(CNAME, "", None)

  function Name(t: NameToken): string {
    AsValue(t).value.s
  }

  /** The child of a `matching` node. */
  datatype Matching = LiteralNode(literal: Token) | ArrayNode(elements: seq<Token>) | OtherNode

  /** The literal value of every element of an array, in order; the first element that is not a
      literal raises. */
  function EvalAll(ts: seq<Token>): (r: Result<seq<Value>>)
    ensures r.Ok? <==> forall i :: 0 <= i < |ts| ==> ts[i].evaluated.Some?
    ensures r.Ok? ==> |r.value| == |ts| && forall i :: 0 <= i < |ts| ==> r.value[i] == ts[i].evaluated.value
  {
    if ts == [] then Ok([])
    else
      var v :- LiteralEval(ts[0]);
      var vs :- EvalAll(ts[1..]);
      Ok([v] + vs)
  }

  /** `_as_fikl_match`: the text `null` of a literal is None, any other literal is evaluated,
      an array is the list of its evaluated literals (so a `null` element raises), anything
      else is None. */
  function AsFiklMatch(m: Matching): (r: Result<Value>)
    ensures m.LiteralNode? && m.literal.text == "null" ==> r == Ok(Null)
    ensures m.LiteralNode? && m.literal.text != "null" ==> r == LiteralEval(m.literal)
    ensures m.ArrayNode? ==> (r.Ok? <==> forall i :: 0 <= i < |m.elements| ==> m.elements[i].evaluated.Some?)
    ensures m.ArrayNode? && r.Ok? ==>
              r.value.List? && |r.value.items| == |m.elements| &&
              forall i :: 0 <= i < |m.elements| ==> r.value.items[i] == m.elements[i].evaluated.value
    ensures m.OtherNode? ==> r == Ok(Null)
  {
    match m
    case LiteralNode(t) => if t.text == "null" then Ok(Null) else LiteralEval(t)
    case ArrayNode(ts) =>
      var vs :- EvalAll(ts);
      Ok(List(vs))
    case OtherNode => Ok(Null)
  }

  /** A `comparrison` node: its property, the text of its operator, its matching node, and
      whether a `local` marker occurs under it. */
  datatype Comparison = Comparison(property: NameToken, operator: string, matching: Matching, hasLocal: bool)

  function AsComparison(c: Comparison): (r: Result<Q.Where>)
    ensures r.Ok? <==> AsFiklMatch(c.matching).Ok?
    ensures r.Ok? ==> r.value == Q.Where(Name(c.property), c.operator, AsFiklMatch(c.matching).value, c.hasLocal)
  {
    var v :- AsFiklMatch(c.matching);
    Ok(Q.Where(Name(c.property), c.operator, v, c.hasLocal))
  }

  function AsComparisons(cs: seq<Comparison>): (r: Result<seq<Q.Where>>)
    ensures r.Ok? <==> forall i :: 0 <= i < |cs| ==> AsComparison(cs[i]).Ok?
    ensures r.Ok? ==> |r.value| == |cs| && forall i :: 0 <= i < |cs| ==> r.value[i] == AsComparison(cs[i]).value
  {
    if cs == [] then Ok([])
    else
      var w :- AsComparison(cs[0]);
      var ws :- AsComparisons(cs[1..]);
      Ok([w] + ws)
  }

  /** `_as_where`: no where node gives None; otherwise every comparison, in order. */
  function AsWhere(where: Option<seq<Comparison>>): (r: Result<Option<seq<Q.Where>>>)
    ensures where.None? ==> r == Ok(None)
    ensures where.Some? ==> (r.Ok? <==> forall i :: 0 <= i < |where.value| ==> AsFiklMatch(where.value[i].matching).Ok?)
    ensures where.Some? && r.Ok? ==>
              r.value.Some? && |r.value.value| == |where.value| &&
              forall i :: 0 <= i < |where.value| ==>
                var c := where.value[i];
                r.value.value[i] == Q.Where(Name(c.property), c.operator, AsFiklMatch(c.matching).value, c.hasLocal)
  {
    match where
    case None => Ok(None)
    case Some(cs) =>
      var ws :- AsComparisons(cs);
      Ok(Some(ws))
  }

  /** A `sorter` node: its property, its direction node if there is one, and whether a `local`
      marker occurs under it. */
  datatype Sorter = Sorter(property: NameToken, direction: Option<NameToken>, hasLocal: bool)

  function AsOrderBy(s: Sorter): Q.OrderBy {
    Q.OrderBy(Name(s.property), if s.direction.None? then "asc" else Name(s.direction.value), s.hasLocal)
  }

  /** `_as_order`: no order node gives None; otherwise one order by per sorter, in order. */
  function AsOrder(order: Option<seq<Sorter>>): (r: Option<seq<Q.OrderBy>>)
    ensures order.None? <==> r.None?
    ensures order.Some? ==>
              |r.value| == |order.value| &&
              forall i :: 0 <= i < |order.value| ==>
                var s := order.value[i];
                && r.value[i].property == Name(s.property)
                && r.value[i].direction == (if s.direction.None? then "asc" else Name(s.direction.value))
                && r.value[i].local == s.hasLocal
  {
    match order
    case None => None
    case Some(ss) => Some(seq(|ss|, i requires 0 <= i < |ss| => AsOrderBy(ss[i])))
  }

  /** The first child of a select's subset: a `fields` node listing properties, or `*`. */
  datatype Subset = FieldsNode(properties: seq<NameToken>) | StarNode

  /** `_as_fields` */
  function AsFields(s: Subset): (r: Q.Fields)
    ensures s.StarNode? <==> r.Star?
    ensures s.FieldsNode? ==>
              |r.names| == |s.properties| &&
              forall i :: 0 <= i < |s.properties| ==> r.names[i] == Name(s.properties[i])
  {
    match s
    case StarNode => Q.Star
    case FieldsNode(ps) => Q.Names(seq(|ps|, i requires 0 <= i < |ps| => Name(ps[i])))
  }

  /** The keyword token of a subject-type node. */
  datatype SubjectKeyword = WITHIN | FROM | AT

  /** `_as_subject_type` */
  function AsSubjectType(k: SubjectKeyword): (r: Q.SubjectType)
    ensures r == Q.COLLECTION_GROUP <==> k == WITHIN
    ensures r == Q.COLLECTION <==> k == FROM
    ensures r == Q.DOCUMENT <==> k == AT
  {
    match k
    case WITHIN => Q.COLLECTION_GROUP
    case FROM => Q.COLLECTION
    case AT => Q.DOCUMENT
  }

  /** `_as_limit` and `_as_output`: an absent node gives None, a present one its value. */
  function AsOptionalValue(node: Option<Token>): (r: Result<Option<Value>>)
    ensures node.None? ==> r == Ok(None)
    ensures node.Some? ==> (r.Ok? <==> AsValue(node.value).Ok?)
    ensures node.Some? && r.Ok? ==> r.value == Some(AsValue(node.value).value)
  {
    match node
    case None => Ok(None)
    case Some(t) =>
      var v :- AsValue(t);
      Ok(Some(v))
  }

  /** `_as_group` and `_as_function`: the raw text of the node's first token. */
  function AsOptionalText(node: Option<Token>): (r: Option<string>)
    ensures node.None? <==> r.None?
    ensures node.Some? ==> r.value == node.value.text
  {
    match node
    case None => None
    case Some(t) => Some(t.text)
  }

  /** `_as_identifier` */
  function AsIdentifier(identifier: Option<NameToken>): (r: Option<string>)
    ensures identifier.None? <==> r.None?
    ensures identifier.Some? ==> r.value == Name(identifier.value)
  {
    match identifier
    case None => None
    case Some(t) => Some(Name(t))
  }

  /** A `setter` node. */
  datatype SetterNode = SetterNode(property: NameToken, matching: Matching)

  /** `_as_setters`: one setter per setter node, in order. */
  function AsSetters(ss: seq<SetterNode>): (r: Result<seq<Q.Setter>>)
    ensures r.Ok? <==> forall i :: 0 <= i < |ss| ==> AsFiklMatch(ss[i].matching).Ok?
    ensures r.Ok? ==>
              |r.value| == |ss| &&
              forall i :: 0 <= i < |ss| ==>
                r.value[i] == Q.Setter(Name(ss[i].property), AsFiklMatch(ss[i].matching).value)
  {
    if ss == [] then Ok([])
    else
      var v :- AsFiklMatch(ss[0].matching);
      var rest :- AsSetters(ss[1..]);
      Ok([Q.Setter(Name(ss[0].property), v)] + rest)
  }

  // ---------------------------------------------------------------------------
  // Statement builders.
  // ---------------------------------------------------------------------------

  /** `_do_select` */
  function DoSelect(aggregate: Option<Token>, subset: Subset, subjectType: SubjectKeyword, subject: NameToken,
                    where: Option<seq<Comparison>>, order: Option<seq<Sorter>>, limit: Option<Token>,
                    group: Option<Token>, output: Option<Token>): (r: Result<Q.Query>)
    ensures r.Ok? <==> AsWhere(where).Ok? && AsOptionalValue(limit).Ok? && AsOptionalValue(output).Ok?
    ensures r.Ok? ==>
              && r.value.Select?
              && r.value.fields == AsFields(subset)
              && r.value.subject == Name(subject)
              && r.value.subjectType == AsSubjectType(subjectType)
              && r.value.where == AsWhere(where).value
              && r.value.limit == AsOptionalValue(limit).value
              && r.value.order == AsOrder(order)
              && r.value.group == AsOptionalText(group)
              && r.value.output == AsOptionalValue(output).value
              && r.value.aggregate == AsOptionalText(aggregate)
  {
    var w :- AsWhere(where);
    var l :- AsOptionalValue(limit);
    var o :- AsOptionalValue(output);
    Ok(Q.Select(AsFields(subset), Name(subject), AsSubjectType(subjectType), w, l, AsOrder(order),
                AsOptionalText(group), o, AsOptionalText(aggregate)))
  }

  /** `select_document`: a select with no where, order, limit, group or function. */
  function SelectDocument(subset: Subset, subjectType: SubjectKeyword, subject: NameToken, output: Option<Token>)
    : (r: Result<Q.Query>)
    ensures r.Ok? <==> AsOptionalValue(output).Ok?
    ensures r.Ok? ==>
              && r.value.Select?
              && r.value.fields == AsFields(subset)
              && r.value.subject == Name(subject)
              && r.value.subjectType == AsSubjectType(subjectType)
              && r.value.where.None? && r.value.limit.None? && r.value.order.None?
              && r.value.group.None? && r.value.aggregate.None?
              && r.value.output == AsOptionalValue(output).value
  {
    DoSelect(None, subset, subjectType, subject, None, None, None, None, output)
  }

  /** `_do_update` */
  function DoUpdate(subjectType: SubjectKeyword, subject: NameToken, setters: seq<SetterNode>,
                    where: Option<seq<Comparison>>): (r: Result<Q.Query>)
    ensures r.Ok? <==> AsWhere(where).Ok? && AsSetters(setters).Ok?
    ensures r.Ok? ==>
              r.value == Q.Update(Name(subject), AsSubjectType(subjectType), AsWhere(where).value,
                                  AsSetters(setters).value)
  {
    var w :- AsWhere(where);
    var s :- AsSetters(setters);
    Ok(Q.Update(Name(subject), AsSubjectType(subjectType), w, s))
  }

  /** `update_document`: an update with no where. */
  function UpdateDocument(subjectType: SubjectKeyword, subject: NameToken, setters: seq<SetterNode>)
    : (r: Result<Q.Query>)
    ensures r.Ok? <==> AsSetters(setters).Ok?
    ensures r.Ok? ==> r.value.Update? && r.value.where.None? && r.value.setters == AsSetters(setters).value
  {
    DoUpdate(subjectType, subject, setters, None)
  }

  /** `_do_delete` */
  function DoDelete(subjectType: SubjectKeyword, subject: NameToken, where: Option<seq<Comparison>>)
    : (r: Result<Q.Query>)
    ensures r.Ok? <==> AsWhere(where).Ok?
    ensures r.Ok? ==> r.value == Q.Delete(Name(subject), AsSubjectType(subjectType), AsWhere(where).value)
  {
    var w :- AsWhere(where);
    Ok(Q.Delete(Name(subject), AsSubjectType(subjectType), w))
  }

  /** `delete_document`: a delete with no where. */
  function DeleteDocument(subjectType: SubjectKeyword, subject: NameToken): (r: Result<Q.Query>)
    ensures r.Ok? && r.value.Delete? && r.value.where.None?
    ensures r.value.subject == Name(subject) && r.value.subjectType == AsSubjectType(subjectType)
  {
    DoDelete(subjectType, subject, None)
  }

  /** `show_collections`: the subject type defaults to DOCUMENT, an absent subject is None, and
      there is never a where. */
  function ShowCollections(subjectType: Option<SubjectKeyword>, subject: Option<NameToken>): (r: Q.Query)
    ensures r.Show? && r.where.None?
    ensures subjectType.None? ==> r.subjectType == Q.DOCUMENT
    ensures subjectType.Some? ==> r.subjectType == AsSubjectType(subjectType.value)
    ensures subject.None? <==> r.showSubject.None?
    ensures subject.Some? ==> r.showSubject.value == Name(subject.value)
  {
    var st := if subjectType.Some? then AsSubjectType(subjectType.value) else Q.DOCUMENT;
    Q.Show(if subject.None? then None else Some(Name(subject.value)), st, None)
  }

  /** `insert_document`: the subject type is always COLLECTION. */
  function InsertDocument(subject: NameToken, setters: seq<SetterNode>, identifier: Option<NameToken>)
    : (r: Result<Q.Query>)
    ensures r.Ok? <==> AsSetters(setters).Ok?
    ensures r.Ok? ==>
              r.value == Q.Insert(Name(subject), Q.COLLECTION, AsSetters(setters).value, AsIdentifier(identifier))
  {
    var s :- AsSetters(setters);
    Ok(Q.Insert(Name(subject), Q.COLLECTION, s, AsIdentifier(identifier)))
  }

  // ---------------------------------------------------------------------------
  // Every statement the transformer handles, and the queries it can produce.
  // ---------------------------------------------------------------------------

  /** The statement nodes whose callbacks build a query. A collection update or delete carries
      its where node. */
  datatype Statement =
    | SelectCollectionStmt(aggregate: Option<Token>, subset: Subset, keyword: SubjectKeyword, subject: NameToken,
                           where: Option<seq<Comparison>>, order: Option<seq<Sorter>>, limit: Option<Token>,
                           group: Option<Token>, output: Option<Token>)
    | SelectDocumentStmt(subset: Subset, keyword: SubjectKeyword, subject: NameToken, output: Option<Token>)
    | UpdateCollectionStmt(keyword: SubjectKeyword, subject: NameToken, setters: seq<SetterNode>,
                           comparisons: seq<Comparison>)
    | UpdateDocumentStmt(keyword: SubjectKeyword, subject: NameToken, setters: seq<SetterNode>)
    | DeleteCollectionStmt(keyword: SubjectKeyword, subject: NameToken, comparisons: seq<Comparison>)
    | DeleteDocumentStmt(keyword: SubjectKeyword, subject: NameToken)
    | ShowStmt(showKeyword: Option<SubjectKeyword>, showSubject: Option<NameToken>)
    | InsertStmt(subject: NameToken, setters: seq<SetterNode>, identifier: Option<NameToken>)

  /** The query the transformer builds for a statement. */
  function Transform(s: Statement): Result<Q.Query> {
    match s
    case SelectCollectionStmt(f, sub, k, subj, w, o, l, g, out) => DoSelect(f, sub, k, subj, w, o, l, g, out)
    case SelectDocumentStmt(sub, k, subj, out) => SelectDocument(sub, k, subj, out)
    case UpdateCollectionStmt(k, subj, ss, cs) => DoUpdate(k, subj, ss, Some(cs))
    case UpdateDocumentStmt(k, subj, ss) => UpdateDocument(k, subj, ss)
    case DeleteCollectionStmt(k, subj, cs) => DoDelete(k, subj, Some(cs))
    case DeleteDocumentStmt(k, subj) => DeleteDocument(k, subj)
    case ShowStmt(k, subj) => Ok(ShowCollections(k, subj))
    case InsertStmt(subj, ss, id) => InsertDocument(subj, ss, id)
  }

  /** The shapes of query the transformer can build: a show never has a where, an insert always
      targets a collection. */
  predicate Canonical(q: Q.Query) {
    match q
    case Show(_, _, w) => w.None?
    case Insert(_, st, _, _) => st == Q.COLLECTION
    case _ => true
  }

  lemma TransformIsCanonical(s: Statement)
    requires Transform(s).Ok?
    ensures Canonical(Transform(s).value)
  {
  }

  // A parse tree that builds a given canonical query: the inverse of Transform.

  function NameOf(s: string): NameToken {
    Token(CNAME, s, None)
  }


  function ValueToken(v: Value): Token {
    Token(LITERAL, "", Some(v))
  }

  function MatchingOf(v: Value): Matching {
    LiteralNode(ValueToken(v))
  }

  function KeywordOf(st: Q.SubjectType): (k: SubjectKeyword)
    ensures AsSubjectType(k) == st
  {
    match st
    case COLLECTION_GROUP => WITHIN
    case COLLECTION => FROM
    case DOCUMENT => AT
  }

  function ComparisonOf(w: Q.Where): Comparison {
    Comparison(NameOf(w.property), w.operator, MatchingOf(w.value), w.local)
  }

  function SorterOf(o: Q.OrderBy): Sorter {
    Sorter(NameOf(o.property), Some(NameOf(o.direction)), o.local)
  }

  function SetterOf(s: Q.Setter): SetterNode {
    SetterNode(NameOf(s.property), MatchingOf(s.value))
  }

  function SubsetOf(f: Q.Fields): Subset {
    match f
    case Star => StarNode
    case Names(ns) => FieldsNode(seq(|ns|, i requires 0 <= i < |ns| => NameOf(ns[i])))
  }

  function OptionalValueToken(v: Option<Value>): Option<Token> {
    match v
    case None => None
    case Some(x) => Some(ValueToken(x))
  }

  function OptionalTextToken(t: Option<string>): Option<Token> {
    match t
    case None => None
    case Some(x) => Some(Token(CNAME, x, None))
  }

  function OptionalNameOf(t: Option<string>): Option<NameToken> {
    match t
    case None => None
    case Some(x) => Some(NameOf(x))
  }

  function WhereNodes(w: Option<seq<Q.Where>>): Option<seq<Comparison>> {
    match w
    case None => None
    case Some(ws) => Some(seq(|ws|, i requires 0 <= i < |ws| => ComparisonOf(ws[i])))
  }

  function OrderNodes(o: Option<seq<Q.OrderBy>>): Option<seq<Sorter>> {
    match o
    case None => None
    case Some(os) => Some(seq(|os|, i requires 0 <= i < |os| => SorterOf(os[i])))
  }

  function SetterNodes(ss: seq<Q.Setter>): seq<SetterNode> {
    seq(|ss|, i requires 0 <= i < |ss| => SetterOf(ss[i]))
  }

  /** A statement whose transformation is `q`. */
  function Unparse(q: Q.Query): Statement {
    match q
    case Select(f, subj, st, w, l, o, g, out, a) =>
      SelectCollectionStmt(OptionalTextToken(a), SubsetOf(f), KeywordOf(st), NameOf(subj), WhereNodes(w),
                           OrderNodes(o), OptionalValueToken(l), OptionalTextToken(g), OptionalValueToken(out))
    case Update(subj, st, w, ss) =>
      if w.None? then UpdateDocumentStmt(KeywordOf(st), NameOf(subj), SetterNodes(ss))
      else UpdateCollectionStmt(KeywordOf(st), NameOf(subj), SetterNodes(ss), WhereNodes(w).value)
    case Delete(subj, st, w) =>
      if w.None? then DeleteDocumentStmt(KeywordOf(st), NameOf(subj))
      else DeleteCollectionStmt(KeywordOf(st), NameOf(subj), WhereNodes(w).value)
    case Show(subj, st, _) => ShowStmt(Some(KeywordOf(st)), OptionalNameOf(subj))
    case Insert(subj, _, ss, id) => InsertStmt(NameOf(subj), SetterNodes(ss), OptionalNameOf(id))
  }

  /** Every query of a canonical shape is built by some statement: the transformer loses no
      query shape it claims to build. */
  lemma UnparseTransform(q: Q.Query)
    requires Canonical(q)
    ensures Transform(Unparse(q)) == Ok(q)
  {
    match q
    case Select(_, _, _, _, _, _, _, _, _) => SelectRoundTrip(q);
    case Update(_, _, _, _) => UpdateRoundTrip(q);
    case Delete(_, _, w) => WhereRoundTrip(w);
    case Show(_, _, _) =>
    case Insert(_, _, ss, _) => SettersRoundTrip(ss);
  }

  lemma SelectRoundTrip(q: Q.Query)
    requires q.Select?
    ensures Transform(Unparse(q)) == Ok(q)
  {
    FieldsRoundTrip(q.fields);
    WhereRoundTrip(q.where);
    OrderRoundTrip(q.order);
    OptionalValueRoundTrip(q.limit);
    OptionalValueRoundTrip(q.output);
    OptionalTextRoundTrip(q.group);
    OptionalTextRoundTrip(q.aggregate);
  }

  lemma UpdateRoundTrip(q: Q.Query)
    requires q.Update?
    ensures Transform(Unparse(q)) == Ok(q)
  {
    WhereRoundTrip(q.where);
    SettersRoundTrip(q.setters);
  }

  lemma OptionalValueRoundTrip(v: Option<Value>)
    ensures AsOptionalValue(OptionalValueToken(v)) == Ok(v)
  {
  }

  lemma OptionalTextRoundTrip(t: Option<string>)
    ensures AsOptionalText(OptionalTextToken(t)) == t
  {
  }

  lemma WhereRoundTrip(w: Option<seq<Q.Where>>)
    ensures AsWhere(WhereNodes(w)) == Ok(w)
  {
    if w.Some? {
      var r := AsWhere(WhereNodes(w));
      assert r.Ok?;
      assert r.value.value == w.value;
    }
  }

  lemma OrderRoundTrip(o: Option<seq<Q.OrderBy>>)
    ensures AsOrder(OrderNodes(o)) == o
  {
    if o.Some? {
      assert AsOrder(OrderNodes(o)).value == o.value;
    }
  }

  lemma SettersRoundTrip(ss: seq<Q.Setter>)
    ensures AsSetters(SetterNodes(ss)) == Ok(ss)
  {
    var r := AsSetters(SetterNodes(ss));
    assert r.Ok?;
    assert r.value == ss;
  }

  lemma FieldsRoundTrip(f: Q.Fields)
    ensures AsFields(SubsetOf(f)) == f
  {
    if f.Names? {
      assert AsFields(SubsetOf(f)).names == f.names;
    }
  }

  /** An array with a `null` element raises: literal_eval does not know `null`. */
  lemma ArrayWithNullRaises(ts: seq<Token>, i: nat)
    requires i < |ts| && ts[i].evaluated.None?
    ensures AsFiklMatch(ArrayNode(ts)).Err?
  {
  }
}
