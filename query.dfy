/** The canonical query the transformer builds from a parse tree (the enums and TypedDicts of
    lang/transformer.py). One constructor per query type; a field the Python dict of that query
    type does not carry is absent from the constructor. */
module Query {
  import opened Values

  datatype QueryType = SELECT | UPDATE | DELETE | SHOW | INSERT

  datatype SubjectType = COLLECTION_GROUP | DOCUMENT | COLLECTION

  /** One comparison of a where clause; `local` forces client-side evaluation. */
  datatype Where = Where(property: string, operator: string, value: Value, local: bool)

  /** One sorter of an order by clause. */
  datatype OrderBy = OrderBy(property: string, direction: string, local: bool)

  /** One `property = literal` of a set clause. */
  datatype Setter = Setter(property: string, value: Value)

  /** The `fields` of a select: `"*"` or a list of (possibly dotted) field names. */
  datatype Fields = Star | Names(names: seq<string>)

  datatype Query =
    | Select(fields: Fields, subject: string, subjectType: SubjectType, where: Option<seq<Where>>,
             limit: Option<Value>, order: Option<seq<OrderBy>>, group: Option<string>,
             output: Option<Value>, aggregate: Option<string>)
    | Update(subject: string, subjectType: SubjectType, where: Option<seq<Where>>, setters: seq<Setter>)
    | Delete(subject: string, subjectType: SubjectType, where: Option<seq<Where>>)
    | Show(showSubject: Option<string>, subjectType: SubjectType, where: Option<seq<Where>>)
    | Insert(subject: string, subjectType: SubjectType, setters: seq<Setter>, identifier: Option<string>)
  {
    /** The `query_type` entry of the query. */
    function QueryTypeOf(): QueryType {
      match this
      case Select(_, _, _, _, _, _, _, _, _) => SELECT
      case Update(_, _, _, _) => UPDATE
      case Delete(_, _, _) => DELETE
      case Show(_, _, _) => SHOW
      case Insert(_, _, _, _) => INSERT
    }

    /** `fikl_query["where"]`; an insert query has no where entry. */
    function WhereOf(): Option<seq<Where>> {
      if Insert? then None else where
    }

    /** The order clause as `"order" in fikl_query and fikl_query["order"] is not None` sees
        it: only a select query carries one, and an empty list still counts as present. */
    function OrderOf(): Option<seq<OrderBy>> {
      if Select? then order else None
    }

    /** `fikl_query["fields"] if "fields" in fikl_query else "*"` */
    function RequestedFields(): Fields {
      if Select? then fields else Star
    }
  }
}
