/** Search filters (splunklite/ast.go) and the tables of fields they may use
    (splunklite/compile.go). */
module Filters {
  import opened Text

  datatype Result<+T> = Ok(value: T) | Err(error: string)

  /** What was found so far, before what is still to come. */
  function Behind<T>(found: seq<T>, rest: Result<seq<T>>): Result<seq<T>> {
    match rest
    case Err(m) => Err(m)
    case Ok(more) => Ok(found + more)
  }

  lemma BehindNothing<T>(rest: Result<seq<T>>)
    ensures Behind([], rest) == rest
  {
    if rest.Ok? { assert [] + rest.value == rest.value; }
  }

  lemma BehindMore<T>(found: seq<T>, x: T, rest: Result<seq<T>>)
    ensures Behind(found + [x], rest) == Behind(found, match rest case Err(m) => Err(m) case Ok(more) => Ok([x] + more))
  {
    if rest.Ok? { assert found + [x] + rest.value == found + ([x] + rest.value); }
  }

  datatype Op = Contains | Eq | Ne | Like | Regexp | Gt | Gte | Lt | Lte

  /** A Pred without field searches the text columns. */
  datatype Filter =
    | And(children: seq<Filter>)
    | Or(children: seq<Filter>)
    | Not(child: Filter)
    | Pred(field: string, op: Op, value: string)

  datatype Kind = Audit | Job | LogAccess | LogError | Unknown

  /** From field names to columns. */
  type Schema = map<string, string>

  const AUDIT_FIELDS: Schema := map[
    "user" := "user_email", "user_email" := "user_email", "action" := "action", "resource_type" := "resource_type",
    "resource_id" := "resource_id", "domain" := "domain", "status" := "status", "message" := "message"]

  const JOB_FIELDS: Schema := map[
    "job_type" := "job_type", "type" := "job_type", "name" := "name", "status" := "status",
    "output" := "output", "error" := "error", "message" := "name"]

  const LOG_ACCESS_FIELDS: Schema := map[
    "site" := "site", "status" := "status_code", "status_code" := "status_code",
    "message" := "raw_preview", "preview" := "raw_preview"]

  const LOG_ERROR_FIELDS: Schema := map[
    "site" := "site", "message" := "raw_preview", "preview" := "raw_preview"]

  function FieldsForKind(kind: Kind): Option<Schema> {
    match kind
    case Audit => Some(AUDIT_FIELDS)
    case Job => Some(JOB_FIELDS)
    case LogAccess => Some(LOG_ACCESS_FIELDS)
    case LogError => Some(LOG_ERROR_FIELDS)
    case Unknown => None
  }

  function FreeTextColumns(kind: Kind): seq<string> {
    match kind
    case Audit => ["user_email", "action", "message"]
    case Job => ["name", "output", "error", "job_type"]
    case LogAccess => ["site", "raw_preview"]
    case LogError => ["site", "raw_preview"]
    case Unknown => []
  }

  predicate IsComparison(op: Op) {
    op == Gt || op == Gte || op == Lt || op == Lte
  }

  /** Whether a source can answer the filter at all. */
  predicate Applicable(e: Filter, fields: Schema)
    decreases e, 1
  {
    match e
    case And(cs) => cs != [] && AllApplicable(cs, fields)
    case Or(cs) => AnyApplicable(cs, fields)
    case Not(c) => Applicable(c, fields)
    case Pred(field, op, _) => field == "" || LeafApplicable(field, op, fields)
  }

  predicate LeafApplicable(field: string, op: Op, fields: Schema) {
    field in fields && (IsComparison(op) ==> fields[field] == "status_code")
  }

  predicate AllApplicable(cs: seq<Filter>, fields: Schema)
    decreases cs, 0
  {
    cs == [] || (Applicable(cs[0], fields) && AllApplicable(cs[1..], fields))
  }

  predicate AnyApplicable(cs: seq<Filter>, fields: Schema)
    decreases cs, 0
  {
    cs != [] && (Applicable(cs[0], fields) || AnyApplicable(cs[1..], fields))
  }

  /** Every group has a child. */
  predicate Filled(f: Filter)
    decreases f, 1
  {
    match f
    case And(cs) => cs != [] && AllFilled(cs)
    case Or(cs) => cs != [] && AllFilled(cs)
    case Not(c) => Filled(c)
    case Pred(_, _, _) => true
  }

  predicate AllFilled(cs: seq<Filter>)
    decreases cs, 0
  {
    cs == [] || (Filled(cs[0]) && AllFilled(cs[1..]))
  }

  function FlattenAnd(e: Option<Filter>): seq<Filter> {
    match e
    case None => []
    case Some(And(cs)) => cs
    case Some(f) => [f]
  }

  /** And: both filters, without nesting conjunctions. */
  function Conjoin(a: Option<Filter>, b: Option<Filter>): Option<Filter> {
    if a == None then b
    else if b == None then a
    else
      var kids := FlattenAnd(a) + FlattenAnd(b);
      if |kids| == 1 then Some(kids[0]) else Some(And(kids))
  }

  method MergeAnd(a: Option<Filter>, b: Option<Filter>) returns (r: Option<Filter>)
    ensures r == Conjoin(a, b)
  {
    if a == None { return b; }
    if b == None { return a; }
    var kids: seq<Filter> := [];
    var first, second := FlattenAnd(a), FlattenAnd(b);
    for i := 0 to |first|
      invariant kids == first[..i]
    {
      kids := kids + [first[i]];
    }
    for i := 0 to |second|
      invariant kids == first + second[..i]
    {
      kids := kids + [second[i]];
    }
    assert second[..|second|] == second;
    return if |kids| == 1 then Some(kids[0]) else Some(And(kids));
  }

  function WithSiteScope(e: Option<Filter>, site: string): Option<Filter> {
    if TrimSpace(site) == "" then e else Conjoin(e, Some(Pred("site", Eq, TrimSpace(site))))
  }
}
