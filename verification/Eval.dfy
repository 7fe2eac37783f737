/** Evaluating filters on events of the live tail (splunklite/eval_filter.go). */
module Eval {
  import opened Text
  import opened Filters

  /** A query event; its metadata as they are printed. */
  datatype Event = Event(source: string, action: string, user: string, message: string, meta: map<string, string>)

  /** regexp.MatchString on pattern and value; false for a bad pattern. */
  type Matcher = (string, string) -> bool

  predicate ContainsFold(value: string, sub: string) {
    HasSub(ToLower(value), ToLower(sub))
  }

  predicate EqualFold(a: string, b: string) {
    ToLower(a) == ToLower(b)
  }

  lemma EqualIsContained(v: string, value: string)
    requires EqualFold(v, value)
    ensures ContainsFold(v, value)
  {
    assert ToLower(v)[0..] == ToLower(v);
    assert HasPrefix(ToLower(v)[0..], ToLower(value));
  }

  /** A pattern in which a star stands for any characters on one line. */
  predicate Glob(v: string, p: string)
    decreases |v| + |p|
  {
    if p == "" then v == ""
    else if p[0] == '*' then Glob(v, p[1..]) || (v != "" && v[0] != '\n' && Glob(v[1..], p))
    else v != "" && v[0] == p[0] && Glob(v[1..], p[1..])
  }

  predicate MatchWildcard(value: string, pattern: string) {
    if HasSub(ToLower(pattern), "*") then Glob(ToLower(value), ToLower(pattern))
    else ToLower(value) == ToLower(pattern) || ContainsFold(value, pattern)
  }

  function MetaValue(ev: Event, key: string): Option<string> {
    if key in ev.meta then Some(ev.meta[key]) else None
  }

  function EventFieldValue(ev: Event, field: string, kind: Kind): Option<string> {
    NamedValue(ev, ToLower(TrimSpace(field)), kind)
  }

  function NamedValue(ev: Event, field: string, kind: Kind): Option<string> {
    if field in ["status", "status_code"] then
      if kind == LogAccess then MetaValue(ev, "status_code")
      else if kind == Audit || kind == Job then
        if MetaValue(ev, "status").Some? then MetaValue(ev, "status")
        else if kind == Job && ev.message != "" then Some("")
        else None
      else None
    else if field == "site" then MetaValue(ev, "site")
    else if field == "source" then Some(ev.source)
    else if field in ["action", "job_type", "type"] then Some(ev.action)
    else if field in ["user", "user_email", "email"] then Some(ev.user)
    else if field in ["message", "output", "error", "name", "preview"] then Some(ev.message)
    else MetaValue(ev, field)
  }

  function EventColumnValue(ev: Event, column: string, kind: Kind): Option<string> {
    if column == "user_email" then Some(ev.user)
    else if column == "action" then Some(ev.action)
    else if column in ["message", "raw_preview", "name", "output", "error", "job_type"] then Some(ev.message)
    else if column == "site" then MetaValue(ev, "site")
    else EventFieldValue(ev, column, kind)
  }

  predicate EvalFreeText(op: Op, value: string, ev: Event, kind: Kind, rx: Matcher) {
    exists i ::
      0 <= i < |FreeTextColumns(kind)| &&
      EvalColumn(op, value, EventColumnValue(ev, FreeTextColumns(kind)[i], kind), rx)
  }

  predicate EvalColumn(op: Op, value: string, v: Option<string>, rx: Matcher) {
    v.Some? &&
    match op
    case Regexp => rx(value, v.value)
    case Like => MatchWildcard(v.value, value)
    case _ => ContainsFold(v.value, value)
  }

  predicate Compared(op: Op, a: int, b: int) {
    match op
    case Gt => a > b
    case Gte => a >= b
    case Lt => a < b
    case Lte => a <= b
    case _ => false
  }

  predicate EvalValue(op: Op, value: string, v: string, rx: Matcher) {
    match op
    case Regexp => rx(value, v)
    case Like => MatchWildcard(v, value)
    case Eq => if HasSub(value, "*") then MatchWildcard(v, value) else EqualFold(v, value) || ContainsFold(v, value)
    case Ne => !EqualFold(v, value)
    case Contains => ContainsFold(v, value)
    case _ =>
      var a, b := Atoi(TrimSpace(v)), Atoi(TrimSpace(value));
      a.Some? && b.Some? && Compared(op, a.value, b.value)
  }

  predicate EvalPred(field: string, op: Op, value: string, ev: Event, kind: Kind, fields: Schema, rx: Matcher) {
    if field == "" then EvalFreeText(op, value, ev, kind, rx)
    else
      field in fields && EventFieldValue(ev, field, kind).Some? &&
      EvalValue(op, value, EventFieldValue(ev, field, kind).value, rx)
  }

  predicate EvalNode(e: Filter, ev: Event, kind: Kind, fields: Schema, rx: Matcher)
    decreases e, 1
  {
    match e
    case And(cs) => EvalAll(cs, ev, kind, fields, rx)
    case Or(cs) => EvalAny(cs, ev, kind, fields, rx)
    case Not(c) => !EvalNode(c, ev, kind, fields, rx)
    case Pred(field, op, value) => EvalPred(field, op, value, ev, kind, fields, rx)
  }

  predicate EvalAll(cs: seq<Filter>, ev: Event, kind: Kind, fields: Schema, rx: Matcher)
    decreases cs, 0
  {
    cs == [] || (EvalNode(cs[0], ev, kind, fields, rx) && EvalAll(cs[1..], ev, kind, fields, rx))
  }

  predicate EvalAny(cs: seq<Filter>, ev: Event, kind: Kind, fields: Schema, rx: Matcher)
    decreases cs, 0
  {
    cs != [] && (EvalNode(cs[0], ev, kind, fields, rx) || EvalAny(cs[1..], ev, kind, fields, rx))
  }

  predicate EvalFilter(e: Option<Filter>, ev: Event, kind: Kind, rx: Matcher) {
    e == None ||
    (FieldsForKind(kind).Some? && Applicable(e.value, FieldsForKind(kind).value) &&
     EvalNode(e.value, ev, kind, FieldsForKind(kind).value, rx))
  }
}
