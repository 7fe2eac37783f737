/** Concrete table rows and the events made from them (splunklite/service.go), so that
    single comparisons need no assumption. */
module Rows {
  import opened Text
  import opened Filters
  import opened Sql
  import opened Clauses
  import opened Compile
  import opened Eval
  import opened Agreement
  import opened Correctness
  import opened Applicability
  import opened Nulls
  import opened Wildcard

  /** Rows of the tables audit_logs, job_runs and log_events; `meta` is what the JSON
      column of an audit row holds. */
  datatype TableRow =
    | AuditRow(user: string, action: string, resourceType: string, resourceId: string, domain: string,
               status: string, message: string, meta: map<string, string>)
    | JobRow(jobType: string, name: string, status: string, output: string, error: string)
    | LogRow(access: bool, site: string, statusCode: Option<nat>, bytes: Option<nat>, preview: string)

  function KindOf(r: TableRow): Kind {
    match r
    case AuditRow(_, _, _, _, _, _, _, _) => Audit
    case JobRow(_, _, _, _, _) => Job
    case LogRow(access, _, _, _, _) => if access then LogAccess else LogError
  }

  function Printed(n: Option<nat>): Option<string> {
    if n.Some? then Some(Decimal(n.value)) else None
  }

  /** The columns that filters can name, as text; None is NULL. */
  function Columns(r: TableRow): map<string, Option<string>> {
    match r
    case AuditRow(user, action, resourceType, resourceId, domain, status, message, _) =>
      map["user_email" := Some(user), "action" := Some(action), "resource_type" := Some(resourceType),
          "resource_id" := Some(resourceId), "domain" := Some(domain), "status" := Some(status),
          "message" := Some(message)]
    case JobRow(jobType, name, status, output, error) =>
      map["job_type" := Some(jobType), "name" := Some(name), "status" := Some(status), "output" := Some(output),
          "error" := Some(error)]
    case LogRow(_, site, statusCode, _, preview) =>
      map["site" := Some(site), "status_code" := Printed(statusCode), "raw_preview" := Some(preview)]
  }

  function With(meta: map<string, string>, key: string, v: Option<string>): map<string, string> {
    if v.Some? then meta[key := v.value] else meta
  }

  /** mapAuditEvents, mapJobEvents, mapLogEvents. */
  function EventOf(r: TableRow): Event {
    match r
    case AuditRow(user, action, resourceType, resourceId, domain, status, message, meta) =>
      Event("audit", action, user, message,
            meta["resource_type" := resourceType]["resource_id" := resourceId]["domain" := domain]["status" := status])
    case JobRow(jobType, name, status, output, error) =>
      Event("job", jobType, "", if error != "" then error else if output != "" then output else name,
            map["name" := name, "status" := status])
    case LogRow(access, site, statusCode, bytes, preview) =>
      Event(if access then "access" else "error", "log.line", "", preview,
            With(With(map["site" := site], "status_code", Printed(statusCode)), "bytes", Printed(bytes)))
  }

  // ---------- what the database makes of a comparison ----------

  function TruthOf(b: bool): Truth {
    if b then Yes else No
  }

  /** The REGEXP function that is registered with SQLite: NULL counts as empty text, an empty
      pattern matches everything, and empty text matches no other pattern. */
  predicate RegexpFn(pattern: string, v: Option<string>, rx: Matcher) {
    pattern == "" || (v.Some? && v.value != "" && rx(pattern, v.value))
  }

  function NameOf(o: Operand): string {
    match o case Col(name) => name case CastCol(name, _) => name
  }

  /** An integer column, or one cast to integer. */
  predicate Numeric(o: Operand) {
    o == Col("status_code") || (o.CastCol? && o.cast == AsInteger)
  }

  predicate NumbersCompare(cmp: Cmp, a: int, b: int) {
    match cmp
    case EqOp => a == b
    case NeOp => a != b
    case GtOp => a > b
    case GeOp => a >= b
    case LtOp => a < b
    case LeOp => a <= b
    case _ => false
  }

  /** Text without any digit is no number; text with digits may be one that is written in some
      other way. */
  predicate NoNumber(s: string) {
    forall c <- s :: !('0' <= c <= '9')
  }

  /** A number against text that is none: numbers come first. */
  predicate BeforeText(cmp: Cmp) {
    cmp == NeOp || cmp == LtOp || cmp == LeOp
  }

  /** A row of the database. Comparisons that no filter uses, and those of numbers with text
      that has digits without being a plain number, come out in any way. */
  function RowOf(r: TableRow, rx: Matcher, other: Row): Row {
    (t: Test, a: string) =>
      if NameOf(t.operand) !in Columns(r) then other(t, a)
      else Compares(t, a, Columns(r)[NameOf(t.operand)], rx, other)
  }

  function Compares(t: Test, a: string, v: Option<string>, rx: Matcher, other: Row): Truth {
    if t.cmp == RegexpOp then TruthOf(RegexpFn(a, v, rx))
    else if v.None? then Null
    else if t.cmp == LikeOp then TruthOf(LikeMatch(v.value, a, t.escaped))
    else if Numeric(t.operand) then
      if Digits(v.value).Some? && Digits(a).Some? then
        TruthOf(NumbersCompare(t.cmp, Digits(v.value).value, Digits(a).value))
      else if NoNumber(a) then TruthOf(BeforeText(t.cmp))
      else other(t, a)
    else if t.cmp == EqOp then TruthOf(v.value == a)
    else if t.cmp == NeOp then TruthOf(v.value != a)
    else other(t, a)
  }

  // ---------- LIKE as a search ----------

  predicate NoLikeMeta(s: string) {
    '%' !in s && '_' !in s
  }

  lemma {:induction false} LikePrefix(v: string, p: string)
    requires NoLikeMeta(p)
    ensures LikeMatch(v, p + "%", false) <==> HasPrefix(ToLower(v), ToLower(p))
    decreases |p|
  {
    if p == "" {
      assert p + "%" == "%";
      LikeAnything(v);
    } else {
      var q := p + "%";
      assert q[0] == p[0] && q[1..] == p[1..] + "%";
      assert '%' !in p[1..] && '_' !in p[1..] by { assert forall c <- p[1..] :: c in p; }
      if v != "" {
        LikePrefix(v[1..], p[1..]);
        PrefixStep(ToLower(v), ToLower(p));
        assert ToLower(v)[1..] == ToLower(v[1..]) && ToLower(p)[1..] == ToLower(p[1..]);
      }
    }
  }

  lemma {:induction false} LikeAnything(v: string)
    ensures LikeMatch(v, "%", false)
  {
    assert LikeMatch("", "", false);
    if v != "" { LikeAnything(v[1..]); }
    assert "%"[1..] == "";
  }

  lemma PrefixStep(s: string, p: string)
    requires s != "" && p != ""
    ensures HasPrefix(s, p) <==> s[0] == p[0] && HasPrefix(s[1..], p[1..])
  {
    if |p| <= |s| {
      assert s[..|p|] == [s[0]] + s[1..][..|p| - 1];
      assert p == [p[0]] + p[1..];
    }
  }

  lemma HasSubStep(s: string, sub: string)
    ensures HasSub(s, sub) <==> HasPrefix(s, sub) || (s != "" && HasSub(s[1..], sub))
  {
    assert s[0..] == s;
    if HasSub(s, sub) && !HasPrefix(s, sub) {
      var i :| 0 <= i <= |s| && HasPrefix(s[i..], sub);
      assert s[i..] == s[1..][i - 1..];
    }
    if s != "" && HasSub(s[1..], sub) {
      var i :| 0 <= i <= |s[1..]| && HasPrefix(s[1..][i..], sub);
      assert s[1..][i..] == s[i + 1..];
    }
  }

  lemma {:induction false} LikeSearch(v: string, p: string)
    requires NoLikeMeta(p)
    ensures LikeMatch(v, "%" + (p + "%"), false) <==> HasSub(ToLower(v), ToLower(p))
    decreases |v|
  {
    var q := p + "%";
    assert ("%" + q)[1..] == q;
    LikePrefix(v, p);
    HasSubStep(ToLower(v), ToLower(p));
    if v != "" {
      LikeSearch(v[1..], p);
      assert ToLower(v)[1..] == ToLower(v[1..]);
    }
  }

  /** LIKE '%p%' looks for p without regard to case. */
  lemma LikeContains(v: string, p: string)
    requires NoLikeMeta(p)
    ensures LikeMatch(v, "%" + p + "%", false) == ContainsFold(v, p)
  {
    assert "%" + p + "%" == "%" + (p + "%");
    LikeSearch(v, p);
  }

  // ---------- numbers ----------

  const MAX_INT := 0x8000_0000_0000_0000

  lemma {:induction false} DigitsAreDigits(s: string)
    requires Digits(s).Some?
    ensures s != "" && forall c <- s :: '0' <= c <= '9'
  {
    if |s| > 1 {
      DigitsAreDigits(s[..|s| - 1]);
      assert s == s[..|s| - 1] + [s[|s| - 1]];
    }
  }

  lemma AtoiOfDigits(s: string)
    requires Digits(s).Some? && Digits(s).value < MAX_INT
    ensures Atoi(TrimSpace(s)) == Some(Digits(s).value)
  {
    DigitsAreDigits(s);
    assert s[0] in s && s[|s| - 1] in s;
    TrimmedStays(s);
  }

  // ---------- comparisons that mean the same on both sides ----------

  predicate Starred(value: string) {
    HasSub(value, "*")
  }

  /** The comparison of a column with text v (None: NULL), column by column: wildcards have
      no backslash, what is searched has no LIKE metacharacter, a value that is not all of
      the column is not a part of it, and numbers are compared with numbers. */
  predicate FaithfulOn(op: Op, col: string, v: Option<string>, value: string, rx: Matcher) {
    match op
    case Regexp => value != "" && (v == Some("") ==> !rx(value, ""))
    case Like => v.Some? ==> if Starred(value) then PlainWildcard(v.value, value) else AllOrNothing(v.value, value)
    case Contains => !Starred(value) && NoLikeMeta(value)
    case Eq =>
      v.Some? ==>
      if Starred(value) then PlainWildcard(v.value, value)
      else if col == "raw_preview" then NoLikeMeta(value)
      else (col == "status_code" ==> PlainNumber(value) && PlainNumber(v.value)) && AllOrNothing(v.value, value)
    case Ne =>
      v.Some? ==>
      (col == "status_code" ==> PlainNumber(value) && PlainNumber(v.value)) &&
      (v.value == value || !EqualFold(v.value, value))
    case _ =>
      v.Some? && col == "status_code" ==>
      Digits(v.value).Some? && Digits(v.value).value < MAX_INT && Digits(value).Some? && Digits(value).value < MAX_INT
  }

  predicate PlainWildcard(v: string, value: string) {
    '\\' !in value && OneLine(v)
  }

  predicate AllOrNothing(v: string, value: string) {
    v == value || !ContainsFold(v, value)
  }

  /** A number without leading zeros. */
  predicate PlainNumber(s: string) {
    Digits(s).Some? && Decimal(Digits(s).value) == s
  }

  /** The tail sees the column as it is. */
  predicate Shown(r: TableRow, field: string, fields: Schema) {
    field in fields && fields[field] in Columns(r) &&
    EventFieldValue(EventOf(r), field, KindOf(r)) == Columns(r)[fields[field]]
  }

  /** Of a job, the tail sees type and status as they are, and one of the texts. */
  const JOB_SHOWN: seq<string> := ["job_type", "type", "status"]

  /** The text of a job that the tail sees, in the place of all its columns. */
  function JobText(r: TableRow): string
    requires r.JobRow?
  {
    if r.error != "" then r.error else if r.output != "" then r.output else r.name
  }

  /** Comparing the text of a job comes to the same as comparing its column. */
  predicate SameInText(r: TableRow, col: string, op: Op, value: string, rx: Matcher)
    requires r.JobRow? && col in Columns(r) && Columns(r)[col].Some?
  {
    EvalValue(op, value, Columns(r)[col].value, rx) == EvalValue(op, value, JobText(r), rx)
  }

  /** Some column that is searched has a hit. */
  predicate ColumnHit(r: TableRow, op: Op, value: string, rx: Matcher) {
    var cols := FreeTextColumns(KindOf(r));
    exists i :: 0 <= i < |cols| && cols[i] in Columns(r) && EvalColumn(op, value, Columns(r)[cols[i]], rx)
  }

  /** A search over all columns is a Contains or a Like on each of them. Of a job the tail sees but one
      text, and that has to give the same answer. */
  predicate Faithful(p: Filter, fields: Schema, r: TableRow, rx: Matcher)
    requires p.Pred?
  {
    if p.field == "" then
      FaithfulSearchOn(p.op, p.value, r, rx) &&
      (r.JobRow? && ColumnHit(r, p.op, p.value, rx) ==> EvalColumn(p.op, p.value, Some(JobText(r)), rx))
    else
      p.field in fields && fields[p.field] in Columns(r) ==>
        FaithfulOn(p.op, fields[p.field], Columns(r)[fields[p.field]], p.value, rx) &&
        (r.JobRow? && p.field !in JOB_SHOWN ==>
           Columns(r)[fields[p.field]].Some? && SameInText(r, fields[p.field], p.op, p.value, rx))
  }

  predicate FaithfulSearchOn(op: Op, value: string, r: TableRow, rx: Matcher) {
    forall i :: 0 <= i < |FreeTextColumns(KindOf(r))| ==>
      var col := FreeTextColumns(KindOf(r))[i];
      col in Columns(r) ==> FaithfulOn(if op == Eq then Contains else op, col, Columns(r)[col], value, rx)
  }

  lemma RowCompares(r: TableRow, rx: Matcher, other: Row, t: Test, a: string)
    requires NameOf(t.operand) in Columns(r)
    ensures RowOf(r, rx, other)(t, a) == Compares(t, a, Columns(r)[NameOf(t.operand)], rx, other)
  {
  }

  lemma StarCompares(col: string, v: string, value: string, rx: Matcher, other: Row)
    requires Starred(value) && PlainWildcard(v, value)
    ensures var f := LikeFrag(col, value);
            Compares(f.test, f.arg, Some(v), rx, other) == TruthOf(MatchWildcard(v, value))
  {
    hide LikePattern, LikeMatch, Glob, HasSub, ToLower;
    PassesCombine(value);
    SameWithoutBackslash(v, value);
    StarStays(value);
  }

  lemma SearchCompares(col: string, v: string, value: string, rx: Matcher, other: Row)
    requires NoLikeMeta(value)
    ensures var f := ContainsFrag(col, value);
            Compares(f.test, f.arg, Some(v), rx, other) == TruthOf(ContainsFold(v, value))
  {
    hide LikeMatch, HasSub, ToLower;
    LikeContains(v, value);
  }

  /** Without a star, an equality is all or nothing. */
  lemma EqualCompares(v: string, value: string, rx: Matcher)
    requires AllOrNothing(v, value) && !Starred(value)
    ensures EvalValue(Eq, value, v, rx) <==> v == value
    ensures EvalValue(Like, value, v, rx) <==> v == value
  {
    hide ToLower;
    if EqualFold(v, value) { EqualIsContained(v, value); }
    StarsComeFromStars(value);
  }

  lemma StarsComeFromStars(p: string)
    ensures HasSub(ToLower(p), "*") <==> HasSub(p, "*")
  {
    if HasSub(ToLower(p), "*") {
      var i :| 0 <= i <= |p| && HasPrefix(ToLower(p)[i..], "*");
      assert ToLower(p)[i] == ToLower(p)[i..][..1][0] == '*';
      assert p[i..][..1] == "*";
      assert HasPrefix(p[i..], "*");
    } else if HasSub(p, "*") {
      StarStays(p);
    }
  }

  /** The single comparison that a leaf on a column compiles to. */
  function ColumnFrag(op: Op, col: string, value: string): Frag
    requires !IsComparison(op) || col == "status_code"
  {
    match op
    case Regexp => RegexpFrag(col, value)
    case Like => LikeFrag(col, value)
    case Eq =>
      if HasSub(value, "*") then LikeFrag(col, value)
      else if col == "raw_preview" then ContainsFrag(col, value)
      else Frag(Test(Col(col), EqOp, false), value)
    case Ne => Frag(Test(Col(col), NeOp, false), value)
    case Contains => FreeTextFrag(col, value, Contains)
    case _ => Frag(Test(CastCol(col, AsInteger), CmpOf(op), false), value)
  }

  lemma ColumnName(op: Op, col: string, value: string)
    requires !IsComparison(op) || col == "status_code"
    ensures NameOf(ColumnFrag(op, col, value).test.operand) == col
  {
    hide HasSub, LikePattern;
  }

  /** On a faithful comparison the database says what the tail says, or NULL for NULL. */
  lemma ColumnCompares(op: Op, col: string, v: string, value: string, rx: Matcher, other: Row)
    requires !IsComparison(op) || col == "status_code"
    requires FaithfulOn(op, col, Some(v), value, rx)
    ensures var f := ColumnFrag(op, col, value);
            Compares(f.test, f.arg, Some(v), rx, other) == TruthOf(EvalValue(op, value, v, rx))
  {
    hide HasSub, LikePattern, LikeMatch, MatchWildcard, Glob, ToLower, Digits, Decimal, Atoi, TrimSpace;
    match op
    case Regexp =>
    case Like =>
      if Starred(value) { StarCompares(col, v, value, rx, other); } else { EqualCompares(v, value, rx); }
    case Contains => SearchCompares(col, v, value, rx, other);
    case Eq =>
      if Starred(value) {
        StarCompares(col, v, value, rx, other);
      } else if col == "raw_preview" {
        SearchCompares(col, v, value, rx, other);
        if EqualFold(v, value) { EqualIsContained(v, value); }
      } else {
        EqualCompares(v, value, rx);
      }
    case Ne =>
    case _ =>
      AtoiOfDigits(v);
      AtoiOfDigits(value);
  }

  lemma NullCompares(op: Op, col: string, value: string, rx: Matcher, other: Row)
    requires !IsComparison(op) || col == "status_code"
    requires FaithfulOn(op, col, None, value, rx)
    ensures var f := ColumnFrag(op, col, value);
            Compares(f.test, f.arg, None, rx, other) == if op == Regexp then No else Null
  {
    hide HasSub, LikePattern;
  }

  lemma ColumnLeaf(field: string, op: Op, value: string, kind: Kind, fields: Schema)
    requires field != "" && field in fields && (IsComparison(op) ==> fields[field] == "status_code")
    ensures LeafFor(field, op, value, kind, fields) ==
            (if op == Contains then Ok(AnyIn([ColumnFrag(op, fields[field], value)]))
             else Ok(OneOf(ColumnFrag(op, fields[field], value))))
  {
    hide HasSub, LikePattern;
    assert FreeTextFrags([fields[field]], value, Contains) == [FreeTextFrag(fields[field], value, Contains)];
  }

  lemma VerdictOfOne(f: Frag, row: Row)
    ensures Verdict(LeafShape(OneOf(f)).value, row) == row(f.test, f.arg)
    ensures Verdict(LeafShape(AnyIn([f])).value, row) == row(f.test, f.arg)
  {
    assert [f][1..] == [] && Atoms([]) == Nil;
  }

  /** The comparison is NULL. */
  predicate NullFor(r: TableRow, p: Filter, fields: Schema) {
    p.Pred? && p.field != "" && p.op != Regexp && p.field in fields &&
    fields[p.field] in Columns(r) && Columns(r)[fields[p.field]] == None
  }

  /** The database finds true what the tail finds true, and is NULL where the column is. */
  predicate LeafMeans(p: Filter, fields: Schema, r: TableRow, rx: Matcher, other: Row)
    requires p.Pred?
  {
    var t := LeafTruth(KindOf(r), fields, RowOf(r, rx, other))(p);
    (t == Yes <==> EvalPred(p.field, p.op, p.value, EventOf(r), KindOf(r), fields, rx)) &&
    (t == Null <==> NullFor(r, p, fields))
  }

  lemma LeafTruthIs(p: Filter, leaf: Leaf, kind: Kind, fields: Schema, row: Row)
    requires p.Pred? && LeafFor(p.field, p.op, p.value, kind, fields) == Ok(leaf) && LeafShape(leaf).Some?
    ensures LeafTruth(kind, fields, row)(p) == Verdict(LeafShape(leaf).value, row)
  {
    hide LeafFor, LeafShape, Verdict;
  }

  /** A comparison of a column is the comparison that it compiles to. */
  lemma ColumnTruth(r: TableRow, field: string, op: Op, value: string, fields: Schema, rx: Matcher, other: Row)
    requires field != "" && field in fields && fields[field] in Columns(r) &&
             (IsComparison(op) ==> fields[field] == "status_code")
    ensures LeafFor(field, op, value, KindOf(r), fields).Ok?
    ensures var f := ColumnFrag(op, fields[field], value);
            LeafTruth(KindOf(r), fields, RowOf(r, rx, other))(Pred(field, op, value)) ==
            Compares(f.test, f.arg, Columns(r)[fields[field]], rx, other)
  {
    hide ColumnFrag, RowOf, Columns, Compares, Verdict, LeafShape, LeafFor, LeafTruth;
    var col, row := fields[field], RowOf(r, rx, other);
    var f := ColumnFrag(op, col, value);
    ColumnLeaf(field, op, value, KindOf(r), fields);
    ColumnName(op, col, value);
    VerdictOfOne(f, row);
    RowCompares(r, rx, other, f.test, f.arg);
    LeafTruthIs(Pred(field, op, value), if op == Contains then AnyIn([f]) else OneOf(f), KindOf(r), fields, row)
      by { OneIsSome(f); }
  }

  /** The tail has a value where the column has one, and finds the same of it. */
  predicate SeenAlike(r: TableRow, p: Filter, fields: Schema, rx: Matcher)
    requires p.Pred?
  {
    p.field in fields && fields[p.field] in Columns(r) &&
    var v, seen := Columns(r)[fields[p.field]], EventFieldValue(EventOf(r), p.field, KindOf(r));
    v.Some? == seen.Some? &&
    (v.Some? ==> EvalValue(p.op, p.value, v.value, rx) == EvalValue(p.op, p.value, seen.value, rx))
  }

  lemma FaithfulColumn(r: TableRow, p: Filter, fields: Schema, rx: Matcher, other: Row)
    requires p.Pred? && p.field != "" && SeenAlike(r, p, fields, rx) &&
             (IsComparison(p.op) ==> fields[p.field] == "status_code")
    requires FaithfulOn(p.op, fields[p.field], Columns(r)[fields[p.field]], p.value, rx)
    ensures LeafMeans(p, fields, r, rx, other)
  {
    hide EvalValue, EventFieldValue, FaithfulOn, ColumnFrag, RowOf, Columns, EventOf, Compares, Verdict, LeafShape,
         LeafFor, LeafTruth;
    var col, row := fields[p.field], RowOf(r, rx, other);
    var f := ColumnFrag(p.op, col, p.value);
    ColumnLeaf(p.field, p.op, p.value, KindOf(r), fields);
    ColumnName(p.op, col, p.value);
    VerdictOfOne(f, row);
    RowCompares(r, rx, other, f.test, f.arg);
    LeafTruthIs(p, if p.op == Contains then AnyIn([f]) else OneOf(f), KindOf(r), fields, row) by { OneIsSome(f); }
    var v := Columns(r)[col];
    if v.Some? {
      ColumnCompares(p.op, col, v.value, p.value, rx, other);
    } else {
      NullCompares(p.op, col, p.value, rx, other);
    }
  }

  lemma OneIsSome(f: Frag)
    ensures LeafShape(OneOf(f)).Some? && LeafShape(AnyIn([f])).Some?
  {
  }

  // ---------- free text ----------

  lemma {:induction false} AnyVerdict(fs: seq<Frag>, row: Row)
    requires forall i :: 0 <= i < |fs| ==> row(fs[i].test, fs[i].arg) != Null
    ensures VerdictEach(OrKw, Atoms(fs), row) == TruthOf(exists i :: 0 <= i < |fs| && row(fs[i].test, fs[i].arg) == Yes)
    decreases |fs|
  {
    if fs != [] {
      AnyVerdict(fs[1..], row);
      assert forall i :: 0 < i < |fs| ==> fs[i] == fs[1..][i - 1];
      assert forall i :: 0 <= i < |fs[1..]| ==> fs[1..][i] == fs[i + 1];
    }
  }

  /** What a search over all columns compiles to for one of them. */
  function SearchFrag(op: Op, col: string, value: string): Frag {
    if op == Regexp then RegexpFrag(col, value) else FreeTextFrag(col, value, op)
  }

  lemma SearchLeaf(op: Op, value: string, kind: Kind, fields: Schema)
    requires op == Regexp || op == Contains || op == Like || op == Eq
    ensures var leaf := LeafFor("", op, value, kind, fields); var cols := FreeTextColumns(kind);
            leaf.Ok? && leaf.value.AnyIn? && |leaf.value.frags| == |cols| &&
            forall i :: 0 <= i < |cols| ==> leaf.value.frags[i] == SearchFrag(op, cols[i], value)
  {
    hide FreeTextColumns, FreeTextFrag, RegexpFrag;
  }

  lemma SearchCompared(op: Op, col: string, v: string, value: string, rx: Matcher, other: Row)
    requires op == Regexp || op == Contains || op == Like || op == Eq
    requires FaithfulOn(if op == Eq then Contains else op, col, Some(v), value, rx)
    ensures var f := SearchFrag(op, col, value);
            NameOf(f.test.operand) == col &&
            Compares(f.test, f.arg, Some(v), rx, other) == TruthOf(EvalColumn(op, value, Some(v), rx))
  {
    hide HasSub, LikePattern, LikeMatch, ToLower, Compares, MatchWildcard, ContainsFold, EqualFold;
    var like := if op == Eq then Contains else op;
    ColumnCompares(like, col, v, value, rx, other);
    ColumnName(like, col, value);
  }

  predicate Searchable(r: TableRow) {
    var cols := FreeTextColumns(KindOf(r));
    forall i :: 0 <= i < |cols| ==>
      cols[i] in Columns(r) && Columns(r)[cols[i]].Some? &&
      EventColumnValue(EventOf(r), cols[i], KindOf(r)) == Columns(r)[cols[i]]
  }

  lemma AuditAndLogsAreSearchable(r: TableRow)
    requires !r.JobRow?
    ensures Searchable(r)
  {
    if r.AuditRow? { AuditIsSearchable(r); } else { LogIsSearchable(r); }
  }

  lemma AuditIsSearchable(r: TableRow)
    requires r.AuditRow?
    ensures Searchable(r)
  {
    hide EventFieldValue;
    assert FreeTextColumns(Audit) == ["user_email", "action", "message"];
  }

  lemma LogIsSearchable(r: TableRow)
    requires r.LogRow?
    ensures Searchable(r)
  {
    LogMeta(r);
    hide EventFieldValue, EventOf;
    assert FreeTextColumns(KindOf(r)) == ["site", "raw_preview"];
  }

  /** What the event of a log line holds. */
  lemma LogMeta(r: TableRow)
    requires r.LogRow?
    ensures var ev := EventOf(r);
            MetaValue(ev, "site") == Some(r.site) && MetaValue(ev, "status_code") == Printed(r.statusCode) &&
            ev.message == r.preview
  {
    hide Decimal;
  }

  /** A search over all columns finds a hit in some column. */
  lemma SearchesColumns(r: TableRow, op: Op, value: string, fields: Schema, rx: Matcher, other: Row)
    requires op == Regexp || op == Contains || op == Like || op == Eq
    requires FreeTextColumns(KindOf(r)) != [] && FaithfulSearchOn(op, value, r, rx)
    requires forall col <- FreeTextColumns(KindOf(r)) :: col in Columns(r) && Columns(r)[col].Some?
    ensures LeafTruth(KindOf(r), fields, RowOf(r, rx, other))(Pred("", op, value)) ==
              TruthOf(ColumnHit(r, op, value, rx))
  {
    hide EvalColumn, EventColumnValue, FreeTextColumns, FaithfulOn, SearchFrag, RowOf, Columns, EventOf, Compares,
         LeafFor, LeafTruth;
    var cols, row, kind := FreeTextColumns(KindOf(r)), RowOf(r, rx, other), KindOf(r);
    SearchLeaf(op, value, kind, fields);
    var fs := LeafFor("", op, value, kind, fields).value.frags;
    forall i | 0 <= i < |cols|
      ensures row(fs[i].test, fs[i].arg) == TruthOf(EvalColumn(op, value, Columns(r)[cols[i]], rx))
    {
      assert cols[i] in cols;
      var v := Columns(r)[cols[i]].value;
      SearchCompared(op, cols[i], v, value, rx, other);
      RowCompares(r, rx, other, fs[i].test, fs[i].arg);
    }
    AnyVerdict(fs, row);
    assert Cons(Atom(fs[0]), Atoms(fs[1..])) == Atoms(fs);
    assert Verdict(LeafShape(AnyIn(fs)).value, row) == VerdictEach(OrKw, Atoms(fs), row);
    LeafTruthIs(Pred("", op, value), AnyIn(fs), kind, fields, row);
  }

  lemma FaithfulSearch(r: TableRow, op: Op, value: string, fields: Schema, rx: Matcher, other: Row)
    requires op == Regexp || op == Contains || op == Like || op == Eq
    requires Searchable(r) && FreeTextColumns(KindOf(r)) != [] && FaithfulSearchOn(op, value, r, rx)
    ensures LeafMeans(Pred("", op, value), fields, r, rx, other)
  {
    hide EvalColumn, EventColumnValue, FreeTextColumns, FaithfulSearchOn, Columns, EventOf, LeafTruth;
    SearchesColumns(r, op, value, fields, rx, other);
  }

  /** The columns of a job that a search goes over, and what the tail searches for each. */
  lemma JobSearched(r: TableRow)
    requires r.JobRow?
    ensures forall col <- FreeTextColumns(Job) ::
              col in Columns(r) && Columns(r)[col].Some? && EventColumnValue(EventOf(r), col, Job) == Some(JobText(r))
    ensures JobText(r) in [r.name, r.output, r.error] && FreeTextColumns(Job) == ["name", "output", "error", "job_type"]
    ensures Columns(r)["name"] == Some(r.name) && Columns(r)["output"] == Some(r.output) &&
            Columns(r)["error"] == Some(r.error)
  {
    hide EventFieldValue;
  }

  /** For a job, the query searches all columns and the tail one text, which is one of them. */
  lemma JobSearch(r: TableRow, op: Op, value: string, fields: Schema, rx: Matcher, other: Row)
    requires r.JobRow? && (op == Regexp || op == Contains || op == Like || op == Eq) &&
             FaithfulSearchOn(op, value, r, rx)
    ensures LeafTruth(Job, fields, RowOf(r, rx, other))(Pred("", op, value)) == TruthOf(ColumnHit(r, op, value, rx))
    ensures EvalFreeText(op, value, EventOf(r), Job, rx) == EvalColumn(op, value, Some(JobText(r)), rx)
    ensures EvalColumn(op, value, Some(JobText(r)), rx) ==> ColumnHit(r, op, value, rx)
  {
    JobSearched(r);
    hide EvalColumn, EventColumnValue, Columns, EventOf, LeafTruth, FaithfulSearchOn, FreeTextColumns;
    SearchesColumns(r, op, value, fields, rx, other);
    var cols := FreeTextColumns(Job);
    assert cols[0] == "name" && cols[1] == "output" && cols[2] == "error";
    if EvalColumn(op, value, Some(JobText(r)), rx) {
      assert EvalColumn(op, value, EventColumnValue(EventOf(r), cols[0], Job), rx);
    }
  }

  // ---------- fields ----------

  /** Neither blanks around nor capitals. */
  predicate Canonical(s: string) {
    TrimSpace(s) == s && ToLower(s) == s
  }

  lemma SmallLetters(s: string)
    requires s != "" && forall c <- s :: 'a' <= c <= 'z' || c == '_'
    ensures Canonical(s)
  {
    assert s[0] in s && s[|s| - 1] in s;
    TrimmedStays(s);
    var low := ToLower(s);
    forall i | 0 <= i < |s| ensures low[i] == s[i] { assert s[i] in s; }
    assert low == s;
  }

  lemma AuditNames(field: string)
    requires field in AUDIT_FIELDS
    ensures Canonical(field)
  {
    hide TrimSpace, ToLower, Canonical;
    SmallLetters("user");
    SmallLetters("user_email");
    SmallLetters("action");
    SmallLetters("resource_type");
    SmallLetters("resource_id");
    SmallLetters("domain");
    SmallLetters("status");
    SmallLetters("message");
  }

  lemma LogNames(field: string)
    requires field in LOG_ACCESS_FIELDS || field in LOG_ERROR_FIELDS
    ensures Canonical(field)
  {
    hide TrimSpace, ToLower, Canonical;
    SmallLetters("site");
    SmallLetters("status");
    SmallLetters("status_code");
    SmallLetters("message");
    SmallLetters("preview");
  }

  lemma AuditShows(r: TableRow, field: string)
    requires r.AuditRow? && field in AUDIT_FIELDS
    ensures Shown(r, field, AUDIT_FIELDS)
  {
    hide TrimSpace, ToLower;
    AuditNames(field);
    AuditValue(r, field);
  }

  lemma AuditValue(r: TableRow, field: string)
    requires r.AuditRow? && field in AUDIT_FIELDS
    ensures AUDIT_FIELDS[field] in Columns(r) && NamedValue(EventOf(r), field, Audit) == Columns(r)[AUDIT_FIELDS[field]]
  {
    var meta := EventOf(r).meta;
    assert meta["status"] == r.status && meta["domain"] == r.domain;
    assert meta["resource_id"] == r.resourceId && meta["resource_type"] == r.resourceType;
  }

  lemma LogShows(r: TableRow, field: string, fields: Schema)
    requires r.LogRow? && FieldsForKind(KindOf(r)) == Some(fields) && field in fields
    ensures Shown(r, field, fields)
  {
    hide TrimSpace, ToLower;
    LogNames(field);
    LogValue(r, field, fields);
  }

  lemma LogValue(r: TableRow, field: string, fields: Schema)
    requires r.LogRow? && FieldsForKind(KindOf(r)) == Some(fields) && field in fields
    ensures fields[field] in Columns(r) && NamedValue(EventOf(r), field, KindOf(r)) == Columns(r)[fields[field]]
  {
    LogMeta(r);
    LogColumns(r);
    hide EventOf, Columns, MetaValue, KindOf;
    assert KindOf(r) == LogAccess || KindOf(r) == LogError by { LogKinds(r); }
  }

  lemma LogKinds(r: TableRow)
    requires r.LogRow?
    ensures KindOf(r) == LogAccess || KindOf(r) == LogError
  {
  }

  lemma LogColumns(r: TableRow)
    requires r.LogRow?
    ensures Columns(r) == map["site" := Some(r.site), "status_code" := Printed(r.statusCode),
                              "raw_preview" := Some(r.preview)]
  {
  }

  lemma JobTexts(r: TableRow, field: string)
    requires r.JobRow? && field in JOB_FIELDS && field !in JOB_SHOWN
    ensures EventFieldValue(EventOf(r), field, Job) == Some(JobText(r))
    ensures JOB_FIELDS[field] in Columns(r) && Columns(r)[JOB_FIELDS[field]].Some?
  {
    hide TrimSpace, ToLower;
    SmallLetters("name");
    SmallLetters("output");
    SmallLetters("error");
    SmallLetters("message");
  }

  lemma JobShows(r: TableRow, field: string)
    requires r.JobRow? && field in JOB_SHOWN
    ensures Shown(r, field, JOB_FIELDS)
  {
    hide TrimSpace, ToLower;
    SmallLetters("job_type");
    SmallLetters("type");
    SmallLetters("status");
  }

  lemma FaithfulJobSearch(r: TableRow, p: Filter, fields: Schema, rx: Matcher, other: Row)
    requires r.JobRow? && p.Pred? && p.field == "" && Faithful(p, fields, r, rx)
    requires p.op == Regexp || p.op == Contains || p.op == Like || p.op == Eq
    ensures LeafMeans(p, fields, r, rx, other)
  {
    hide Columns, EventOf, FaithfulSearchOn, LeafTruth, EvalColumn, EvalFreeText, ColumnHit;
    JobSearch(r, p.op, p.value, fields, rx, other);
  }

  /** A faithful comparison that is compiled is true in the database exactly if it is true for the
      tail, and NULL exactly if it is one of a missing status. */
  lemma FaithfulLeaf(r: TableRow, p: Filter, fields: Schema, rx: Matcher, other: Row)
    requires p.Pred? && FieldsForKind(KindOf(r)) == Some(fields) && Faithful(p, fields, r, rx)
    requires Kept(p, fields) && LeafFor(p.field, p.op, p.value, KindOf(r), fields).Ok?
    ensures LeafMeans(p, fields, r, rx, other)
  {
    hide Columns, EventOf, RowOf, FaithfulOn, EvalValue, EventFieldValue, Searchable, LeafMeans;
    if p.field == "" {
      assert p.op == Regexp || p.op == Contains || p.op == Like || p.op == Eq;
      if r.JobRow? {
        FaithfulJobSearch(r, p, fields, rx, other);
      } else {
        AuditAndLogsAreSearchable(r);
        FaithfulSearch(r, p.op, p.value, fields, rx, other);
      }
    } else {
      if r.AuditRow? {
        AuditShows(r, p.field);
      } else if r.LogRow? {
        LogShows(r, p.field, fields);
      } else if p.field in JOB_SHOWN {
        JobShows(r, p.field);
      } else {
        JobTexts(r, p.field);
      }
      FaithfulColumn(r, p, fields, rx, other);
    }
  }

  // ---------- whole filters ----------

  predicate FaithfulFilter(e: Filter, fields: Schema, r: TableRow, rx: Matcher) {
    forall p <- Leaves(e) :: p.Pred? && Faithful(p, fields, r, rx)
  }

  /** The leaves that are left are leaves of the filter that compile. */
  lemma {:induction false} LeavesThatCompile(e: Filter, kind: Kind, fields: Schema)
    requires FieldsForKind(kind) == Some(fields) && ShapeOf(e, kind, fields).Ok?
    ensures Prune(e, fields).Some? ==>
              forall p <- Leaves(Prune(e, fields).value) ::
                p in Leaves(e) && p.Pred? && Kept(p, fields) && LeafFor(p.field, p.op, p.value, kind, fields).Ok?
    decreases e, 1
  {
    hide LeafFor, LeafShape, LeafApplicable, Applicable;
    match e
    case And(cs) => LeavesThatCompileAll(cs, kind, fields);
    case Or(cs) => LeavesThatCompileAll(cs, kind, fields);
    case Not(c) => LeavesThatCompile(c, kind, fields);
    case Pred(_, _, _) =>
  }

  lemma {:induction false} LeavesThatCompileAll(cs: seq<Filter>, kind: Kind, fields: Schema)
    requires FieldsForKind(kind) == Some(fields) && ShapesOf(cs, kind, fields).Ok?
    ensures forall p <- LeavesAll(PruneAll(cs, fields)) ::
              p in LeavesAll(cs) && p.Pred? && Kept(p, fields) && LeafFor(p.field, p.op, p.value, kind, fields).Ok?
    decreases cs, 0
  {
    hide LeafFor;
    if cs != [] {
      LeavesThatCompile(cs[0], kind, fields);
      LeavesThatCompileAll(cs[1..], kind, fields);
      var k, ks := Prune(cs[0], fields), PruneAll(cs[1..], fields);
      if k.Some? { assert PruneAll(cs, fields)[0] == k.value && PruneAll(cs, fields)[1..] == ks; }
    }
  }

  /** The leaves of a filter that are NULL on the row: on a log line without status its
      comparisons of the status, otherwise none. */
  function NullLeaves(e: Filter, fields: Schema, r: TableRow): set<Filter> {
    set p | p in Leaves(e) && NullFor(r, p, fields)
  }

  lemma OnlyStatusIsNull(e: Filter, fields: Schema, r: TableRow)
    requires FieldsForKind(KindOf(r)) == Some(fields)
    ensures !(r.LogRow? && r.access && r.statusCode == None) ==> NullLeaves(e, fields, r) == {}
    ensures forall p <- NullLeaves(e, fields, r) :: fields[p.field] == "status_code"
  {
    assert "status_code" !in LOG_ERROR_FIELDS.Values;
    forall p | p in NullLeaves(e, fields, r)
      ensures r.LogRow? && r.access && r.statusCode == None && fields[p.field] == "status_code"
    {
      NullColumn(r, fields[p.field]);
    }
  }

  lemma NullColumn(r: TableRow, col: string)
    requires col in Columns(r) && Columns(r)[col] == None
    ensures r.LogRow? && col == "status_code" && r.statusCode == None
  {
    hide Decimal;
  }

  /** On a row: what the query finds is accepted by what is left of the filter, and the other way
      round unless that can be NULL and true with the leaves that are NULL on this row. */
  lemma QueryOnRow(e: Filter, r: TableRow, rx: Matcher, other: Row)
    requires CompileFilter(Some(e), KindOf(r)).Ok? && CompileFilter(Some(e), KindOf(r)).value.applicable
    requires FieldsForKind(KindOf(r)).Some? ==> FaithfulFilter(e, FieldsForKind(KindOf(r)).value, r, rx)
    ensures FieldsForKind(KindOf(r)).Some? && Kept(e, FieldsForKind(KindOf(r)).value)
    ensures var kind, fields := KindOf(r), FieldsForKind(KindOf(r)).value;
            var k := Prune(e, fields).value;
            var found := Matches(CompileFilter(Some(e), kind).value, RowOf(r, rx, other));
            var accepted := EvalNode(k, EventOf(r), kind, fields, rx);
            (found ==> accepted) && (!Can(k, NullLeaves(k, fields, r), 2) ==> found == accepted)
  {
    hide Prune, EvalNode, FaithfulFilter, Matches, ShapeOf, Applicable, RowOf, EventOf, CompileNode, Can, Leaves,
         LeafTruth, NullLeaves;
    var kind, fields := KindOf(r), FieldsForKind(KindOf(r)).value;
    CompiledOk(e, kind, RowOf(r, rx, other));
    LeavesThatCompile(e, kind, fields);
    ApplicableStays(e, fields);
    var k := Prune(e, fields).value;
    LeavesMean(e, k, r, fields, rx, other);
    QueryAndTail(e, kind, RowOf(r, rx, other), EventOf(r), rx, NullLeaves(k, fields, r));
  }

  /** What a query finds the tail sends, where dropped parts follow falsehood; what the tail
      sends the query finds, where they follow truth and what is left of the filter cannot be
      NULL and true with the leaves that are NULL on this row. */
  lemma SearchFindsWhatTailSends(e: Filter, r: TableRow, rx: Matcher, other: Row)
    requires CompileFilter(Some(e), KindOf(r)).Ok? && CompileFilter(Some(e), KindOf(r)).value.applicable
    requires FieldsForKind(KindOf(r)).Some? ==> FaithfulFilter(e, FieldsForKind(KindOf(r)).value, r, rx)
    ensures FieldsForKind(KindOf(r)).Some? && Kept(e, FieldsForKind(KindOf(r)).value)
    ensures var kind, fields := KindOf(r), FieldsForKind(KindOf(r)).value;
            var k := Prune(e, fields).value;
            var found := Matches(CompileFilter(Some(e), kind).value, RowOf(r, rx, other));
            var sent := EvalFilter(Some(e), EventOf(r), kind, rx);
            (Follows(e, fields, false) ==> (found ==> sent)) &&
            (Follows(e, fields, true) && !Can(k, NullLeaves(k, fields, r), 2) ==> (sent ==> found))
  {
    hide Follows, Prune, EvalNode, FaithfulFilter, Matches, Applicable, RowOf, EventOf, CompileNode, Can, NullLeaves;
    var kind, fields, ev := KindOf(r), FieldsForKind(KindOf(r)).value, EventOf(r);
    QueryOnRow(e, r, rx, other);
    if Follows(e, fields, false) && !EvalNode(e, ev, kind, fields, rx) {
      FollowsSuffices(e, fields, false, ev, kind, rx);
    }
    if Follows(e, fields, true) && EvalNode(e, ev, kind, fields, rx) { FollowsSuffices(e, fields, true, ev, kind, rx); }
  }

  /** The comparisons that may be NULL on some row. */
  function StatusLeaves(e: Filter, fields: Schema): set<Filter> {
    set p | p in Leaves(e) && p.Pred? && p.op != Regexp && p.field in fields && fields[p.field] == "status_code"
  }

  /** On a log line without status all comparisons of it are NULL together: whatever the other leaves
      are, query and tail agree on what is left of the filter exactly if that cannot be NULL and
      true then. */
  lemma BareLinesAgreeIff(k: Filter, r: TableRow)
    requires r.LogRow? && r.access && r.statusCode == None && ReadOnce(k)
    ensures NullLeaves(k, LOG_ACCESS_FIELDS, r) == StatusLeaves(k, LOG_ACCESS_FIELDS)
    ensures (forall T: set<Filter> :: Agree(k, Assign(T, NullLeaves(k, LOG_ACCESS_FIELDS, r)))) <==>
            !Can(k, StatusLeaves(k, LOG_ACCESS_FIELDS), 2)
  {
    LogColumns(r);
    hide Agree, Can, ReadOnce, Leaves, Assign, Columns;
    NullsHarmlessIff(k, StatusLeaves(k, LOG_ACCESS_FIELDS));
  }

  /** For NOT status!=1 AND status!=2 they always agree, although a comparison of the status stands
      under one NOT: the other one is NULL, too. */
  lemma NullsTogether()
    ensures var p, q := Pred("status", Ne, "1"), Pred("status", Ne, "2");
            !EvenNots(And([Not(p), q]), true, {p, q}) && !Can(And([Not(p), q]), {p, q}, 2)
  {
    var p, q := Pred("status", Ne, "1"), Pred("status", Ne, "2");
    var cs := [Not(p), q];
    assert cs[1..] == [q] && [q][1..] == [];
    assert !EvenNots(Not(p), true, {p, q});
    assert !Can(q, {p, q}, 2) && !Can(q, {p, q}, 3);
    assert !CanUp(q, {p, q}, true, 2);
    assert !AllUp([q], {p, q}, true, 2);
    assert !AllUp(cs, {p, q}, true, 2);
    assert !CanLeast(cs, {p, q}, true, 2);
  }

  /** Whichever rows there are: where dropped parts follow truth and no comparison of the status
      stands under an odd number of NOTs, what the tail sends the query finds. */
  lemma EvenStatusFindsAll(e: Filter, r: TableRow, rx: Matcher, other: Row)
    requires CompileFilter(Some(e), KindOf(r)).Ok? && CompileFilter(Some(e), KindOf(r)).value.applicable
    requires FieldsForKind(KindOf(r)).Some? ==> FaithfulFilter(e, FieldsForKind(KindOf(r)).value, r, rx)
    ensures FieldsForKind(KindOf(r)).Some? && Kept(e, FieldsForKind(KindOf(r)).value)
    ensures var kind, fields := KindOf(r), FieldsForKind(KindOf(r)).value;
            var k := Prune(e, fields).value;
            Follows(e, fields, true) && EvenNots(k, true, StatusLeaves(k, fields)) &&
            EvalFilter(Some(e), EventOf(r), kind, rx) ==>
              Matches(CompileFilter(Some(e), kind).value, RowOf(r, rx, other))
  {
    hide Follows, Prune, FaithfulFilter, Matches, RowOf, EventOf, CompileFilter, EvalFilter, Can, Leaves, EvenNots,
         Columns;
    SearchFindsWhatTailSends(e, r, rx, other);
    var fields := FieldsForKind(KindOf(r)).value;
    var k := Prune(e, fields).value;
    OnlyStatusIsNull(k, fields, r);
    if EvenNots(k, true, StatusLeaves(k, fields)) {
      EvenNotsCannot(k, true, StatusLeaves(k, fields), NullLeaves(k, fields, r));
    }
  }

  lemma LeavesMean(e: Filter, k: Filter, r: TableRow, fields: Schema, rx: Matcher, other: Row)
    requires FieldsForKind(KindOf(r)) == Some(fields) && FaithfulFilter(e, fields, r, rx)
    requires forall p <- Leaves(k) ::
               p in Leaves(e) && p.Pred? && Kept(p, fields) && LeafFor(p.field, p.op, p.value, KindOf(r), fields).Ok?
    ensures var t := LeafTruth(KindOf(r), fields, RowOf(r, rx, other));
            forall p <- Leaves(k) ::
              (LeafEval(EventOf(r), KindOf(r), fields, rx)(p) <==> t(p) == Yes) &&
              (t(p) == Null <==> p in NullLeaves(k, fields, r))
  {
    hide Leaves, LeafFor, LeafTruth, EventOf, RowOf, EvalPred, Faithful, NullFor;
    forall p | p in Leaves(k)
      ensures var t := LeafTruth(KindOf(r), fields, RowOf(r, rx, other));
              (LeafEval(EventOf(r), KindOf(r), fields, rx)(p) <==> t(p) == Yes) &&
              (t(p) == Null <==> p in NullLeaves(k, fields, r))
    {
      FaithfulLeaf(r, p, fields, rx, other);
    }
  }

  /** With the status there, or no comparison of it, nothing can be NULL. */
  lemma StatusIsThere(e: Filter, fields: Schema, r: TableRow)
    requires FieldsForKind(KindOf(r)) == Some(fields) && !(r.LogRow? && r.access && r.statusCode == None)
    ensures !Can(e, NullLeaves(e, fields, r), 2)
  {
    OnlyStatusIsNull(e, fields, r);
    EvenIfNone(e, true);
    EvenNotsCannot(e, true, {}, {});
  }

  lemma {:induction false} EvenIfNone(e: Filter, b: bool)
    ensures EvenNots(e, b, {})
    decreases e, 1
  {
    match e
    case And(cs) => EvenIfNoneAll(cs, b);
    case Or(cs) => EvenIfNoneAll(cs, b);
    case Not(c) => EvenIfNone(c, !b);
    case Pred(_, _, _) =>
  }

  lemma {:induction false} EvenIfNoneAll(cs: seq<Filter>, b: bool)
    ensures AllEvenNots(cs, b, {})
    decreases cs, 0
  {
    if cs != [] {
      EvenIfNone(cs[0], b);
      EvenIfNoneAll(cs[1..], b);
    }
  }

  // ---------- one site ----------

  lemma {:induction false} KeptChildHolds(cs: seq<Filter>, p: Filter, fields: Schema, v: Valuation)
    requires p in cs && Prune(p, fields) == Some(p) && HoldsAll(PruneAll(cs, fields), v)
    ensures Holds(p, v)
    decreases |cs|
  {
    hide LeafApplicable;
    var ks := PruneAll(cs[1..], fields);
    if Kept(cs[0], fields) {
      assert PruneAll(cs, fields)[0] == Prune(cs[0], fields).value && PruneAll(cs, fields)[1..] == ks;
    }
    if p != cs[0] { KeptChildHolds(cs[1..], p, fields, v); }
  }

  /** A query of one site finds only rows of exactly that site. */
  lemma ScopedQueryStaysInSite(e: Option<Filter>, site: string, r: TableRow, rx: Matcher, other: Row)
    requires r.LogRow? && TrimSpace(site) != "" && !Starred(TrimSpace(site)) && e != Some(And([]))
    requires CompileFilter(WithSiteScope(e, site), KindOf(r)).Ok?
    ensures Matches(CompileFilter(WithSiteScope(e, site), KindOf(r)).value, RowOf(r, rx, other)) ==>
              r.site == TrimSpace(site)
  {
    var kind, row, p := KindOf(r), RowOf(r, rx, other), Pred("site", Eq, TrimSpace(site));
    var fields := FieldsForKind(kind).value;
    var g := Conjoin(e, Some(p)).value;
    assert WithSiteScope(e, site) == Some(g);
    SiteLeafMeans(r, TrimSpace(site), fields, rx, other);
    hide RowOf, Matches, CompileNode, ShapeOf, Applicable, TrimSpace, HasSub, Verdict, Holds, LeafFor, LeafShape;
    if Matches(CompileFilter(Some(g), kind).value, row) {
      FoundIsTrue(g, kind, fields, row);
      if e.Some? {
        var kids := FlattenAnd(e) + [p];
        assert kids[|kids| - 1] == p && p in kids && |kids| >= 2 && g == And(kids);
        AndHolds(kids, p, fields, Yeses(LeafTruth(kind, fields, row)));
      } else {
        assert g == p;
      }
      LeafHolds(p, Yeses(LeafTruth(kind, fields, row)));
    }
  }

  lemma LeafHolds(p: Filter, v: Valuation)
    requires p.Pred?
    ensures Holds(p, v) == v(p)
  {
  }

  lemma AndHolds(kids: seq<Filter>, p: Filter, fields: Schema, v: Valuation)
    requires p in kids && Prune(p, fields) == Some(p) && Kept(And(kids), fields) &&
             Holds(Prune(And(kids), fields).value, v)
    ensures Holds(p, v)
  {
    KeptChildHolds(kids, p, fields, v);
  }

  lemma OnlyApplicableMatch(f: SqlFilter, row: Row)
    ensures Matches(f, row) ==> f.applicable
  {
  }

  lemma FoundIsTrue(g: Filter, kind: Kind, fields: Schema, row: Row)
    requires CompileFilter(Some(g), kind).Ok? && FieldsForKind(kind) == Some(fields)
    requires Matches(CompileFilter(Some(g), kind).value, row)
    ensures Kept(g, fields) && Holds(Prune(g, fields).value, Yeses(LeafTruth(kind, fields, row)))
  {
    hide CompileFilter, Truth3, Holds, Prune, Leaves, Can, Rank, Parse, Evaluate;
    OnlyApplicableMatch(CompileFilter(Some(g), kind).value, row);
    CompiledMeans(g, kind, row, {});
    RankMeans(Prune(g, fields).value, LeafTruth(kind, fields, row));
  }

  lemma SiteLeafMeans(r: TableRow, name: string, fields: Schema, rx: Matcher, other: Row)
    requires r.LogRow? && FieldsForKind(KindOf(r)) == Some(fields) && !Starred(name)
    ensures Prune(Pred("site", Eq, name), fields) == Some(Pred("site", Eq, name))
    ensures LeafTruth(KindOf(r), fields, RowOf(r, rx, other))(Pred("site", Eq, name)) == Yes ==> r.site == name
  {
    SiteColumn(r, fields);
    LogShows(r, "site", fields);
    SiteCompares(r.site, name, rx, other);
    hide LeafFor, LeafShape, Verdict, RowOf, EventOf, HasSub, Columns, Shown, ColumnFrag, Compares;
    OneComparison(r, "site", Eq, name, fields, rx, other);
  }

  lemma SiteColumn(r: TableRow, fields: Schema)
    requires r.LogRow? && FieldsForKind(KindOf(r)) == Some(fields)
    ensures "site" in fields && fields["site"] == "site" && "site" in Columns(r) && Columns(r)["site"] == Some(r.site)
  {
  }

  lemma SiteCompares(site: string, name: string, rx: Matcher, other: Row)
    requires !Starred(name)
    ensures var f := ColumnFrag(Eq, "site", name);
            Compares(f.test, f.arg, Some(site), rx, other) == TruthOf(site == name)
  {
    hide HasSub;
  }

  /** An equality on a text column, or a pattern without star on any, whose value occurs in the
      column without being all of it is found by the tail only. */
  lemma EqualityLeafDiffersIff(r: TableRow, field: string, op: Op, value: string, fields: Schema, rx: Matcher,
                               other: Row)
    requires field != "" && Shown(r, field, fields) && Columns(r)[fields[field]].Some? && !Starred(value)
    requires op == Like || (op == Eq && fields[field] != "raw_preview" && fields[field] != "status_code")
    ensures var v := Columns(r)[fields[field]].value;
            Compiles(r, field, op, value, fields) &&
            var sql := SqlTruth(r, field, op, value, fields, rx, other) == Yes;
            var tail := EvalPred(field, op, value, EventOf(r), KindOf(r), fields, rx);
            (sql ==> tail) && (sql != tail <==> ContainsFold(v, value) && v != value)
  {
    hide HasSub, ToLower, EventFieldValue, Columns, EventOf, RowOf, Compiles, SqlTruth;
    var v := Columns(r)[fields[field]].value;
    OneComparison(r, field, op, value, fields, rx, other);
    if EqualFold(v, value) { EqualIsContained(v, value); }
    StarsComeFromStars(value);
  }

  /** An inequality on a text column whose value is the column's but for upper and lower case is
      found by the query only. */
  lemma InequalityLeafDiffersIff(r: TableRow, field: string, value: string, fields: Schema, rx: Matcher, other: Row)
    requires field != "" && Shown(r, field, fields) && Columns(r)[fields[field]].Some? && fields[field] != "status_code"
    ensures var v := Columns(r)[fields[field]].value;
            Compiles(r, field, Ne, value, fields) &&
            var sql := SqlTruth(r, field, Ne, value, fields, rx, other) == Yes;
            var tail := EvalPred(field, Ne, value, EventOf(r), KindOf(r), fields, rx);
            (tail ==> sql) && (sql != tail <==> EqualFold(v, value) && v != value)
  {
    hide HasSub, ToLower, EventFieldValue, Columns, EventOf, RowOf, Compiles, SqlTruth;
    OneComparison(r, field, Ne, value, fields, rx, other);
  }

  /** The status of a log line, which is a number, compared with a number or with text that is
      none: when the query and the tail differ. An equality is a search for the tail; leading
      zeros do not count in the database; and numbers come before other text there. */
  predicate StatusDiffers(op: Op, v: string, value: string) {
    match op
    case Eq => v != value && (ContainsFold(v, value) || Digits(value) == Digits(v))
    case Ne => v != value && Digits(value) == Digits(v)
    case _ => NoNumber(value) && (op == Lt || op == Lte)
  }

  lemma StatusLeafDiffersIff(r: TableRow, field: string, op: Op, value: string, fields: Schema, rx: Matcher, other: Row)
    requires r.LogRow? && FieldsForKind(KindOf(r)) == Some(fields) && field in fields && fields[field] == "status_code"
    requires r.statusCode.Some? && r.statusCode.value < MAX_INT && (op == Eq || op == Ne || IsComparison(op))
    requires (op == Eq ==> !Starred(value)) &&
             (NoNumber(value) || (Digits(value).Some? && Digits(value).value < MAX_INT))
    ensures var v := Decimal(r.statusCode.value);
            Compiles(r, field, op, value, fields) &&
            var sql := SqlTruth(r, field, op, value, fields, rx, other) == Yes;
            var tail := EvalPred(field, op, value, EventOf(r), KindOf(r), fields, rx);
            sql != tail <==> StatusDiffers(op, v, value)
  {
    var n := r.statusCode.value;
    var v := Decimal(n);
    LogShows(r, field, fields);
    LogColumns(r);
    assert field != "";
    hide RowOf, EventOf, EventFieldValue, Columns, Compiles, SqlTruth, Shown, TrimSpace, ToLower, HasSub, Atoi,
         Decimal, Digits;
    OneComparison(r, field, op, value, fields, rx, other);
    StatusTail(op, n, value, rx);
    StatusSql(op, n, value, rx, other);
    assert EvalPred(field, op, value, EventOf(r), KindOf(r), fields, rx) == EvalValue(op, value, v, rx)
      by { ShownEval(r, field, op, value, fields, rx); }
    StatusCases(op, n, value);
  }

  lemma ShownEval(r: TableRow, field: string, op: Op, value: string, fields: Schema, rx: Matcher)
    requires field != "" && Shown(r, field, fields) && Columns(r)[fields[field]].Some?
    ensures EvalPred(field, op, value, EventOf(r), KindOf(r), fields, rx) ==
              EvalValue(op, value, Columns(r)[fields[field]].value, rx)
  {
    hide EventFieldValue, Columns, EventOf, EvalValue;
  }

  /** What the database makes of it. */
  lemma StatusSql(op: Op, n: nat, value: string, rx: Matcher, other: Row)
    requires op == Eq || op == Ne || IsComparison(op)
    requires (op == Eq ==> !Starred(value)) && (NoNumber(value) || Digits(value).Some?)
    ensures var f := ColumnFrag(op, "status_code", value);
            Compares(f.test, f.arg, Some(Decimal(n)), rx, other) ==
            TruthOf(if Digits(value).Some? then NumbersCompare(f.test.cmp, n, Digits(value).value)
                    else BeforeText(f.test.cmp))
    ensures ColumnFrag(op, "status_code", value).test.cmp ==
            if op == Eq then EqOp else if op == Ne then NeOp else CmpOf(op)
  {
    DigitsOfDecimal(n);
    hide Digits, Decimal, HasSub;
  }

  /** What the tail makes of it. */
  lemma StatusTail(op: Op, n: nat, value: string, rx: Matcher)
    requires n < MAX_INT && (op == Eq || op == Ne || IsComparison(op))
    requires (op == Eq ==> !Starred(value)) &&
             (NoNumber(value) || (Digits(value).Some? && Digits(value).value < MAX_INT))
    ensures EvalValue(op, value, Decimal(n), rx) ==
            match op
            case Eq => ContainsFold(Decimal(n), value)
            case Ne => Decimal(n) != value
            case _ => Digits(value).Some? && Compared(op, n, Digits(value).value)
  {
    var v := Decimal(n);
    DigitsOfDecimal(n);
    DigitsAreDigits(v);
    AtoiOfDigits(v);
    DigitsFold(v, value);
    if NoNumber(value) { NoNumberIsNoInt(value); } else { AtoiOfDigits(value); }
    if EqualFold(v, value) { EqualIsContained(v, value); }
    hide ToLower, HasSub, Digits, Decimal, Atoi, TrimSpace;
  }

  lemma DigitsFold(v: string, value: string)
    requires forall c <- v :: '0' <= c <= '9'
    ensures EqualFold(v, value) <==> v == value
  {
    if EqualFold(v, value) {
      var a, b := ToLower(v), ToLower(value);
      assert |v| == |value|;
      forall i | 0 <= i < |v| ensures v[i] == value[i] {
        assert v[i] in v && a[i] == b[i];
      }
      assert v == value;
    }
  }

  lemma NoNumberIsNoInt(s: string)
    requires NoNumber(s)
    ensures Atoi(TrimSpace(s)) == None && Digits(s) == None
  {
    TrimSpaceWithin(s);
    NoDigitsAnywhere(TrimSpace(s));
    NoDigitsAnywhere(s);
  }

  lemma NoDigitsAnywhere(s: string)
    requires NoNumber(s)
    ensures Digits(s) == None && Atoi(s) == None
  {
    if s != "" {
      assert s[|s| - 1] in s;
      assert forall c <- s[1..] :: c in s;
      if |s| > 1 { assert s[1..][|s| - 2] == s[|s| - 1]; }
    }
  }

  lemma StatusCases(op: Op, n: nat, value: string)
    requires op == Eq || op == Ne || IsComparison(op)
    requires NoNumber(value) || Digits(value).Some?
    ensures var v := Decimal(n);
            var cmp := if op == Eq then EqOp else if op == Ne then NeOp else CmpOf(op);
            var sql := if Digits(value).Some? then NumbersCompare(cmp, n, Digits(value).value) else BeforeText(cmp);
            var tail := match op
                        case Eq => ContainsFold(v, value)
                        case Ne => v != value
                        case _ => Digits(value).Some? && Compared(op, n, Digits(value).value);
            sql != tail <==> StatusDiffers(op, v, value)
  {
    var v := Decimal(n);
    DigitsOfDecimal(n);
    if NoNumber(value) { NoNumberIsNoInt(value); }
    if Digits(value).Some? { assert !NoNumber(value) by { if NoNumber(value) { NoNumberIsNoInt(value); } } }
    EqualIsContained(v, v);
    if op == Eq && Digits(value) == Some(n) && v != value && ContainsFold(v, value) { ZerosAreLonger(n, value); }
    hide ToLower, HasSub, Digits, Decimal;
  }

  /** A number with leading zeros is longer than without, so it is no part of it. */
  lemma ZerosAreLonger(n: nat, value: string)
    requires Digits(value) == Some(n) && ContainsFold(Decimal(n), value)
    ensures value == Decimal(n)
  {
    ShortestDigits(value);
    var v := Decimal(n);
    ContainedIsShorter(ToLower(v), ToLower(value));
    DigitsOfDecimal(n);
    DigitsAreDigits(v);
    DigitsFold(v, value);
  }

  lemma {:induction false} ShortestDigits(s: string)
    requires Digits(s).Some?
    ensures |Decimal(Digits(s).value)| <= |s|
    decreases |s|
  {
    if |s| > 1 { ShortestDigits(s[..|s| - 1]); }
  }

  /** For status=20 the tail sends a line with status 200; for status=0200 the query finds it; for
      status<abc the query finds it, too. */
  lemma StatusExamples()
    ensures StatusDiffers(Eq, Decimal(200), "20") && StatusDiffers(Eq, Decimal(200), "0200") &&
            StatusDiffers(Lt, Decimal(200), "abc")
  {
    assert Decimal(20) == Decimal(2) + ['0'] == "20";
    assert Decimal(200) == Decimal(20) + ['0'] == "200";
    assert ToLower("200") == "200" && ToLower("20") == "20";
    assert HasPrefix("200"[0..], "20");
    DigitsOf0200();
    DigitsOfDecimal(200);
  }

  lemma DigitsOf0200()
    ensures Digits("0200") == Some(200)
  {
    assert "0200"[..3] == "020" && "020"[..2] == "02" && "02"[..1] == "0";
    assert Digits("0") == Some(0) && Digits("02") == Some(2) && Digits("020") == Some(20);
  }

  /** The leaf compiles to a comparison. */
  predicate Compiles(r: TableRow, field: string, op: Op, value: string, fields: Schema) {
    var leaf := LeafFor(field, op, value, KindOf(r), fields);
    leaf.Ok? && LeafShape(leaf.value).Some?
  }

  /** What the database makes of it. */
  function SqlTruth(r: TableRow, field: string, op: Op, value: string, fields: Schema, rx: Matcher, other: Row): Truth
    requires Compiles(r, field, op, value, fields)
  {
    Verdict(LeafShape(LeafFor(field, op, value, KindOf(r), fields).value).value, RowOf(r, rx, other))
  }

  lemma OneComparison(r: TableRow, field: string, op: Op, value: string, fields: Schema, rx: Matcher, other: Row)
    requires field != "" && Shown(r, field, fields) && (IsComparison(op) ==> fields[field] == "status_code")
    ensures Compiles(r, field, op, value, fields)
    ensures var f := ColumnFrag(op, fields[field], value);
            SqlTruth(r, field, op, value, fields, rx, other) ==
              Compares(f.test, f.arg, Columns(r)[fields[field]], rx, other)
  {
    hide HasSub, EventFieldValue, Columns, EventOf, RowOf, Compares, ColumnFrag, Verdict;
    var f := ColumnFrag(op, fields[field], value);
    ColumnLeaf(field, op, value, KindOf(r), fields);
    ColumnName(op, fields[field], value);
    VerdictOfOne(f, RowOf(r, rx, other));
    RowCompares(r, rx, other, f.test, f.arg);
  }

  /** The registered REGEXP function finds no match in empty text, and one of the empty pattern
      in NULL; the tail matches empty text and never a missing value. */
  lemma RegexpLeafDiffersIff(r: TableRow, field: string, pattern: string, fields: Schema, rx: Matcher, other: Row)
    requires field != "" && Shown(r, field, fields) && forall text :: rx("", text)
    ensures var v := Columns(r)[fields[field]];
            Compiles(r, field, Regexp, pattern, fields) &&
            var sql := SqlTruth(r, field, Regexp, pattern, fields, rx, other);
            var tail := EvalPred(field, Regexp, pattern, EventOf(r), KindOf(r), fields, rx);
            sql != Null &&
            (sql == TruthOf(tail) <==> if pattern == "" then v.Some? else !(v == Some("") && rx(pattern, "")))
  {
    hide EventFieldValue, Columns, EventOf, RowOf, Compiles, SqlTruth;
    OneComparison(r, field, Regexp, pattern, fields, rx, other);
  }

  // ---------- searching in a column ----------

  /** What the database makes of a search in one column. */
  predicate SqlSearch(v: string, p: string) {
    var f := FreeTextFrag("message", p, Contains);
    LikeMatch(v, f.arg, f.test.escaped)
  }

  /** A text that LIKE '%p%' accepts. */
  function Blanked(p: string): string {
    if p == "" then "" else (if p[0] == '%' then "" else if p[0] == '_' then "x" else [p[0]]) + Blanked(p[1..])
  }

  lemma {:induction false} LikesBlanked(p: string)
    ensures LikeMatch(Blanked(p), p + "%", false)
  {
    if p == "" {
      assert p + "%" == "%";
      LikeAnything("");
    } else {
      var q := p + "%";
      assert q[0] == p[0] && q[1..] == p[1..] + "%";
      LikesBlanked(p[1..]);
      var v := Blanked(p);
      if p[0] == '%' { assert v == Blanked(p[1..]); } else { assert v[1..] == Blanked(p[1..]); }
    }
  }

  lemma {:induction false} BlankedDiffers(p: string)
    ensures |Blanked(p)| <= |p|
    ensures !NoLikeMeta(p) && |Blanked(p)| == |p| ==> ToLower(Blanked(p)) != ToLower(p)
  {
    if p != "" {
      BlankedDiffers(p[1..]);
      var v := Blanked(p);
      assert p == [p[0]] + p[1..];
      if p[0] != '%' && |v| == |p| {
        assert v[1..] == Blanked(p[1..]);
        assert ToLower(v)[1..] == ToLower(v[1..]) && ToLower(p)[1..] == ToLower(p[1..]);
        assert ToLower(v)[0] == Lower(v[0]) && ToLower(p)[0] == Lower(p[0]);
      }
    }
  }

  lemma ContainedIsShorter(s: string, sub: string)
    requires HasSub(s, sub)
    ensures |sub| <= |s| && (|sub| == |s| ==> sub == s)
  {
    var i :| 0 <= i <= |s| && HasPrefix(s[i..], sub);
    if |sub| == |s| { assert s[0..] == s && s[..|s|] == s; }
  }

  lemma {:induction false} LeastIsShorter(p: string)
    requires !Dangling(p)
    ensures |Least(p)| <= |p| && ('*' in p ==> |Least(p)| < |p|)
  {
    if p != "" {
      if p[0] == '\\' {
        LeastIsShorter(p[2..]);
        assert p == p[..2] + p[2..] && p[..2] == [p[0], p[1]];
      } else {
        LeastIsShorter(p[1..]);
        assert p == [p[0]] + p[1..];
      }
    }
  }

  lemma StarIn(p: string)
    requires Starred(p)
    ensures '*' in p
  {
    var i :| 0 <= i <= |p| && HasPrefix(p[i..], "*");
    assert p[i] == p[i..][..1][0];
  }

  /** A search in a column means the same in the database and in the tail on all texts exactly
      if the value has no star and no LIKE metacharacter. */
  lemma SearchAgreesIff(p: string)
    ensures (forall v :: SqlSearch(v, p) == ContainsFold(v, p)) <==> !Starred(p) && NoLikeMeta(p)
  {
    if Starred(p) {
      var v := StarTelltale(p);
    } else if !NoLikeMeta(p) {
      var v := MetaTelltale(p);
    } else {
      forall v ensures SqlSearch(v, p) == ContainsFold(v, p) { LikeContains(v, p); }
    }
  }

  lemma StarTelltale(p: string) returns (v: string)
    requires Starred(p)
    ensures SqlSearch(v, p) != ContainsFold(v, p)
  {
    hide ToLower, Glob, LikeMatch, Flat, LikePattern;
    StarIn(p);
    PassesCombine(p);
    if Dangling(p) {
      v := p;
      DanglingNeverLikes(p, p);
      EqualIsContained(p, p);
    } else {
      v := Least(p);
      LikesLeast(p);
      LeastIsShorter(p);
      if ContainsFold(v, p) { ContainedIsShorter(ToLower(v), ToLower(p)); }
    }
  }

  lemma MetaTelltale(p: string) returns (v: string)
    requires !Starred(p) && !NoLikeMeta(p)
    ensures SqlSearch(v, p) != ContainsFold(v, p)
  {
    v := Blanked(p);
    LikesBlanked(p);
    assert "%" + p + "%" == "%" + (p + "%") && ("%" + (p + "%"))[1..] == p + "%";
    BlankedDiffers(p);
    if ContainsFold(v, p) { ContainedIsShorter(ToLower(v), ToLower(p)); }
  }

  // ---------- examples ----------

  const BOBBY := AuditRow("bobby", "login", "", "", "", "ok", "", map[])

  lemma BobbyTexts()
    ensures ContainsFold("bobby", "bob") && !Starred("bob") && EqualFold("bobby", "BOBBY")
  {
    var low := ToLower("bobby");
    assert low == "bobby" && ToLower("bob") == "bob" && ToLower("BOBBY") == "bobby";
    assert HasPrefix(low[0..], "bob");
    NoStarIn("bob");
  }

  lemma BobbyShown(field: string)
    requires field == "user" || field == "message"
    ensures Shown(BOBBY, field, AUDIT_FIELDS)
    ensures Columns(BOBBY)[AUDIT_FIELDS[field]] == Some(if field == "user" then "bobby" else "")
    ensures AUDIT_FIELDS[field] == if field == "user" then "user_email" else "message"
  {
    AuditShows(BOBBY, field);
  }

  /** For user=bob the tail sends the row of bobby, and the query does not find it. */
  lemma PartOfUserIsNotFound(rx: Matcher, other: Row)
    ensures Compiles(BOBBY, "user", Eq, "bob", AUDIT_FIELDS) &&
            SqlTruth(BOBBY, "user", Eq, "bob", AUDIT_FIELDS, rx, other) != Yes
    ensures EvalPred("user", Eq, "bob", EventOf(BOBBY), KindOf(BOBBY), AUDIT_FIELDS, rx)
  {
    BobbyTexts();
    BobbyShown("user");
    hide ToLower, HasSub, EvalPred, Compiles, SqlTruth, Shown, EventOf, Columns;
    EqualityLeafDiffersIff(BOBBY, "user", Eq, "bob", AUDIT_FIELDS, rx, other);
  }

  /** For user!=BOBBY the query finds the row, and the tail does not send it. */
  lemma OtherCaseIsFound(rx: Matcher, other: Row)
    ensures Compiles(BOBBY, "user", Ne, "BOBBY", AUDIT_FIELDS) &&
            SqlTruth(BOBBY, "user", Ne, "BOBBY", AUDIT_FIELDS, rx, other) == Yes
    ensures !EvalPred("user", Ne, "BOBBY", EventOf(BOBBY), KindOf(BOBBY), AUDIT_FIELDS, rx)
  {
    BobbyTexts();
    BobbyShown("user");
    hide ToLower, HasSub, EvalPred, Compiles, SqlTruth, Shown, EventOf, Columns;
    InequalityLeafDiffersIff(BOBBY, "user", "BOBBY", AUDIT_FIELDS, rx, other);
  }

  /** A pattern that matches empty text does not find the row with its empty message. */
  lemma EmptyMessageIsNotFound(pattern: string, rx: Matcher, other: Row)
    requires pattern != "" && rx(pattern, "") && forall text :: rx("", text)
    ensures Compiles(BOBBY, "message", Regexp, pattern, AUDIT_FIELDS)
    ensures SqlTruth(BOBBY, "message", Regexp, pattern, AUDIT_FIELDS, rx, other) == No
    ensures EvalPred("message", Regexp, pattern, EventOf(BOBBY), KindOf(BOBBY), AUDIT_FIELDS, rx)
  {
    BobbyShown("message");
    hide Compiles, SqlTruth, EventFieldValue, EventOf, Columns;
    RegexpLeafDiffersIff(BOBBY, "message", pattern, AUDIT_FIELDS, rx, other);
  }

  const SEVEN := AuditRow("7", "login", "", "", "", "ok", "", map[])

  /** For user>5 OR user!=7 the tail sends the row of user 7, and the query does not find it. */
  lemma OrderingIsNotFound(rx: Matcher, other: Row)
    ensures var e := Or([Pred("user", Gt, "5"), Pred("user", Ne, "7")]);
            EvalFilter(Some(e), EventOf(SEVEN), Audit, rx) && CompileFilter(Some(e), Audit).Ok? &&
            !Matches(CompileFilter(Some(e), Audit).value, RowOf(SEVEN, rx, other))
  {
    var lost, kept := Pred("user", Gt, "5"), Pred("user", Ne, "7");
    var e := Or([lost, kept]);
    OrderingOnTextIsLost(EventOf(SEVEN), rx);
    SevenIsFaithful(rx);
    TwoCompile(lost, kept);
    hide EvalFilter, Matches, FaithfulFilter, CompileFilter, RowOf, EventOf, EvalNode, Prune, Follows, Can, NullLeaves;
    if CompileFilter(Some(e), Audit).value.applicable { QueryOnRow(e, SEVEN, rx, other); }
    OnlyApplicableMatch(CompileFilter(Some(e), Audit).value, RowOf(SEVEN, rx, other));
  }

  lemma SevenIsFaithful(rx: Matcher)
    ensures FaithfulFilter(Or([Pred("user", Gt, "5"), Pred("user", Ne, "7")]), AUDIT_FIELDS, SEVEN, rx)
  {
    var lost, kept := Pred("user", Gt, "5"), Pred("user", Ne, "7");
    assert AUDIT_FIELDS["user"] == "user_email" && Columns(SEVEN)["user_email"] == Some("7");
    assert Faithful(lost, AUDIT_FIELDS, SEVEN, rx) && Faithful(kept, AUDIT_FIELDS, SEVEN, rx);
    hide Faithful;
    TwoLeaves(lost, kept);
  }

  lemma TwoLeaves(a: Filter, b: Filter)
    requires a.Pred? && b.Pred?
    ensures Leaves(Or([a, b])) == {a, b}
  {
    var cs := [a, b];
    assert cs[1..] == [b] && [b][1..] == [];
    assert LeavesAll([]) == {};
    assert Leaves(b) == {b} && LeavesAll([b]) == {b} + {};
    assert Leaves(a) == {a} && LeavesAll(cs) == {a} + {b};
    assert {a} + {b} == {a, b};
  }

  /** A log line without a status. */
  const BARE := LogRow(true, "a.example", None, None, "GET /")

  /** For NOT status!=200 the tail sends the line without status, and the query does not find it. */
  lemma NullUnderNot(rx: Matcher, other: Row)
    ensures var e := Not(Pred("status", Ne, "200"));
            EvalFilter(Some(e), EventOf(BARE), LogAccess, rx) && CompileFilter(Some(e), LogAccess).Ok? &&
            !Matches(CompileFilter(Some(e), LogAccess).value, RowOf(BARE, rx, other))
  {
    var p, row := Pred("status", Ne, "200"), RowOf(BARE, rx, other);
    BareLeaf(rx, other);
    NegationMeans(p, row);
    NegationSent(p, EventOf(BARE), rx);
  }

  lemma BareLeaf(rx: Matcher, other: Row)
    ensures var p := Pred("status", Ne, "200");
            LeafTruth(LogAccess, LOG_ACCESS_FIELDS, RowOf(BARE, rx, other))(p) == Null &&
            !EvalPred("status", Ne, "200", EventOf(BARE), LogAccess, LOG_ACCESS_FIELDS, rx) &&
            LeafFor("status", Ne, "200", LogAccess, LOG_ACCESS_FIELDS).Ok? && Applicable(p, LOG_ACCESS_FIELDS)
  {
    var p := Pred("status", Ne, "200");
    LogShows(BARE, "status", LOG_ACCESS_FIELDS);
    BareColumn();
    hide RowOf, EventOf, LeafTruth, Shown, Columns, EvalPred;
    FaithfulColumn(BARE, p, LOG_ACCESS_FIELDS, rx, other);
    ColumnLeaf("status", Ne, "200", LogAccess, LOG_ACCESS_FIELDS);
  }

  lemma BareColumn()
    ensures KindOf(BARE) == LogAccess && "status" in LOG_ACCESS_FIELDS && LOG_ACCESS_FIELDS["status"] == "status_code"
    ensures "status_code" in Columns(BARE) && Columns(BARE)["status_code"] == None
  {
  }

  lemma NegationMeans(p: Filter, row: Row)
    requires p.Pred? && p.field in LOG_ACCESS_FIELDS && Applicable(p, LOG_ACCESS_FIELDS) &&
             LeafFor(p.field, p.op, p.value, LogAccess, LOG_ACCESS_FIELDS).Ok?
    requires LeafTruth(LogAccess, LOG_ACCESS_FIELDS, row)(p) == Null
    ensures CompileFilter(Some(Not(p)), LogAccess).Ok? && !Matches(CompileFilter(Some(Not(p)), LogAccess).value, row)
  {
    hide LeafFor, LeafTruth, Matches, Parse, Evaluate, LeafApplicable, ClauseOfLeaf;
    assert CompileNode(p, LogAccess, LOG_ACCESS_FIELDS).Ok?;
    assert CompileFilter(Some(Not(p)), LogAccess).Ok?;
    CompiledMeans(Not(p), LogAccess, row, {});
    assert Prune(Not(p), LOG_ACCESS_FIELDS) == Some(Not(p)) by { assert Prune(p, LOG_ACCESS_FIELDS).Some?; }
  }

  lemma NegationSent(p: Filter, ev: Event, rx: Matcher)
    requires p.Pred? && Applicable(p, LOG_ACCESS_FIELDS) &&
             !EvalPred(p.field, p.op, p.value, ev, LogAccess, LOG_ACCESS_FIELDS, rx)
    ensures EvalFilter(Some(Not(p)), ev, LogAccess, rx)
  {
    hide EvalPred, LeafApplicable;
    assert EvalNode(p, ev, LogAccess, LOG_ACCESS_FIELDS, rx) ==
             EvalPred(p.field, p.op, p.value, ev, LogAccess, LOG_ACCESS_FIELDS, rx);
    assert EvalNode(Not(p), ev, LogAccess, LOG_ACCESS_FIELDS, rx);
    assert Applicable(Not(p), LOG_ACCESS_FIELDS);
  }

  lemma TwoCompile(a: Filter, b: Filter)
    requires a.Pred? && b.Pred? && a.field == "user" == b.field
    ensures CompileFilter(Some(Or([a, b])), Audit).Ok?
  {
    hide FreeTextFrags, RegexpFrag, LikeFrag, HasSub;
    assert [a, b][1..] == [b] && [b][1..] == [];
    assert CompileNode(a, Audit, AUDIT_FIELDS).Ok? && CompileNode(b, Audit, AUDIT_FIELDS).Ok?;
    assert CompileAll([], Audit, AUDIT_FIELDS).Ok?;
    assert CompileAll([b], Audit, AUDIT_FIELDS).Ok?;
    assert CompileAll([a, b], Audit, AUDIT_FIELDS).Ok?;
  }

  lemma NoStarIn(s: string)
    requires '*' !in s
    ensures !Starred(s)
  {
    if Starred(s) { StarIn(s); }
  }
}
