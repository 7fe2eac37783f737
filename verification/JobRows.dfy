/** Jobs in a query and in the live tail (splunklite/service.go, mapJobEvents; eval_filter.go). The query
    looks at the columns of a job; the tail sees one text in the place of most of them: the
    error, or else the output, or else the name. */
module JobRows {
  import opened Text
  import opened Filters
  import opened Sql
  import opened Clauses
  import opened Compile
  import opened Eval
  import opened Agreement
  import opened Nulls
  import opened Wildcard
  import opened Rows

  /** When query and tail differ on a comparison of column v, where the tail sees the text instead. */
  predicate JobDiffers(op: Op, v: string, text: string, value: string, rx: Matcher) {
    match op
    case Regexp => (value == "" || (v != "" && rx(value, v))) != rx(value, text)
    case Ne => (v != value) != !EqualFold(text, value)
    case Contains => ContainsFold(v, value) != ContainsFold(text, value)
    case _ =>
      if Starred(value) then MatchWildcard(v, value) != MatchWildcard(text, value)
      else (v == value) != ContainsFold(text, value)
  }

  /** A comparison of the name, the output, the error or the message of a job: exactly when query and
      tail differ. The message is the name for the query. */
  lemma JobLeafDiffersIff(r: TableRow, field: string, op: Op, value: string, rx: Matcher, other: Row)
    requires r.JobRow? && field in JOB_FIELDS && field !in JOB_SHOWN && !IsComparison(op)
    requires JOB_FIELDS[field] in Columns(r) && Columns(r)[JOB_FIELDS[field]].Some? ==>
               (op == Contains ==> !Starred(value) && NoLikeMeta(value)) &&
               ((op == Eq || op == Like) && Starred(value) ==>
                PlainWildcard(Columns(r)[JOB_FIELDS[field]].value, value))
    ensures JOB_FIELDS[field] in Columns(r) && Columns(r)[JOB_FIELDS[field]].Some?
    ensures var v := Columns(r)[JOB_FIELDS[field]].value;
            var sql := LeafTruth(Job, JOB_FIELDS, RowOf(r, rx, other))(Pred(field, op, value)) == Yes;
            var tail := EvalPred(field, op, value, EventOf(r), Job, JOB_FIELDS, rx);
            sql != tail <==> JobDiffers(op, v, JobText(r), value, rx)
  {
    JobTexts(r, field);
    ColumnTruth(r, field, op, value, JOB_FIELDS, rx, other);
    JobTail(op, value, JobText(r), rx);
    JobSql(JOB_FIELDS[field], op, Columns(r)[JOB_FIELDS[field]].value, value, rx, other);
    hide Columns, EventOf, EventFieldValue, EvalValue, Compares, ColumnFrag, LeafTruth, RowOf, JobText;
  }

  /** What the database makes of a comparison of a text column. */
  lemma JobSql(col: string, op: Op, v: string, value: string, rx: Matcher, other: Row)
    requires !IsComparison(op) && col in ["name", "output", "error"]
    requires op == Contains ==> !Starred(value) && NoLikeMeta(value)
    requires (op == Eq || op == Like) && Starred(value) ==> PlainWildcard(v, value)
    ensures var f := ColumnFrag(op, col, value);
            Compares(f.test, f.arg, Some(v), rx, other) == TruthOf(
              match op
              case Regexp => value == "" || (v != "" && rx(value, v))
              case Ne => v != value
              case Contains => ContainsFold(v, value)
              case _ => if Starred(value) then MatchWildcard(v, value) else v == value)
  {
    hide HasSub, LikePattern, LikeMatch, MatchWildcard, ToLower, Digits, Decimal;
    match op
    case Contains => SearchCompares(col, v, value, rx, other);
    case Like => if Starred(value) { StarCompares(col, v, value, rx, other); }
    case Eq => if Starred(value) { StarCompares(col, v, value, rx, other); }
    case _ =>
  }

  /** And what the tail makes of it. */
  lemma JobTail(op: Op, value: string, text: string, rx: Matcher)
    requires !IsComparison(op)
    ensures EvalValue(op, value, text, rx) ==
            match op
            case Regexp => rx(value, text)
            case Ne => !EqualFold(text, value)
            case Contains => ContainsFold(text, value)
            case _ => if Starred(value) then MatchWildcard(text, value) else ContainsFold(text, value)
  {
    hide HasSub, ToLower;
    StarsComeFromStars(value);
    if EqualFold(text, value) { EqualIsContained(text, value); }
  }

  /** A search over all columns of a job: the query finds whatever the tail sends, and they differ
      exactly when a column has a hit and the text that the tail sees has none. */
  lemma JobSearchDiffersIff(r: TableRow, op: Op, value: string, rx: Matcher, other: Row)
    requires r.JobRow? && (op == Regexp || op == Contains || op == Like || op == Eq) &&
             FaithfulSearchOn(op, value, r, rx)
    ensures var sql := LeafTruth(Job, JOB_FIELDS, RowOf(r, rx, other))(Pred("", op, value)) == Yes;
            var tail := EvalPred("", op, value, EventOf(r), Job, JOB_FIELDS, rx);
            (tail ==> sql) &&
            (sql != tail <==> ColumnHit(r, op, value, rx) && !EvalColumn(op, value, Some(JobText(r)), rx))
  {
    hide Columns, EventOf, LeafTruth, EvalFreeText, EvalColumn, ColumnHit, FaithfulSearchOn;
    JobSearch(r, op, value, JOB_FIELDS, rx, other);
  }

  /** A job that failed after some output. */
  const FAILED_JOB := JobRow("backup", "nightly", "failed", "copied", "disk full")

  lemma CopiedTexts()
    ensures ContainsFold("copied", "copied") && !ContainsFold("disk full", "copied") && NoLikeMeta("copied") &&
            !Starred("copied")
  {
    assert ToLower("copied") == "copied" && ToLower("disk full") == "disk full";
    assert HasPrefix("copied"[0..], "copied");
    var s, sub := "disk full", "copied";
    forall i | 0 <= i <= |s| ensures !HasPrefix(s[i..], sub) {
      if i < |s| { assert s[i..][0] == s[i] != 'c'; }
    }
    assert !HasSub(s, sub);
    NoStarIn("copied");
  }

  /** For the search `copied` the query finds the job, and the tail does not send it. */
  lemma OutputIsNotSent(rx: Matcher, other: Row)
    ensures LeafTruth(Job, JOB_FIELDS, RowOf(FAILED_JOB, rx, other))(Pred("", Contains, "copied")) == Yes
    ensures !EvalPred("", Contains, "copied", EventOf(FAILED_JOB), Job, JOB_FIELDS, rx)
  {
    CopiedTexts();
    JobSearched(FAILED_JOB);
    hide LeafTruth, RowOf, EventOf, EvalPred, Columns, ContainsFold, HasSub, NoLikeMeta, EventColumnValue;
    assert FreeTextColumns(Job)[1] == "output";
    assert ColumnHit(FAILED_JOB, Contains, "copied", rx);
    JobSearchDiffersIff(FAILED_JOB, Contains, "copied", rx, other);
  }
}
