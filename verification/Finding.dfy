/** Searches find what they are for: a text that occurs in a row, and a row whose field has the value.
    And which sources can answer a filter at all (splunklite/compile.go, exprApplicable). */
module Finding {
  import opened Text
  import opened Filters
  import opened Sql
  import opened Clauses
  import opened Compile
  import opened Eval
  import opened Agreement
  import opened Applicability
  import opened Nulls
  import opened Wildcard
  import opened Rows
  import Search
  import Tokens
  import Words

  // ---------- which sources can answer ----------

  /** c is e with one branch chosen at each OR. */
  predicate Chooses(e: Filter, c: Filter)
    decreases e, 1
  {
    match e
    case And(cs) => c.And? && |c.children| == |cs| && ChoosesEach(cs, c.children)
    case Or(cs) => ChoosesOne(cs, c)
    case Not(x) => c.Not? && Chooses(x, c.child)
    case Pred(_, _, _) => c == e
  }

  predicate ChoosesEach(cs: seq<Filter>, ds: seq<Filter>)
    requires |cs| == |ds|
    decreases cs, 0
  {
    cs == [] || (Chooses(cs[0], ds[0]) && ChoosesEach(cs[1..], ds[1..]))
  }

  predicate ChoosesOne(cs: seq<Filter>, c: Filter)
    decreases cs, 0
  {
    cs != [] && (Chooses(cs[0], c) || ChoosesOne(cs[1..], c))
  }

  /** The source has the field, if one is named, and orders it only if it is the status code. */
  predicate CanAnswer(p: Filter, fields: Schema)
    requires p.Pred?
  {
    p.field == "" || (p.field in fields && (p.op in {Gt, Gte, Lt, Lte} ==> fields[p.field] == "status_code"))
  }

  /** Every group has a member, and the source can answer every leaf. */
  ghost predicate Answered(c: Filter, fields: Schema) {
    Filled(c) && forall p <- Leaves(c) :: p.Pred? && CanAnswer(p, fields)
  }

  ghost predicate AllAnswered(ds: seq<Filter>, fields: Schema) {
    AllFilled(ds) && forall p <- LeavesAll(ds) :: p.Pred? && CanAnswer(p, fields)
  }

  /** A source can answer a filter exactly if some choice of one branch at each OR leaves only leaves
      that it can answer, and no empty AND. */
  lemma ApplicableIff(e: Filter, fields: Schema)
    ensures Applicable(e, fields) <==> exists c :: Chooses(e, c) && Answered(c, fields)
  {
    if Applicable(e, fields) { var c := SomeChoice(e, fields); }
    if c :| Chooses(e, c) && Answered(c, fields) { ChoiceSuffices(e, c, fields); }
  }

  lemma {:induction false} SomeChoice(e: Filter, fields: Schema) returns (c: Filter)
    requires Applicable(e, fields)
    ensures Chooses(e, c) && Answered(c, fields)
    decreases e, 1
  {
    match e
    case And(cs) =>
      var ds := SomeChoices(cs, fields);
      c := And(ds);
    case Or(cs) => c := ChoiceOfOne(cs, fields);
    case Not(x) =>
      var d := SomeChoice(x, fields);
      c := Not(d);
    case Pred(_, _, _) => c := e;
  }

  lemma {:induction false} SomeChoices(cs: seq<Filter>, fields: Schema) returns (ds: seq<Filter>)
    requires AllApplicable(cs, fields)
    ensures |ds| == |cs| && ChoosesEach(cs, ds) && AllAnswered(ds, fields)
    decreases cs, 0
  {
    ds := [];
    if cs != [] {
      var d := SomeChoice(cs[0], fields);
      var more := SomeChoices(cs[1..], fields);
      ds := [d] + more;
      assert ds[1..] == more;
    }
  }

  lemma {:induction false} ChoiceOfOne(cs: seq<Filter>, fields: Schema) returns (c: Filter)
    requires AnyApplicable(cs, fields)
    ensures ChoosesOne(cs, c) && Answered(c, fields)
    decreases cs, 0
  {
    if Applicable(cs[0], fields) {
      c := SomeChoice(cs[0], fields);
    } else {
      c := ChoiceOfOne(cs[1..], fields);
    }
  }

  lemma {:induction false} ChoiceSuffices(e: Filter, c: Filter, fields: Schema)
    requires Chooses(e, c) && Answered(c, fields)
    ensures Applicable(e, fields)
    decreases e, 1
  {
    match e
    case And(cs) => ChoicesSuffice(cs, c.children, fields);
    case Or(cs) => OneSuffices(cs, c, fields);
    case Not(x) => ChoiceSuffices(x, c.child, fields);
    case Pred(_, _, _) => assert e in Leaves(c);
  }

  lemma {:induction false} ChoicesSuffice(cs: seq<Filter>, ds: seq<Filter>, fields: Schema)
    requires |cs| == |ds| && ChoosesEach(cs, ds) && AllAnswered(ds, fields)
    ensures AllApplicable(cs, fields)
    decreases cs, 0
  {
    if cs != [] {
      ChoiceSuffices(cs[0], ds[0], fields);
      ChoicesSuffice(cs[1..], ds[1..], fields);
    }
  }

  lemma {:induction false} OneSuffices(cs: seq<Filter>, c: Filter, fields: Schema)
    requires ChoosesOne(cs, c) && Answered(c, fields)
    ensures AnyApplicable(cs, fields)
    decreases cs, 0
  {
    if Chooses(cs[0], c) { ChoiceSuffices(cs[0], c, fields); } else { OneSuffices(cs[1..], c, fields); }
  }

  // ---------- free text ----------

  /** The texts of a row that a query searches. */
  function TextsOf(r: TableRow): seq<string> {
    match r
    case AuditRow(user, action, _, _, _, _, message, _) => [user, action, message]
    case JobRow(jobType, name, _, output, error) => [name, output, error, jobType]
    case LogRow(_, site, _, _, preview) => [site, preview]
  }

  /** And those that the tail searches: of a job only one. */
  function TextsSeen(r: TableRow): seq<string> {
    if r.JobRow? then [if r.error != "" then r.error else if r.output != "" then r.output else r.name] else TextsOf(r)
  }

  lemma {:induction false} LikeAnyPrefix(v: string, p: string)
    requires HasPrefix(ToLower(v), ToLower(p))
    ensures LikeMatch(v, p + "%", false)
    decreases |p|
  {
    if p == "" {
      assert p + "%" == "%";
      LikeAnything(v);
    } else {
      var q := p + "%";
      assert q[0] == p[0] && q[1..] == p[1..] + "%";
      PrefixStep(ToLower(v), ToLower(p));
      assert ToLower(v)[1..] == ToLower(v[1..]) && ToLower(p)[1..] == ToLower(p[1..]);
      LikeAnyPrefix(v[1..], p[1..]);
    }
  }

  lemma {:induction false} LikeFinds(v: string, p: string)
    requires HasSub(ToLower(v), ToLower(p))
    ensures LikeMatch(v, "%" + (p + "%"), false)
    decreases |v|
  {
    var q := p + "%";
    assert ("%" + q)[1..] == q;
    HasSubStep(ToLower(v), ToLower(p));
    if HasPrefix(ToLower(v), ToLower(p)) {
      LikeAnyPrefix(v, p);
    } else {
      assert ToLower(v)[1..] == ToLower(v[1..]);
      LikeFinds(v[1..], p);
    }
  }

  lemma ColumnsOfTexts(r: TableRow)
    ensures var cols := FreeTextColumns(KindOf(r));
            |cols| == |TextsOf(r)| > 0 &&
            forall i :: 0 <= i < |cols| ==> cols[i] in Columns(r) && Columns(r)[cols[i]] == Some(TextsOf(r)[i])
  {
  }

  /** What the database makes of a search without star. */
  lemma SearchTruth(r: TableRow, text: string, fields: Schema, rx: Matcher, other: Row)
    requires !Starred(text)
    ensures LeafTruth(KindOf(r), fields, RowOf(r, rx, other))(Pred("", Contains, text)) ==
              TruthOf(exists i :: 0 <= i < |TextsOf(r)| && LikeMatch(TextsOf(r)[i], "%" + text + "%", false))
  {
    ColumnsOfTexts(r);
    hide FreeTextColumns, Columns, LikeMatch, RowOf, LeafFor, LeafTruth, Starred, TextsOf;
    var cols, row, kind := FreeTextColumns(KindOf(r)), RowOf(r, rx, other), KindOf(r);
    SearchLeaf(Contains, text, kind, fields);
    var fs := LeafFor("", Contains, text, kind, fields).value.frags;
    forall i | 0 <= i < |cols|
      ensures row(fs[i].test, fs[i].arg) == TruthOf(LikeMatch(TextsOf(r)[i], "%" + text + "%", false))
    {
      assert fs[i] == ContainsFrag(cols[i], text) by { assert !HasSub(text, "*") by { NotStarred(text); } }
      RowCompares(r, rx, other, fs[i].test, fs[i].arg);
    }
    AnyVerdict(fs, row);
    assert Cons(Atom(fs[0]), Atoms(fs[1..])) == Atoms(fs);
    assert Verdict(LeafShape(AnyIn(fs)).value, row) == VerdictEach(OrKw, Atoms(fs), row);
    LeafTruthIs(Pred("", Contains, text), AnyIn(fs), kind, fields, row);
  }

  lemma NotStarred(text: string)
    requires !Starred(text)
    ensures !HasSub(text, "*")
  {
  }

  /** A filter that is a single leaf which the source can answer. */
  lemma LeafAlone(p: Filter, kind: Kind, fields: Schema, row: Row)
    requires p.Pred? && FieldsForKind(kind) == Some(fields) && CanAnswer(p, fields)
    requires LeafFor(p.field, p.op, p.value, kind, fields).Ok?
    ensures CompileFilter(Some(p), kind).Ok?
    ensures Matches(CompileFilter(Some(p), kind).value, row) <==> LeafTruth(kind, fields, row)(p) == Yes
  {
    hide LeafFor, LeafTruth, Matches, Parse, Evaluate, ClauseOfLeaf;
    assert Applicable(p, fields);
    CompiledMeans(p, kind, row, {});
    assert Prune(p, fields) == Some(p);
  }

  lemma SentAlone(p: Filter, kind: Kind, fields: Schema, ev: Event, rx: Matcher)
    requires p.Pred? && FieldsForKind(kind) == Some(fields) && CanAnswer(p, fields)
    ensures EvalFilter(Some(p), ev, kind, rx) <==> EvalPred(p.field, p.op, p.value, ev, kind, fields, rx)
  {
    hide EvalPred;
    assert Applicable(p, fields);
  }

  /** A text that occurs in a row is found by a query for it, and a text without LIKE metacharacters is
      found only there; the tail sends the row exactly if the text occurs in what it sees. Case does
      not matter. */
  lemma TextIsFound(r: TableRow, text: string, rx: Matcher, other: Row)
    requires '*' !in text
    ensures var e, kind := Pred("", Contains, text), KindOf(r);
            var occurs, seen := exists t <- TextsOf(r) :: HasSub(ToLower(t), ToLower(text)),
                                exists t <- TextsSeen(r) :: HasSub(ToLower(t), ToLower(text));
            CompileFilter(Some(e), kind).Ok? &&
            var found := Matches(CompileFilter(Some(e), kind).value, RowOf(r, rx, other));
            && (occurs ==> found) && ('%' !in text && '_' !in text ==> (found <==> occurs))
            && (EvalFilter(Some(e), EventOf(r), kind, rx) <==> seen)
  {
    var e, kind := Pred("", Contains, text), KindOf(r);
    var fields := FieldsForKind(kind).value;
    if Starred(text) { StarIn(text); }
    assert LeafFor("", Contains, text, kind, fields).Ok? by { SearchLeaf(Contains, text, kind, fields); }
    LeafAlone(e, kind, fields, RowOf(r, rx, other));
    SentAlone(e, kind, fields, EventOf(r), rx);
    SearchTruth(r, text, fields, rx, other);
    SearchSent(r, text, fields, rx);
    hide LikeMatch, HasSub, ToLower, CompileFilter, Matches, RowOf, EventOf, EvalFilter, LeafTruth, LeafFor, TextsOf,
         TextsSeen;
    forall i | 0 <= i < |TextsOf(r)|
      ensures var v := TextsOf(r)[i];
              (HasSub(ToLower(v), ToLower(text)) ==> LikeMatch(v, "%" + text + "%", false)) &&
              ('%' !in text && '_' !in text ==>
               (LikeMatch(v, "%" + text + "%", false) <==> HasSub(ToLower(v), ToLower(text))))
    {
      TextLiked(TextsOf(r)[i], text);
    }
  }

  lemma TextLiked(v: string, text: string)
    ensures HasSub(ToLower(v), ToLower(text)) ==> LikeMatch(v, "%" + text + "%", false)
    ensures '%' !in text && '_' !in text ==>
              (LikeMatch(v, "%" + text + "%", false) <==> HasSub(ToLower(v), ToLower(text)))
  {
    hide LikeMatch, HasSub, ToLower;
    assert "%" + text + "%" == "%" + (text + "%");
    if HasSub(ToLower(v), ToLower(text)) { LikeFinds(v, text); }
    if NoLikeMeta(text) { LikeSearch(v, text); }
  }

  lemma SearchSent(r: TableRow, text: string, fields: Schema, rx: Matcher)
    ensures EvalPred("", Contains, text, EventOf(r), KindOf(r), fields, rx) <==>
              exists t <- TextsSeen(r) :: HasSub(ToLower(t), ToLower(text))
  {
    hide HasSub, ToLower, EventOf, EventFieldValue, EventColumnValue;
    var kind, cols := KindOf(r), FreeTextColumns(KindOf(r));
    if r.JobRow? {
      JobSearched(r);
      assert cols[0] in cols;
      assert EventColumnValue(EventOf(r), cols[0], kind) == Some(JobText(r));
    } else {
      AuditAndLogsAreSearchable(r);
      ColumnsOfTexts(r);
      hide Columns, FreeTextColumns;
      if t :| t in TextsSeen(r) && HasSub(ToLower(t), ToLower(text)) {
        var i :| 0 <= i < |TextsOf(r)| && TextsOf(r)[i] == t;
        assert EventColumnValue(EventOf(r), cols[i], kind) == Some(t);
      }
    }
  }

  // ---------- fields ----------

  /** The text that a query compares when it names a field. */
  function FieldText(r: TableRow, field: string): Option<string> {
    match r
    case AuditRow(user, action, resourceType, resourceId, domain, status, message, _) =>
      if field == "user" || field == "user_email" then Some(user)
      else if field == "action" then Some(action)
      else if field == "resource_type" then Some(resourceType)
      else if field == "resource_id" then Some(resourceId)
      else if field == "domain" then Some(domain)
      else if field == "status" then Some(status)
      else if field == "message" then Some(message)
      else None
    case JobRow(jobType, name, status, output, error) =>
      if field == "job_type" || field == "type" then Some(jobType)
      else if field == "name" || field == "message" then Some(name)
      else if field == "status" then Some(status)
      else if field == "output" then Some(output)
      else if field == "error" then Some(error)
      else None
    case LogRow(_, site, _, _, _) => if field == "site" then Some(site) else None
  }

  lemma FieldColumn(r: TableRow, field: string)
    requires FieldText(r, field).Some?
    ensures var fields := FieldsForKind(KindOf(r));
            fields.Some? && field != "" && field in fields.value && fields.value[field] in Columns(r) &&
            Columns(r)[fields.value[field]] == FieldText(r, field) &&
            fields.value[field] != "status_code" && fields.value[field] != "raw_preview"
  {
  }

  /** A query for a field with a value, without star, finds exactly the rows that have it there, and one for
      the field without the value exactly the others. Case matters. */
  lemma ValueIsFound(r: TableRow, field: string, value: string, rx: Matcher, other: Row)
    requires FieldText(r, field).Some? && '*' !in value
    ensures var kind := KindOf(r);
            var with, without := CompileFilter(Some(Pred(field, Eq, value)), kind),
            CompileFilter(Some(Pred(field, Ne, value)), kind);
            with.Ok? && without.Ok? &&
            (Matches(with.value, RowOf(r, rx, other)) <==> FieldText(r, field).value == value) &&
            (Matches(without.value, RowOf(r, rx, other)) <==> FieldText(r, field).value != value)
  {
    FieldColumn(r, field);
    var kind, fields := KindOf(r), FieldsForKind(KindOf(r)).value;
    var v := FieldText(r, field).value;
    if Starred(value) { StarIn(value); }
    TextCompares(fields[field], v, value, rx, other);
    hide Columns, FieldText, CompileFilter, Matches, RowOf, LeafTruth, LeafFor, ColumnFrag, Compares;
    ColumnTruth(r, field, Eq, value, fields, rx, other);
    LeafAlone(Pred(field, Eq, value), kind, fields, RowOf(r, rx, other));
    ColumnTruth(r, field, Ne, value, fields, rx, other);
    LeafAlone(Pred(field, Ne, value), kind, fields, RowOf(r, rx, other));
  }

  lemma TextCompares(col: string, v: string, value: string, rx: Matcher, other: Row)
    requires col != "status_code" && col != "raw_preview" && !Starred(value)
    ensures var f := ColumnFrag(Eq, col, value); Compares(f.test, f.arg, Some(v), rx, other) == TruthOf(v == value)
    ensures var f := ColumnFrag(Ne, col, value); Compares(f.test, f.arg, Some(v), rx, other) == TruthOf(v != value)
  {
    hide HasSub, LikePattern;
  }

  predicate Stands(op: Op, n: int, m: int) {
    match op
    case Eq => n == m
    case Ne => n != m
    case Gt => n > m
    case Gte => n >= m
    case Lt => n < m
    case Lte => n <= m
    case _ => false
  }

  /** A query that compares the status of log lines with a number finds exactly those for which the numbers
      compare so, and the tail sends just them, except for equality. */
  lemma StatusIsFound(r: TableRow, op: Op, m: nat, rx: Matcher, other: Row)
    requires r.LogRow? && r.access && r.statusCode.Some? && r.statusCode.value < MAX_INT && m < MAX_INT
    requires op in {Eq, Ne, Gt, Gte, Lt, Lte}
    ensures var e := Pred("status", op, Decimal(m));
            CompileFilter(Some(e), LogAccess).Ok? &&
            (Matches(CompileFilter(Some(e), LogAccess).value, RowOf(r, rx, other)) <==>
             Stands(op, r.statusCode.value, m)) &&
            (op != Eq ==> (EvalFilter(Some(e), EventOf(r), LogAccess, rx) <==> Stands(op, r.statusCode.value, m)))
  {
    var n, value, fields := r.statusCode.value, Decimal(m), LOG_ACCESS_FIELDS;
    var e := Pred("status", op, value);
    LogColumns(r);
    LogShows(r, "status", fields);
    StatusColumn();
    StatusCompares(op, n, m, rx, other);
    ShownEval(r, "status", op, value, fields, rx);
    assert KindOf(r) == LogAccess && FieldsForKind(LogAccess) == Some(fields) && CanAnswer(e, fields);
    assert Columns(r)["status_code"] == Some(value) || Columns(r)["status_code"] == Some(Decimal(n));
    hide *;
    ColumnTruth(r, "status", op, value, fields, rx, other);
    LeafAlone(e, LogAccess, fields, RowOf(r, rx, other));
    SentAlone(e, LogAccess, fields, EventOf(r), rx);
    TruthOfYes(Stands(op, n, m));
  }

  lemma TruthOfYes(b: bool)
    ensures TruthOf(b) == Yes <==> b
  {
  }

  lemma StatusColumn()
    ensures "status" in LOG_ACCESS_FIELDS && LOG_ACCESS_FIELDS["status"] == "status_code"
  {
  }

  lemma StatusCompares(op: Op, n: nat, m: nat, rx: Matcher, other: Row)
    requires n < MAX_INT && m < MAX_INT && op in {Eq, Ne, Gt, Gte, Lt, Lte}
    ensures var f := ColumnFrag(op, "status_code", Decimal(m));
            Compares(f.test, f.arg, Some(Decimal(n)), rx, other) == TruthOf(Stands(op, n, m))
    ensures op != Eq ==> EvalValue(op, Decimal(m), Decimal(n), rx) == Stands(op, n, m)
  {
    var value := Decimal(m);
    DigitsOfDecimal(m);
    DigitsOfDecimal(n);
    DigitsAreDigits(value);
    if Starred(value) { StarIn(value); }
    hide Decimal, Digits, Starred, Compares, ColumnFrag, EvalValue, ContainsFold;
    StatusSql(op, n, value, rx, other);
    StatusTail(op, n, value, rx);
  }

  // ---------- from the search to the row ----------

  /** Who types a word that occurs in a row finds the row, and is sent it if the tail sees the word. */
  lemma TypedWordIsFound(r: TableRow, word: string, valid: Search.RegexCheck, rx: Matcher, other: Row)
    requires Words.Bare(word) && !Words.Keyword(word) && '*' !in word
    requires !exists name, sign, op, value :: Words.Says(word, name, sign, op, value)
    ensures Search.ParseSearch(word, valid).Ok? &&
            var e, kind := Search.ParseSearch(word, valid).value.filter, KindOf(r);
            CompileFilter(e, kind).Ok? &&
            ((exists t <- TextsOf(r) :: HasSub(ToLower(t), ToLower(word))) ==>
               Matches(CompileFilter(e, kind).value, RowOf(r, rx, other))) &&
            (EvalFilter(e, EventOf(r), kind, rx) <==> exists t <- TextsSeen(r) :: HasSub(ToLower(t), ToLower(word)))
  {
    hide HasSub, ToLower, CompileFilter, Matches, RowOf, EventOf, EvalFilter, TextsOf, TextsSeen;
    Words.PlainWordIff(word, valid);
    TextIsFound(r, word, rx, other);
  }

  lemma DecimalIsBare(m: nat)
    ensures Decimal(m) != "" && forall c <- Decimal(m) :: '0' <= c <= '9'
  {
    DigitsOfDecimal(m);
    DigitsAreDigits(Decimal(m));
  }

  /** Who types status, a sign and a number finds the log lines whose status compares so. */
  lemma TypedStatusIsFound(r: TableRow, sign: string, op: Op, m: nat, valid: Search.RegexCheck, rx: Matcher, other: Row)
    requires r.LogRow? && r.access && r.statusCode.Some? && r.statusCode.value < MAX_INT && m < MAX_INT
    requires Words.SignFor(sign, op)
    ensures Search.ParseSearch("status" + sign + Decimal(m), valid).Ok? &&
            var e := Search.ParseSearch("status" + sign + Decimal(m), valid).value.filter;
            CompileFilter(e, LogAccess).Ok? &&
            (Matches(CompileFilter(e, LogAccess).value, RowOf(r, rx, other)) <==> Stands(op, r.statusCode.value, m))
  {
    StatusIsFound(r, op, m, rx, other);
    StatusIsRead(sign, op, m, valid);
    hide Decimal, CompileFilter, Matches, RowOf, EventOf, EvalFilter;
  }

  lemma StatusIsRead(sign: string, op: Op, m: nat, valid: Search.RegexCheck)
    requires Words.SignFor(sign, op)
    ensures Search.ParseSearch("status" + sign + Decimal(m), valid) ==
              Ok(Search.Query(Some(Pred("status", op, Decimal(m))), []))
  {
    var value := Decimal(m);
    DecimalIsBare(m);
    SmallLetters("status");
    assert value[0] in value;
    StatusSays(sign, op, value);
    hide Decimal, ToLower, TrimSpace;
    Words.FieldWordIsRead("status", sign, op, value, valid);
  }

  lemma StatusSays(sign: string, op: Op, value: string)
    requires Words.SignFor(sign, op) && value != "" && forall c <- value :: '0' <= c <= '9'
    ensures Words.Says("status" + sign + value, "status", sign, op, value) && Words.Bare("status" + sign + value)
    ensures '*' !in value
  {
    assert value[0] in value;
    assert forall c <- sign :: c in {'>', '<', '!', '=', ':'};
    assert forall c <- "status" :: 'a' <= c <= 'z';
    assert forall c <- "status" + sign + value :: c in "status" || c in sign || c in value;
  }

  lemma {:induction false} AskedCompiles(e: Filter, kind: Kind, fields: Schema)
    requires Tokens.Asked(e)
    ensures CompileNode(e, kind, fields).Ok?
    decreases e, 1
  {
    match e
    case And(cs) => AllAskedCompile(cs, kind, fields);
    case Or(cs) => AllAskedCompile(cs, kind, fields);
    case Not(c) => AskedCompiles(c, kind, fields);
    case Pred(_, _, _) =>
  }

  lemma {:induction false} AllAskedCompile(cs: seq<Filter>, kind: Kind, fields: Schema)
    requires Tokens.AllAsked(cs)
    ensures CompileAll(cs, kind, fields).Ok?
    decreases cs, 0
  {
    if cs != [] {
      AskedCompiles(cs[0], kind, fields);
      AllAskedCompile(cs[1..], kind, fields);
    }
  }

  /** Whatever can be parsed can be compiled, for every source. */
  lemma SearchesCompile(text: string, kind: Kind, valid: Search.RegexCheck)
    requires kind != Unknown
    ensures match Search.ParseSearch(text, valid) case Err(_) => true case Ok(q) => CompileFilter(q.filter, kind).Ok?
  {
    hide Search.ParseSearch, Tokens.Asked, CompileNode, Applicable;
    Tokens.SearchIsAsked(text, valid);
    var r := Search.ParseSearch(text, valid);
    if r.Ok? && r.value.filter.Some? { AskedCompiles(r.value.filter.value, kind, FieldsForKind(kind).value); }
  }

  /** Who asks for everything finds every row, and is sent it. */
  lemma EverythingIsFound(kind: Kind, row: Row, ev: Event, rx: Matcher)
    ensures CompileFilter(None, kind).Ok? && Matches(CompileFilter(None, kind).value, row) &&
            EvalFilter(None, ev, kind, rx)
  {
  }
}
