/** Compiling filters to SQL (splunklite/compile.go): text as tokens, and
    arguments in the order of the placeholders. */
module Compile {
  import opened Text
  import opened Filters
  import opened Sql
  import opened Clauses

  /** Text and its arguments; no text means that nothing is left to test. */
  datatype Clause = Clause(text: seq<Tok>, args: seq<string>)

  const EMPTY := Clause([], [])

  // ---------- leaves ----------

  /** What a predicate compiles to: nothing, one comparison, or any of several. */
  datatype Leaf = Dropped | OneOf(frag: Frag) | AnyIn(frags: seq<Frag>)

  function TextOperand(column: string): Operand {
    if column == "status_code" then CastCol("status_code", AsText) else Col(column)
  }

  /** The three passes over a pattern with wildcards. */
  function LikePattern(pattern: string): string {
    ReplaceAll(ReplaceAll(ReplaceAll(pattern, "%", "\\%"), "_", "\\_"), "*", "%")
  }

  /** likeSQL. */
  function LikeFrag(column: string, pattern: string): Frag {
    if HasSub(pattern, "*") then Frag(Test(TextOperand(column), LikeOp, true), LikePattern(pattern))
    else Frag(Test(TextOperand(column), EqOp, false), pattern)
  }

  function RegexpFrag(column: string, pattern: string): Frag {
    Frag(Test(TextOperand(column), RegexpOp, false), pattern)
  }

  function ContainsFrag(column: string, value: string): Frag {
    Frag(Test(Col(column), LikeOp, false), "%" + value + "%")
  }

  function FreeTextFrag(column: string, value: string, op: Op): Frag {
    if op == Like || HasSub(value, "*") then LikeFrag(column, value) else ContainsFrag(column, value)
  }

  function FreeTextFrags(columns: seq<string>, value: string, op: Op): seq<Frag> {
    seq(|columns|, i requires 0 <= i < |columns| => FreeTextFrag(columns[i], value, op))
  }

  function RegexpFrags(columns: seq<string>, pattern: string): seq<Frag> {
    seq(|columns|, i requires 0 <= i < |columns| => RegexpFrag(columns[i], pattern))
  }

  function FragTexts(fs: seq<Frag>): seq<seq<Tok>> {
    seq(|fs|, i requires 0 <= i < |fs| => FragToks(fs[i]))
  }

  function FragArgs(fs: seq<Frag>): seq<string> {
    seq(|fs|, i requires 0 <= i < |fs| => fs[i].arg)
  }

  function JoinToks(parts: seq<seq<Tok>>, sep: Tok): seq<Tok> {
    if parts == [] then [] else parts[0] + EachAfter(sep, parts[1..])
  }

  /** Every part with the separator in front of it. */
  function EachAfter(sep: Tok, parts: seq<seq<Tok>>): seq<Tok> {
    if parts == [] then [] else [sep] + parts[0] + EachAfter(sep, parts[1..])
  }

  function Parens(toks: seq<Tok>): seq<Tok> {
    [LParen] + toks + [RParen]
  }

  /** A free-text leaf: the fragments of all columns, joined by OR in parentheses. */
  function AnyOf(fs: seq<Frag>): Clause {
    Clause(Parens(JoinToks(FragTexts(fs), OrKw)), FragArgs(fs))
  }

  method FreeTextContains(columns: seq<string>, value: string, op: Op) returns (c: Clause)
    ensures c == AnyOf(FreeTextFrags(columns, value, op))
  {
    hide HasSub, LikePattern, JoinToks;
    var parts: seq<seq<Tok>> := [];
    var args: seq<string> := [];
    ghost var all := FreeTextFrags(columns, value, op);
    for i := 0 to |columns|
      invariant parts == FragTexts(all[..i]) && args == FragArgs(all[..i])
    {
      var f: Frag;
      if op == Like || HasSub(value, "*") {
        f := LikeFrag(columns[i], value);
      } else {
        f := Frag(Test(Col(columns[i]), LikeOp, false), "%" + value + "%");
      }
      OneMore(all, i);
      parts := parts + [FragToks(f)];
      args := args + [f.arg];
    }
    assert all[..|columns|] == all;
    return Clause(Parens(JoinToks(parts, OrKw)), args);
  }

  lemma OneMore(fs: seq<Frag>, i: nat)
    requires i < |fs|
    ensures FragTexts(fs[..i + 1]) == FragTexts(fs[..i]) + [FragToks(fs[i])]
    ensures FragArgs(fs[..i + 1]) == FragArgs(fs[..i]) + [fs[i].arg]
  {
    hide FragToks;
  }

  method FreeTextRegexp(columns: seq<string>, pattern: string) returns (c: Clause)
    ensures c == AnyOf(RegexpFrags(columns, pattern))
  {
    hide JoinToks;
    var parts: seq<seq<Tok>> := [];
    var args: seq<string> := [];
    ghost var all := RegexpFrags(columns, pattern);
    for i := 0 to |columns|
      invariant parts == FragTexts(all[..i]) && args == FragArgs(all[..i])
    {
      var f := RegexpFrag(columns[i], pattern);
      OneMore(all, i);
      parts := parts + [FragToks(f)];
      args := args + [f.arg];
    }
    assert all[..|columns|] == all;
    return Clause(Parens(JoinToks(parts, OrKw)), args);
  }

  function CmpOf(op: Op): Cmp
    requires IsComparison(op)
  {
    match op
    case Gt => GtOp
    case Gte => GeOp
    case Lt => LtOp
    case Lte => LeOp
  }

  /** compilePred. */
  function LeafFor(field: string, op: Op, value: string, kind: Kind, fields: Schema): Result<Leaf> {
    if field == "" then
      if op == Regexp then Ok(AnyIn(RegexpFrags(FreeTextColumns(kind), value)))
      else if op == Contains || op == Like || op == Eq then Ok(AnyIn(FreeTextFrags(FreeTextColumns(kind), value, op)))
      else Err("unsupported free-text operator")
    else if field !in fields then Ok(Dropped)
    else
      var col := fields[field];
      match op
      case Regexp => Ok(OneOf(RegexpFrag(col, value)))
      case Like => Ok(OneOf(LikeFrag(col, value)))
      case Eq =>
        if !HasSub(value, "*") && col != "status_code" then
          if col == "raw_preview" then Ok(OneOf(ContainsFrag(col, value)))
          else Ok(OneOf(Frag(Test(Col(col), EqOp, false), value)))
        else if !HasSub(value, "*") then Ok(OneOf(Frag(Test(Col(col), EqOp, false), value)))
        else Ok(OneOf(LikeFrag(col, value)))
      case Ne => Ok(OneOf(Frag(Test(Col(col), NeOp, false), value)))
      case Contains => Ok(AnyIn(FreeTextFrags([col], value, Contains)))
      case _ =>
        if col != "status_code" then Ok(Dropped)
        else Ok(OneOf(Frag(Test(CastCol(col, AsInteger), CmpOf(op), false), value)))
  }

  function ClauseOfLeaf(leaf: Leaf): Clause {
    match leaf
    case Dropped => EMPTY
    case OneOf(f) => Clause(FragToks(f), [f.arg])
    case AnyIn(fs) => AnyOf(fs)
  }

  // ---------- filters ----------

  function Texts(cs: seq<Clause>): seq<seq<Tok>> {
    if cs == [] then [] else [cs[0].text] + Texts(cs[1..])
  }

  function Args(cs: seq<Clause>): seq<string> {
    if cs == [] then [] else cs[0].args + Args(cs[1..])
  }

  function Joined(cs: seq<Clause>, sep: Tok): Clause {
    if cs == [] then EMPTY else Clause(Parens(JoinToks(Texts(cs), sep)), Args(cs))
  }

  function Negation(c: Clause): Clause {
    if c.text == [] then EMPTY else Clause([LParen, NotKw, LParen] + c.text + [RParen, RParen], c.args)
  }

  /** compileNode. */
  function CompileNode(e: Filter, kind: Kind, fields: Schema): Result<Clause>
    decreases e, 1
  {
    match e
    case And(cs) => (match CompileAll(cs, kind, fields) case Err(m) => Err(m) case Ok(kept) => Ok(Joined(kept, AndKw)))
    case Or(cs) => (match CompileAll(cs, kind, fields) case Err(m) => Err(m) case Ok(kept) => Ok(Joined(kept, OrKw)))
    case Not(c) => (match CompileNode(c, kind, fields) case Err(m) => Err(m) case Ok(w) => Ok(Negation(w)))
    case Pred(field, op, value) =>
      (match LeafFor(field, op, value, kind, fields) case Err(m) => Err(m) case Ok(leaf) => Ok(ClauseOfLeaf(leaf)))
  }

  /** The clauses of all children that leave something to test. */
  function CompileAll(cs: seq<Filter>, kind: Kind, fields: Schema): Result<seq<Clause>>
    decreases cs, 0
  {
    if cs == [] then Ok([])
    else
      match CompileNode(cs[0], kind, fields)
      case Err(m) => Err(m)
      case Ok(w) =>
        match CompileAll(cs[1..], kind, fields)
        case Err(m) => Err(m)
        case Ok(kept) => Ok(if w.text == [] then kept else [w] + kept)
  }

  lemma ClauseStep(cs: seq<Clause>)
    requires cs != []
    ensures Texts(cs) == [cs[0].text] + Texts(cs[1..]) && Args(cs) == cs[0].args + Args(cs[1..])
  {
  }

  lemma NoClauses()
    ensures Texts([]) == [] && Args([]) == []
  {
  }

  lemma {:induction false} AppendClause(kept: seq<Clause>, w: Clause)
    ensures Texts(kept + [w]) == Texts(kept) + [w.text] && Args(kept + [w]) == Args(kept) + w.args
    decreases |kept|
  {
    hide Texts, Args;
    NoClauses();
    ClauseStep(kept + [w]);
    if kept == [] {
      assert (kept + [w])[1..] == [];
    } else {
      assert (kept + [w])[0] == kept[0] && (kept + [w])[1..] == kept[1..] + [w];
      ClauseStep(kept);
      AppendClause(kept[1..], w);
    }
  }

  method CompileNodeLoop(e: Filter, kind: Kind, fields: Schema) returns (r: Result<Clause>)
    ensures r == CompileNode(e, kind, fields)
    decreases e, 1
  {
    hide LeafFor, CompileAll, ClauseOfLeaf;
    match e
    case And(cs) =>
      var kept := CompileKids(cs, kind, fields);
      if kept.Err? { return Err(kept.error); }
      return Ok(Joined(kept.value, AndKw));
    case Or(cs) =>
      var kept := CompileKids(cs, kind, fields);
      if kept.Err? { return Err(kept.error); }
      return Ok(Joined(kept.value, OrKw));
    case Not(c) =>
      var w := CompileNodeLoop(c, kind, fields);
      if w.Err? { return Err(w.error); }
      if w.value.text == [] { return Ok(EMPTY); }
      return Ok(Clause([LParen, NotKw, LParen] + w.value.text + [RParen, RParen], w.value.args));
    case Pred(field, op, value) =>
      r := CompilePred(field, op, value, kind, fields);
  }

  /** The clause of a leaf, or why it has none. */
  function LeafClause(field: string, op: Op, value: string, kind: Kind, fields: Schema): Result<Clause> {
    match LeafFor(field, op, value, kind, fields) case Err(m) => Err(m) case Ok(leaf) => Ok(ClauseOfLeaf(leaf))
  }

  method CompilePred(field: string, op: Op, value: string, kind: Kind, fields: Schema) returns (r: Result<Clause>)
    ensures r == LeafClause(field, op, value, kind, fields)
  {
    hide HasSub, LikePattern, FreeTextFrags, RegexpFrags, AnyOf;
    if field == "" {
      var c: Clause;
      match op {
        case Regexp => c := FreeTextRegexp(FreeTextColumns(kind), value);
        case Contains => c := FreeTextContains(FreeTextColumns(kind), value, op);
        case Like => c := FreeTextContains(FreeTextColumns(kind), value, op);
        case Eq => c := FreeTextContains(FreeTextColumns(kind), value, op);
        case _ => return Err("unsupported free-text operator");
      }
      return Ok(c);
    }
    if field !in fields { return Ok(EMPTY); }
    var col := fields[field];
    var f: Frag;
    match op {
      case Regexp => f := RegexpFrag(col, value);
      case Like => f := LikeFrag(col, value);
      case Eq =>
        if !HasSub(value, "*") && col == "raw_preview" {
          f := ContainsFrag(col, value);
        } else if !HasSub(value, "*") {
          f := Frag(Test(Col(col), EqOp, false), value);
        } else {
          f := LikeFrag(col, value);
        }
      case Ne => f := Frag(Test(Col(col), NeOp, false), value);
      case Contains =>
        var c := FreeTextContains([col], value, Contains);
        return Ok(c);
      case _ =>
        if col != "status_code" { return Ok(EMPTY); }
        f := Frag(Test(CastCol(col, AsInteger), CmpOf(op), false), value);
    }
    return Ok(Clause(FragToks(f), [f.arg]));
  }

  /** The loop over children: an error ends it, an empty clause is passed over. */
  method CompileKids(cs: seq<Filter>, kind: Kind, fields: Schema) returns (r: Result<seq<Clause>>)
    ensures r == CompileAll(cs, kind, fields)
    decreases cs, 0
  {
    hide CompileNode;
    var kept: seq<Clause> := [];
    BehindNothing(CompileAll(cs, kind, fields));
    assert cs[0..] == cs;
    for i := 0 to |cs|
      invariant Behind(kept, CompileAll(cs[i..], kind, fields)) == CompileAll(cs, kind, fields)
    {
      var w := CompileNodeLoop(cs[i], kind, fields);
      KidsStep(cs, i, kind, fields);
      if w.Err? { return Err(w.error); }
      if w.value.text == [] { continue; }
      ghost var rest := CompileAll(cs[i + 1..], kind, fields);
      BehindMore(kept, w.value, rest);
      kept := kept + [w.value];
    }
    assert cs[|cs|..] == [];
    assert kept + [] == kept;
    return Ok(kept);
  }

  lemma KidsStep(cs: seq<Filter>, i: nat, kind: Kind, fields: Schema)
    requires i < |cs|
    ensures CompileAll(cs[i..], kind, fields) ==
            match CompileNode(cs[i], kind, fields)
            case Err(m) => Err(m)
            case Ok(w) =>
              match CompileAll(cs[i + 1..], kind, fields)
              case Err(m) => Err(m)
              case Ok(kept) => Ok(if w.text == [] then kept else [w] + kept)
  {
    hide CompileNode;
    assert cs[i..][0] == cs[i] && cs[i..][1..] == cs[i + 1..];
  }

  // ---------- whole filters ----------

  datatype SqlFilter = SqlFilter(wheres: seq<seq<Tok>>, args: seq<string>, applicable: bool)

  function CompileFilter(e: Option<Filter>, kind: Kind): Result<SqlFilter> {
    if e == None then Ok(SqlFilter([], [], true))
    else if FieldsForKind(kind) == None then Err("unknown source kind")
    else if !Applicable(e.value, FieldsForKind(kind).value) then Ok(SqlFilter([], [], false))
    else
      match CompileNode(e.value, kind, FieldsForKind(kind).value)
      case Err(m) => Err(m)
      case Ok(c) => Ok(if c.text == [] then SqlFilter([], [], true) else SqlFilter([c.text], c.args, true))
  }

  /** The repository returns the row: every clause is true of it. A filter that does not
      apply to the source finds nothing. */
  predicate Matches(f: SqlFilter, row: Row) {
    f.applicable && forall w <- f.wheres :: Parse(w).Done? && Evaluate(Parse(w).expr, row, f.args) == Yes
  }

  /** `1=1 AND own condition AND … AND clause`, as the repositories put it together. */
  function RepositoryWhere(own: seq<Frag>, f: SqlFilter): Clause {
    Clause([One, Operator(EqOp), One] + EachAfter(AndKw, FragTexts(own)) + EachAfter(AndKw, f.wheres),
           FragArgs(own) + f.args)
  }
}
