/** Compiler correctness: what a query returns and what the live tail sends
    (splunklite/compile.go, splunklite/eval_filter.go, service.go). */
module Correctness {
  import opened Text
  import opened Filters
  import opened Sql
  import opened Clauses
  import opened Compile
  import opened Eval
  import opened Agreement

  // ---------- an applicable filter does not vanish ----------

  lemma {:induction false} ApplicableStays(e: Filter, fields: Schema)
    requires Applicable(e, fields)
    ensures Prune(e, fields).Some?
    decreases e, 1
  {
    hide LeafApplicable;
    match e
    case And(cs) =>
      assert Applicable(cs[0], fields);
      ApplicableStays(cs[0], fields);
      FirstStays(cs, fields);
    case Or(cs) => OneStays(cs, fields);
    case Not(c) => ApplicableStays(c, fields);
    case Pred(_, _, _) =>
  }

  lemma FirstStays(cs: seq<Filter>, fields: Schema)
    requires cs != [] && Prune(cs[0], fields).Some?
    ensures PruneAll(cs, fields) != []
  {
    hide Prune;
  }

  lemma {:induction false} OneStays(cs: seq<Filter>, fields: Schema)
    requires AnyApplicable(cs, fields)
    ensures PruneAll(cs, fields) != []
    decreases cs, 0
  {
    hide LeafApplicable;
    if Applicable(cs[0], fields) {
      ApplicableStays(cs[0], fields);
      FirstStays(cs, fields);
    } else {
      OneStays(cs[1..], fields);
    }
  }

  // ---------- the two back ends ----------

  /** The compiled filter, if there is one, is the text and the arguments of a clause tree. */
  lemma CompiledOk(e: Filter, kind: Kind, row: Row)
    requires CompileFilter(Some(e), kind).Ok? && CompileFilter(Some(e), kind).value.applicable
    ensures FieldsForKind(kind).Some? && ShapeOf(e, kind, FieldsForKind(kind).value).Ok?
    ensures Applicable(e, FieldsForKind(kind).value)
    ensures var s := ShapeOf(e, kind, FieldsForKind(kind).value).value;
            s.Some? && WellFormed(s.value) &&
            CompileFilter(Some(e), kind).value == SqlFilter([TextOf(s.value)], ArgsOf(s.value), true)
  {
    hide Applicable, CompileNode, ShapeOf, TextOf, ArgsOf, Prune;
    var fields := FieldsForKind(kind).value;
    CompilesToShape(e, kind, fields);
    ApplicableStays(e, fields);
    ShapeExists(e, kind, fields);
    TextIsSome(ShapeOf(e, kind, fields).value.value);
  }

  /** An applicable filter that compiles never compiles to no clause, which would find every row. */
  lemma ApplicableNeverEmpty(e: Filter, kind: Kind)
    requires FieldsForKind(kind).Some? && Applicable(e, FieldsForKind(kind).value) && CompileFilter(Some(e), kind).Ok?
    ensures var f := CompileFilter(Some(e), kind).value; f.applicable && |f.wheres| == 1 && f.wheres[0] != []
  {
    hide Applicable, CompileNode, ShapeOf, TextOf, ArgsOf, Prune;
    CompiledOk(e, kind, (t: Test, a: string) => No);
    TextIsSome(ShapeOf(e, kind, FieldsForKind(kind).value).value.value);
  }

  /** No comparison on the row is NULL. */
  ghost predicate Definite(row: Row) {
    forall t, a :: row(t, a) != Null
  }

  lemma {:induction false} DefiniteVerdict(s: Shape, row: Row)
    requires Definite(row)
    ensures Verdict(s, row) != Null
    decreases s, 1
  {
    match s
    case Atom(_) =>
    case Group(sep, first, others) =>
      DefiniteVerdict(first, row);
      DefiniteVerdicts(sep, others, row);
    case Negated(inner) => DefiniteVerdict(inner, row);
  }

  lemma {:induction false} DefiniteVerdicts(sep: Tok, ss: Shapes, row: Row)
    requires Definite(row)
    ensures VerdictEach(sep, ss, row) != Null
    decreases ss, 0
  {
    if ss.Cons? {
      DefiniteVerdict(ss.head, row);
      DefiniteVerdicts(sep, ss.tail, row);
    }
  }

  /** The compiled filter is one clause that parses and takes its arguments; it matches a row only
      if the filter without its dropped leaves holds of the event, and, where no comparison on
      the row is NULL, exactly if it does. */
  lemma CompiledFilterIsPrunedFilter(e: Filter, kind: Kind, row: Row, ev: Event, rx: Matcher)
    requires CompileFilter(Some(e), kind).Ok? && CompileFilter(Some(e), kind).value.applicable
    requires FieldsForKind(kind).Some? ==>
               var fields := FieldsForKind(kind).value;
               LeavesAgree(e, kind, fields, row, LeafEval(ev, kind, fields, rx))
    ensures FieldsForKind(kind).Some? && Prune(e, FieldsForKind(kind).value).Some?
    ensures var f := CompileFilter(Some(e), kind).value;
            var fields := FieldsForKind(kind).value;
            |f.wheres| == 1 && Parse(f.wheres[0]).Done? && Parse(f.wheres[0]).params == |f.args| &&
            var holds := EvalNode(Prune(e, fields).value, ev, kind, fields, rx);
            (Matches(f, row) ==> holds) && (Definite(row) ==> Matches(f, row) == holds)
  {
    hide Applicable, CompileFilter, ShapeOf, TextOf, ArgsOf, Prune, Parse, Evaluate, Verdict, WellFormed, LeavesAgree,
         EvalNode, Holds, Definite;
    CompiledOk(e, kind, row);
    var fields := FieldsForKind(kind).value;
    var s := ShapeOf(e, kind, fields).value.value;
    VerdictIsPruned(e, kind, fields, row, LeafEval(ev, kind, fields, rx));
    EvalIsHolds(Prune(e, fields).value, ev, kind, fields, rx);
    TextMeansVerdict(s, row);
    if Definite(row) { DefiniteVerdict(s, row); }
    var f := CompileFilter(Some(e), kind).value;
    assert f.wheres[0] in f.wheres;
  }

  /** With no NULL and nothing dropped, query and tail accept the same. */
  lemma BackEndsAgree(e: Filter, kind: Kind, row: Row, ev: Event, rx: Matcher)
    requires CompileFilter(Some(e), kind).Ok? && Definite(row)
    requires FieldsForKind(kind).Some? ==>
               var fields := FieldsForKind(kind).value;
               LeavesAgree(e, kind, fields, row, LeafEval(ev, kind, fields, rx)) &&
               (Applicable(e, fields) ==> Prune(e, fields) == Some(e))
    ensures Matches(CompileFilter(Some(e), kind).value, row) == EvalFilter(Some(e), ev, kind, rx)
  {
    hide Applicable, ShapeOf, CompileNode, Prune, Parse, Evaluate, Verdict, LeavesAgree, EvalNode, Definite;
    if CompileFilter(Some(e), kind).value.applicable {
      CompiledFilterIsPrunedFilter(e, kind, row, ev, rx);
    }
  }

  // ---------- NULL ----------

  predicate NotFree(e: Filter)
    decreases e, 1
  {
    match e
    case And(cs) => AllNotFree(cs)
    case Or(cs) => AllNotFree(cs)
    case Not(_) => false
    case Pred(_, _, _) => true
  }

  predicate AllNotFree(cs: seq<Filter>)
    decreases cs, 0
  {
    cs == [] || (NotFree(cs[0]) && AllNotFree(cs[1..]))
  }

  /** A comparison is true exactly if the tail says so; otherwise it may be false or NULL. */
  predicate LeafExact(p: Filter, kind: Kind, fields: Schema, row: Row, v: Valuation)
    requires p.Pred?
  {
    var leaf := LeafFor(p.field, p.op, p.value, kind, fields);
    leaf.Ok? && LeafShape(leaf.value).Some? ==> (Verdict(LeafShape(leaf.value).value, row) == Yes <==> v(p))
  }

  predicate LeavesExact(e: Filter, kind: Kind, fields: Schema, row: Row, v: Valuation)
    decreases e, 1
  {
    match e
    case And(cs) => LeavesExactAll(cs, kind, fields, row, v)
    case Or(cs) => LeavesExactAll(cs, kind, fields, row, v)
    case Not(c) => LeavesExact(c, kind, fields, row, v)
    case Pred(_, _, _) => LeafExact(e, kind, fields, row, v)
  }

  predicate LeavesExactAll(cs: seq<Filter>, kind: Kind, fields: Schema, row: Row, v: Valuation)
    decreases cs, 0
  {
    cs == [] || (LeavesExact(cs[0], kind, fields, row, v) && LeavesExactAll(cs[1..], kind, fields, row, v))
  }

  /** Without NOT, NULL does no harm: it counts as false. */
  lemma {:induction false} NotFreeIgnoresNull(e: Filter, kind: Kind, fields: Schema, row: Row, v: Valuation)
    requires FieldsForKind(kind) == Some(fields) && ShapeOf(e, kind, fields).Ok?
    requires NotFree(e) && LeavesExact(e, kind, fields, row, v)
    ensures var s, k := ShapeOf(e, kind, fields).value, Prune(e, fields);
            s.Some? == k.Some? && (s.Some? ==> (Verdict(s.value, row) == Yes <==> Holds(k.value, v)))
    decreases e, 1
  {
    hide LeafFor, LeafShape, LeafApplicable, Applicable;
    match e
    case And(cs) => NotFreeIgnoresNulls(cs, kind, fields, row, v);
    case Or(cs) => NotFreeIgnoresNulls(cs, kind, fields, row, v);
    case Pred(field, op, value) => LeafPruned(field, op, value, kind, fields);
  }

  lemma {:induction false} NotFreeIgnoresNulls(cs: seq<Filter>, kind: Kind, fields: Schema, row: Row, v: Valuation)
    requires FieldsForKind(kind) == Some(fields) && ShapesOf(cs, kind, fields).Ok?
    requires AllNotFree(cs) && LeavesExactAll(cs, kind, fields, row, v)
    ensures var ss, ks := ShapesOf(cs, kind, fields).value, PruneAll(cs, fields);
            ss.Nil? == (ks == []) &&
            (VerdictEach(AndKw, ss, row) == Yes <==> HoldsAll(ks, v)) &&
            (VerdictEach(OrKw, ss, row) == Yes <==> HoldsAny(ks, v))
    decreases cs, 0
  {
    if cs != [] {
      NotFreeIgnoresNull(cs[0], kind, fields, row, v);
      NotFreeIgnoresNulls(cs[1..], kind, fields, row, v);
      var k, ks := Prune(cs[0], fields), PruneAll(cs[1..], fields);
      if k.Some? { assert ([k.value] + ks)[1..] == ks; }
    }
  }

  // ---------- the repository's own conditions ----------

  function OwnThen(own: seq<Frag>, last: Shapes): Shapes {
    if own == [] then last else Cons(Atom(own[0]), OwnThen(own[1..], last))
  }

  lemma Regroup(t: Tok, a: seq<Tok>, b: seq<Tok>, c: seq<Tok>)
    ensures ([t] + a + b) + c == [t] + a + (b + c)
  {
  }

  lemma {:induction false} OwnText(own: seq<Frag>, s: Shape)
    ensures EachAfter(AndKw, FragTexts(own)) + EachAfter(AndKw, [TextOf(s)]) ==
              TextEach(AndKw, OwnThen(own, Cons(s, Nil)))
    decreases own
  {
    if own == [] {
      assert [TextOf(s)][1..] == [];
    } else {
      assert FragTexts(own)[1..] == FragTexts(own[1..]);
      OwnText(own[1..], s);
      Regroup(AndKw, FragToks(own[0]), EachAfter(AndKw, FragTexts(own[1..])), EachAfter(AndKw, [TextOf(s)]));
    }
  }

  lemma {:induction false} OwnArgs(own: seq<Frag>, s: Shape)
    requires WellFormed(s) && forall i :: 0 <= i < |own| ==> !own[i].test.escaped
    ensures FragArgs(own) + ArgsOf(s) == ArgsEach(OwnThen(own, Cons(s, Nil)))
    ensures AllWellFormed(OwnThen(own, Cons(s, Nil)))
    decreases own
  {
    if own != [] {
      OwnArgs(own[1..], s);
      assert FragArgs(own) == [own[0].arg] + FragArgs(own[1..]);
    }
  }

  lemma {:induction false} OwnVerdict(own: seq<Frag>, s: Shape, row: Row)
    ensures VerdictEach(AndKw, OwnThen(own, Cons(s, Nil)), row) == Yes <==>
            Verdict(s, row) == Yes && forall i :: 0 <= i < |own| ==> row(own[i].test, own[i].arg) == Yes
    decreases own
  {
    if own != [] {
      OwnVerdict(own[1..], s, row);
      assert own == [own[0]] + own[1..];
    }
  }

  /** Spliced behind `1=1 AND source = ? AND ts >= ? …`, the clause still stands on
      its own: the whole WHERE is true exactly when the repository's conditions are
      and the clause is, with every argument at its own placeholder. */
  lemma WholeQuery(own: seq<Frag>, e: Filter, kind: Kind, row: Row)
    requires CompileFilter(Some(e), kind).Ok? && CompileFilter(Some(e), kind).value.applicable
    requires forall i :: 0 <= i < |own| ==> !own[i].test.escaped
    ensures var f := CompileFilter(Some(e), kind).value;
            var q := RepositoryWhere(own, f);
            var p := Parse(q.text);
            p.Done? && p.params == |q.args| &&
            (Evaluate(p.expr, row, q.args) == Yes <==>
             Matches(f, row) && forall i :: 0 <= i < |own| ==> row(own[i].test, own[i].arg) == Yes)
  {
    hide TextEach, ArgsEach, OwnThen, EachAfter, VerdictEach, Verdict, TextOf, ArgsOf, Evaluate, Parse, FragTexts,
         FragArgs;
    hide CompileFilter, ShapeOf, Applicable;
    CompiledOk(e, kind, row);
    var s := ShapeOf(e, kind, FieldsForKind(kind).value).value.value;
    TextMeansVerdict(s, row);
    var f := CompileFilter(Some(e), kind).value;
    assert f.wheres[0] in f.wheres;
    OwnText(own, s);
    OwnArgs(own, s);
    OwnVerdict(own, s, row);
    ParsesWhere(OwnThen(own, Cons(s, Nil)), row);
    var q := RepositoryWhere(own, f);
    assert q.text == [One, Operator(EqOp), One] + TextEach(AndKw, OwnThen(own, Cons(s, Nil)));
  }

  lemma ParsesWhere(ss: Shapes, row: Row)
    requires AllWellFormed(ss)
    ensures var p := Parse([One, Operator(EqOp), One] + TextEach(AndKw, ss));
            p.Done? && p.params == |ArgsEach(ss)| &&
            Evaluate(p.expr, row, ArgsEach(ss)) == VerdictEach(AndKw, ss, row)
  {
    hide ParseOr, AndTail, OrTail, TextEach, ArgsEach, Evaluate, Fold;
    var more := TextEach(AndKw, ss);
    var toks := [One, Operator(EqOp), One] + more;
    OneIsOne(more);
    ParsesTail(AndKw, True, ss, [], 0);
    assert more + [] == more;
    StartGroup(AndKw, toks, 0, Done(True, more, 0), Done(Fold(AndKw, True, ss, 0), [], |ArgsEach(ss)|));
    assert ArgsEach(ss)[0..0 + |ArgsEach(ss)|] == ArgsEach(ss);
    EvalsFold(AndKw, True, ss, 0, row, ArgsEach(ss));
    TrueIsYes(row, ArgsEach(ss));
  }

  lemma OneIsOne(more: seq<Tok>)
    ensures ParsePrimary([One, Operator(EqOp), One] + more, 0) == Done(True, more, 0)
  {
    hide ParseOr;
    assert ([One, Operator(EqOp), One] + more)[3..] == more;
  }

  lemma TrueIsYes(row: Row, args: seq<string>)
    ensures Evaluate(True, row, args) == Yes
  {
  }

  lemma {:induction false} ShapeExists(e: Filter, kind: Kind, fields: Schema)
    requires FieldsForKind(kind) == Some(fields) && ShapeOf(e, kind, fields).Ok?
    ensures ShapeOf(e, kind, fields).value.Some? == Prune(e, fields).Some?
    decreases e, 1
  {
    hide LeafFor, LeafShape, LeafApplicable;
    match e
    case And(cs) => ShapesExist(cs, kind, fields);
    case Or(cs) => ShapesExist(cs, kind, fields);
    case Not(c) => ShapeExists(c, kind, fields);
    case Pred(field, op, value) => LeafPruned(field, op, value, kind, fields);
  }

  lemma {:induction false} ShapesExist(cs: seq<Filter>, kind: Kind, fields: Schema)
    requires FieldsForKind(kind) == Some(fields) && ShapesOf(cs, kind, fields).Ok?
    ensures ShapesOf(cs, kind, fields).value.Nil? == (PruneAll(cs, fields) == [])
    decreases cs, 0
  {
    if cs != [] {
      ShapeExists(cs[0], kind, fields);
      ShapesExist(cs[1..], kind, fields);
    }
  }

  // ---------- joining filters ----------

  lemma AllStep(cs: seq<Filter>, ev: Event, kind: Kind, fields: Schema, rx: Matcher)
    requires cs != []
    ensures EvalAll(cs, ev, kind, fields, rx) ==
              (EvalNode(cs[0], ev, kind, fields, rx) && EvalAll(cs[1..], ev, kind, fields, rx))
    ensures AllApplicable(cs, fields) == (Applicable(cs[0], fields) && AllApplicable(cs[1..], fields))
  {
    hide EvalPred, LeafApplicable, EvalAny, AnyApplicable;
  }

  lemma {:induction false} AllMeansEvery(cs: seq<Filter>, ev: Event, kind: Kind, fields: Schema, rx: Matcher)
    ensures EvalAll(cs, ev, kind, fields, rx) <==> forall c <- cs :: EvalNode(c, ev, kind, fields, rx)
    ensures AllApplicable(cs, fields) <==> forall c <- cs :: Applicable(c, fields)
    decreases |cs|
  {
    if cs != [] {
      hide EvalAll, AllApplicable, EvalNode, Applicable;
      AllStep(cs, ev, kind, fields, rx);
      AllMeansEvery(cs[1..], ev, kind, fields, rx);
      assert forall c :: c in cs <==> c == cs[0] || c in cs[1..] by { assert cs == [cs[0]] + cs[1..]; }
    }
  }

  /** A filter is accepted, and applies, exactly as all its conjuncts do. */
  lemma FlattenMeans(e: Filter, ev: Event, kind: Kind, fields: Schema, rx: Matcher)
    requires e != And([])
    ensures var xs := FlattenAnd(Some(e));
            xs != [] && (EvalNode(e, ev, kind, fields, rx) <==> forall c <- xs :: EvalNode(c, ev, kind, fields, rx)) &&
            (Applicable(e, fields) <==> forall c <- xs :: Applicable(c, fields))
  {
    hide EvalPred, LeafApplicable, EvalAny, AnyApplicable;
    if e.And? { AllMeansEvery(e.children, ev, kind, fields, rx); }
  }

  /** The joined filter accepts what both accept, except exactly when one of two filters is an
      empty AND, which applies to nothing, and the other accepts. */
  lemma ConjoinMeansAnd(a: Option<Filter>, b: Option<Filter>, ev: Event, kind: Kind, rx: Matcher)
    ensures var x, y := EvalFilter(a, ev, kind, rx), EvalFilter(b, ev, kind, rx);
            EvalFilter(Conjoin(a, b), ev, kind, rx) == (x && y) <==>
            !(a.Some? && b.Some? && ((a == Some(And([])) && y) || (b == Some(And([])) && x)))
  {
    if a.Some? && b.Some? && FieldsForKind(kind).Some? {
      EmptyAndIsFalse(ev, kind, rx);
      if a == Some(And([])) {
        assert FlattenAnd(a) + FlattenAnd(b) == FlattenAnd(b);
        SameWhenFlat(b.value, ev, kind, rx);
      } else if b == Some(And([])) {
        assert FlattenAnd(a) + FlattenAnd(b) == FlattenAnd(a);
        SameWhenFlat(a.value, ev, kind, rx);
      } else {
        JoinedMeansBoth(a.value, b.value, ev, kind, rx);
      }
    }
  }

  lemma EmptyAndIsFalse(ev: Event, kind: Kind, rx: Matcher)
    ensures !EvalFilter(Some(And([])), ev, kind, rx)
  {
  }

  /** Taking an AND apart and putting it together again. */
  lemma SameWhenFlat(e: Filter, ev: Event, kind: Kind, rx: Matcher)
    requires FieldsForKind(kind).Some?
    ensures var kids := FlattenAnd(Some(e));
            EvalFilter(Some(if |kids| == 1 then kids[0] else And(kids)), ev, kind, rx) ==
              EvalFilter(Some(e), ev, kind, rx)
  {
    hide EvalNode, Applicable;
    if e.And? && |e.children| == 1 {
      assert e.children == [e.children[0]];
      AndMeans(e.children, ev, kind, FieldsForKind(kind).value, rx);
      assert e.children[0] in e.children && forall c <- e.children :: c == e.children[0];
      assert e == And(e.children);
    }
  }

  lemma JoinedMeansBoth(a: Filter, b: Filter, ev: Event, kind: Kind, rx: Matcher)
    requires FieldsForKind(kind).Some? && a != And([]) && b != And([])
    ensures EvalFilter(Conjoin(Some(a), Some(b)), ev, kind, rx) ==
              (EvalFilter(Some(a), ev, kind, rx) && EvalFilter(Some(b), ev, kind, rx))
  {
    hide EvalNode, Applicable, FlattenAnd;
    var fields := FieldsForKind(kind).value;
    FlattenMeans(a, ev, kind, fields, rx);
    FlattenMeans(b, ev, kind, fields, rx);
    var kids := FlattenAnd(Some(a)) + FlattenAnd(Some(b));
    assert forall c :: c in kids <==> c in FlattenAnd(Some(a)) || c in FlattenAnd(Some(b));
    assert |kids| >= 2;
    AndMeans(kids, ev, kind, fields, rx);
  }

  /** A tail or query of one site: an event passes exactly if the filter accepts it and its
      site contains the name, or matches it if it has a star. */
  lemma SiteScopeMeans(e: Option<Filter>, site: string, ev: Event, kind: Kind, rx: Matcher)
    requires (kind == LogAccess || kind == LogError) && TrimSpace(site) != "" && e != Some(And([]))
    ensures var name := TrimSpace(site);
            EvalFilter(WithSiteScope(e, site), ev, kind, rx) <==>
            EvalFilter(e, ev, kind, rx) && "site" in ev.meta &&
            if HasSub(name, "*") then MatchWildcard(ev.meta["site"], name) else ContainsFold(ev.meta["site"], name)
  {
    var p := Pred("site", Eq, TrimSpace(site));
    ConjoinMeansAnd(e, Some(p), ev, kind, rx);
    hide Conjoin, MatchWildcard, ToLower, HasSub, TrimSpace;
    SiteLeaf(TrimSpace(site), ev, kind, rx);
  }

  lemma SiteLeaf(name: string, ev: Event, kind: Kind, rx: Matcher)
    requires kind == LogAccess || kind == LogError
    ensures EvalFilter(Some(Pred("site", Eq, name)), ev, kind, rx) <==>
            "site" in ev.meta &&
            if HasSub(name, "*") then MatchWildcard(ev.meta["site"], name) else ContainsFold(ev.meta["site"], name)
  {
    TrimmedStays("site");
    assert ToLower("site") == "site";
    hide ToLower, TrimSpace, HasSub, MatchWildcard;
    if "site" in ev.meta && EqualFold(ev.meta["site"], name) { EqualIsContained(ev.meta["site"], name); }
    assert EventFieldValue(ev, "site", kind) == MetaValue(ev, "site");
  }

  /** On the events of a site, for which the tail lists the rows, scoping changes nothing. */
  lemma ScopeKeepsOwnEvents(e: Option<Filter>, site: string, ev: Event, kind: Kind, rx: Matcher)
    requires (kind == LogAccess || kind == LogError) && TrimSpace(site) != "" && e != Some(And([]))
    requires "site" in ev.meta && ev.meta["site"] == TrimSpace(site) && !HasSub(TrimSpace(site), "*")
    ensures EvalFilter(WithSiteScope(e, site), ev, kind, rx) == EvalFilter(e, ev, kind, rx)
  {
    SiteScopeMeans(e, site, ev, kind, rx);
    EqualIsContained(ev.meta["site"], TrimSpace(site));
  }

  lemma AndMeans(kids: seq<Filter>, ev: Event, kind: Kind, fields: Schema, rx: Matcher)
    requires kids != []
    ensures EvalNode(And(kids), ev, kind, fields, rx) <==> forall c <- kids :: EvalNode(c, ev, kind, fields, rx)
    ensures Applicable(And(kids), fields) <==> forall c <- kids :: Applicable(c, fields)
  {
    hide EvalPred, LeafApplicable, EvalAny, AnyApplicable;
    AllMeansEvery(kids, ev, kind, fields, rx);
  }
}
