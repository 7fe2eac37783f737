/** The two back ends of the query language agree. The SQL a filter compiles to
    matches a row exactly when the filter without its inapplicable parts holds,
    whenever each remaining leaf means the same on both sides and the verdict of
    the database is not NULL. */
module Agreement {
  import opened Text
  import opened Filters
  import opened Sql
  import opened Clauses
  import opened Compile
  import opened Eval

  // ---------- compiled text as clause trees ----------

  function Atoms(fs: seq<Frag>): Shapes {
    if fs == [] then Nil else Cons(Atom(fs[0]), Atoms(fs[1..]))
  }

  function LeafShape(leaf: Leaf): Option<Shape> {
    match leaf
    case Dropped => None
    case OneOf(f) => Some(Atom(f))
    case AnyIn(fs) => if fs == [] then None else Some(Group(OrKw, Atom(fs[0]), Atoms(fs[1..])))
  }

  /** The clause tree of a filter; None where nothing is left to test. */
  function ShapeOf(e: Filter, kind: Kind, fields: Schema): Result<Option<Shape>>
    decreases e, 1
  {
    match e
    case And(cs) =>
      (match ShapesOf(cs, kind, fields) case Err(m) => Err(m) case Ok(ss) => Ok(Grouped(AndKw, ss)))
    case Or(cs) =>
      (match ShapesOf(cs, kind, fields) case Err(m) => Err(m) case Ok(ss) => Ok(Grouped(OrKw, ss)))
    case Not(c) =>
      (match ShapeOf(c, kind, fields)
       case Err(m) => Err(m)
       case Ok(s) => Ok(if s.None? then None else Some(Negated(s.value))))
    case Pred(field, op, value) =>
      (match LeafFor(field, op, value, kind, fields) case Err(m) => Err(m) case Ok(leaf) => Ok(LeafShape(leaf)))
  }

  function ShapesOf(cs: seq<Filter>, kind: Kind, fields: Schema): Result<Shapes>
    decreases cs, 0
  {
    if cs == [] then Ok(Nil)
    else
      match ShapeOf(cs[0], kind, fields)
      case Err(m) => Err(m)
      case Ok(s) =>
        match ShapesOf(cs[1..], kind, fields)
        case Err(m) => Err(m)
        case Ok(ss) => Ok(if s.None? then ss else Cons(s.value, ss))
  }

  function Grouped(sep: Tok, ss: Shapes): Option<Shape> {
    match ss case Nil => None case Cons(s, tail) => Some(Group(sep, s, tail))
  }

  function ClauseOf(s: Option<Shape>): Clause {
    if s.None? then EMPTY else Clause(TextOf(s.value), ArgsOf(s.value))
  }

  function ClausesOf(ss: Shapes): seq<Clause> {
    match ss case Nil => [] case Cons(s, tail) => [ClauseOf(Some(s))] + ClausesOf(tail)
  }

  lemma {:induction false} JoinedText(sep: Tok, ss: Shapes)
    ensures EachAfter(sep, Texts(ClausesOf(ss))) == TextEach(sep, ss)
    ensures Args(ClausesOf(ss)) == ArgsEach(ss)
    decreases ss
  {
    hide TextOf, ArgsOf;
    if ss.Cons? {
      JoinedText(sep, ss.tail);
      var cs := ClausesOf(ss);
      assert cs[0] == ClauseOf(Some(ss.head)) && cs[1..] == ClausesOf(ss.tail);
      assert Texts(cs) == [cs[0].text] + Texts(cs[1..]);
      assert Texts(cs)[1..] == Texts(cs[1..]);
    }
  }

  /** The joined clauses of a node are the text and arguments of its group. */
  lemma GroupText(sep: Tok, ss: Shapes)
    ensures Joined(ClausesOf(ss), sep) == ClauseOf(Grouped(sep, ss))
  {
    hide TextOf;
    match ss
    case Nil =>
    case Cons(s, tail) =>
      JoinedText(sep, tail);
      var cs := ClausesOf(ss);
      assert cs[0] == ClauseOf(Some(s)) && cs[1..] == ClausesOf(tail);
      assert Texts(cs)[1..] == Texts(cs[1..]);
      GroupTokens(sep, s, tail);
  }

  lemma GroupTokens(sep: Tok, s: Shape, tail: Shapes)
    ensures Parens(TextOf(s) + TextEach(sep, tail)) == TextOf(Group(sep, s, tail))
  {
    var a, b := TextOf(s), TextEach(sep, tail);
    assert [LParen] + (a + b) + [RParen] == [LParen] + a + b + [RParen];
  }

  lemma {:induction false} AtomsText(fs: seq<Frag>)
    ensures EachAfter(OrKw, FragTexts(fs)) == TextEach(OrKw, Atoms(fs))
    ensures FragArgs(fs) == ArgsEach(Atoms(fs))
    decreases |fs|
  {
    hide FragToks;
    if fs != [] {
      AtomsText(fs[1..]);
      assert FragTexts(fs)[1..] == FragTexts(fs[1..]);
      assert FragArgs(fs) == [fs[0].arg] + FragArgs(fs[1..]);
    }
  }

  lemma LeafText(leaf: Leaf)
    requires leaf.AnyIn? ==> leaf.frags != []
    ensures ClauseOfLeaf(leaf) == ClauseOf(LeafShape(leaf))
  {
    hide FragToks;
    match leaf
    case Dropped =>
    case OneOf(f) =>
    case AnyIn(fs) =>
      AtomsText(fs[1..]);
      assert FragTexts(fs)[0] == FragToks(fs[0]) && FragTexts(fs)[1..] == FragTexts(fs[1..]);
      assert FragArgs(fs) == [fs[0].arg] + FragArgs(fs[1..]);
      GroupTokens(OrKw, Atom(fs[0]), Atoms(fs[1..]));
      assert TextOf(Atom(fs[0])) == FragToks(fs[0]) && ArgsOf(Atom(fs[0])) == [fs[0].arg];
      assert ArgsOf(Group(OrKw, Atom(fs[0]), Atoms(fs[1..]))) == FragArgs(fs);
      assert JoinToks(FragTexts(fs), OrKw) == FragToks(fs[0]) + EachAfter(OrKw, FragTexts(fs[1..]));
  }

  lemma {:induction false} AtomsWellFormed(fs: seq<Frag>)
    requires forall f <- fs :: f.test.escaped ==> f.test.cmp == LikeOp
    ensures AllWellFormed(Atoms(fs))
    decreases |fs|
  {
    if fs != [] {
      assert fs[0] in fs && forall f <- fs[1..] :: f in fs;
      AtomsWellFormed(fs[1..]);
    }
  }

  lemma LeafIsFine(field: string, op: Op, value: string, kind: Kind, fields: Schema)
    requires FieldsForKind(kind) == Some(fields) && LeafFor(field, op, value, kind, fields).Ok?
    ensures var leaf := LeafFor(field, op, value, kind, fields).value;
            (leaf.AnyIn? ==> leaf.frags != [] && forall f <- leaf.frags :: f.test.escaped ==> f.test.cmp == LikeOp) &&
            (leaf.OneOf? ==> (leaf.frag.test.escaped ==> leaf.frag.test.cmp == LikeOp))
  {
    hide HasSub, LikePattern;
  }

  lemma LeafWellFormed(field: string, op: Op, value: string, kind: Kind, fields: Schema)
    requires FieldsForKind(kind) == Some(fields) && LeafFor(field, op, value, kind, fields).Ok?
    ensures var s := LeafShape(LeafFor(field, op, value, kind, fields).value); s.Some? ==> WellFormed(s.value)
  {
    hide LeafFor;
    LeafIsFine(field, op, value, kind, fields);
    var leaf := LeafFor(field, op, value, kind, fields).value;
    if leaf.AnyIn? {
      var fs := leaf.frags;
      assert fs[0] in fs && forall f <- fs[1..] :: f in fs;
      AtomsWellFormed(fs[1..]);
    }
  }

  lemma TextIsSome(s: Shape)
    ensures TextOf(s) != []
  {
  }

  /** A filter compiles, or fails to, as its clause tree says. */
  lemma {:induction false} CompilesToShape(e: Filter, kind: Kind, fields: Schema)
    requires FieldsForKind(kind) == Some(fields)
    ensures CompileNode(e, kind, fields) ==
            match ShapeOf(e, kind, fields) case Err(m) => Err(m) case Ok(s) => Ok(ClauseOf(s))
    ensures ShapeOf(e, kind, fields).Ok? && ShapeOf(e, kind, fields).value.Some? ==>
            WellFormed(ShapeOf(e, kind, fields).value.value)
    decreases e, 1
  {
    hide LeafFor, LeafShape, TextOf, ClauseOfLeaf, TextEach, JoinToks;
    match e
    case And(cs) =>
      CompilesToShapes(cs, kind, fields);
      if ShapesOf(cs, kind, fields).Ok? { GroupText(AndKw, ShapesOf(cs, kind, fields).value); }
    case Or(cs) =>
      CompilesToShapes(cs, kind, fields);
      if ShapesOf(cs, kind, fields).Ok? { GroupText(OrKw, ShapesOf(cs, kind, fields).value); }
    case Not(c) =>
      CompilesToShape(c, kind, fields);
      var s := ShapeOf(c, kind, fields);
      if s.Ok? && s.value.Some? {
        TextIsSome(s.value.value);
        NegatedIs(s.value.value);
      }
    case Pred(field, op, value) =>
      if LeafFor(field, op, value, kind, fields).Ok? {
        LeafIsFine(field, op, value, kind, fields);
        LeafText(LeafFor(field, op, value, kind, fields).value);
        LeafWellFormed(field, op, value, kind, fields);
      }
  }

  lemma NegatedIs(s: Shape)
    ensures TextOf(Negated(s)) == [LParen, NotKw, LParen] + TextOf(s) + [RParen, RParen]
  {
  }

  lemma {:induction false} CompilesToShapes(cs: seq<Filter>, kind: Kind, fields: Schema)
    requires FieldsForKind(kind) == Some(fields)
    ensures CompileAll(cs, kind, fields) ==
            match ShapesOf(cs, kind, fields) case Err(m) => Err(m) case Ok(ss) => Ok(ClausesOf(ss))
    ensures ShapesOf(cs, kind, fields).Ok? ==> AllWellFormed(ShapesOf(cs, kind, fields).value)
    decreases cs, 0
  {
    hide TextOf;
    if cs != [] {
      CompilesToShape(cs[0], kind, fields);
      CompilesToShapes(cs[1..], kind, fields);
      var s := ShapeOf(cs[0], kind, fields);
      if s.Ok? && s.value.Some? { TextIsSome(s.value.value); }
    }
  }

  // ---------- filters over the truth of their leaves ----------

  type Valuation = Filter -> bool

  predicate Holds(e: Filter, v: Valuation)
    decreases e, 1
  {
    match e
    case And(cs) => HoldsAll(cs, v)
    case Or(cs) => HoldsAny(cs, v)
    case Not(c) => !Holds(c, v)
    case Pred(_, _, _) => v(e)
  }

  predicate HoldsAll(cs: seq<Filter>, v: Valuation)
    decreases cs, 0
  {
    cs == [] || (Holds(cs[0], v) && HoldsAll(cs[1..], v))
  }

  predicate HoldsAny(cs: seq<Filter>, v: Valuation)
    decreases cs, 0
  {
    cs != [] && (Holds(cs[0], v) || HoldsAny(cs[1..], v))
  }

  /** What the tail makes of each leaf of an event. */
  function LeafEval(ev: Event, kind: Kind, fields: Schema, rx: Matcher): Valuation {
    (p: Filter) => p.Pred? && EvalPred(p.field, p.op, p.value, ev, kind, fields, rx)
  }

  /** The evaluator of the tail is the Boolean meaning over its leaves. */
  lemma {:induction false} EvalIsHolds(e: Filter, ev: Event, kind: Kind, fields: Schema, rx: Matcher)
    ensures EvalNode(e, ev, kind, fields, rx) == Holds(e, LeafEval(ev, kind, fields, rx))
    decreases e, 1
  {
    hide EvalPred;
    match e
    case And(cs) => EvalIsHoldsList(cs, ev, kind, fields, rx);
    case Or(cs) => EvalIsHoldsList(cs, ev, kind, fields, rx);
    case Not(c) => EvalIsHolds(c, ev, kind, fields, rx);
    case Pred(_, _, _) =>
  }

  lemma {:induction false} EvalIsHoldsList(cs: seq<Filter>, ev: Event, kind: Kind, fields: Schema, rx: Matcher)
    ensures EvalAll(cs, ev, kind, fields, rx) == HoldsAll(cs, LeafEval(ev, kind, fields, rx))
    ensures EvalAny(cs, ev, kind, fields, rx) == HoldsAny(cs, LeafEval(ev, kind, fields, rx))
    decreases cs, 0
  {
    hide EvalPred;
    if cs != [] {
      EvalIsHolds(cs[0], ev, kind, fields, rx);
      EvalIsHoldsList(cs[1..], ev, kind, fields, rx);
    }
  }

  // ---------- what the compiler leaves out ----------

  /** The filter without the leaves that are not compiled, and without what they leave empty. */
  function Prune(e: Filter, fields: Schema): Option<Filter>
    decreases e, 1
  {
    match e
    case And(cs) => if PruneAll(cs, fields) == [] then None else Some(And(PruneAll(cs, fields)))
    case Or(cs) => if PruneAll(cs, fields) == [] then None else Some(Or(PruneAll(cs, fields)))
    case Not(c) => (match Prune(c, fields) case None => None case Some(k) => Some(Not(k)))
    case Pred(field, op, _) => if field == "" || LeafApplicable(field, op, fields) then Some(e) else None
  }

  function PruneAll(cs: seq<Filter>, fields: Schema): seq<Filter>
    decreases cs, 0
  {
    if cs == [] then []
    else
      match Prune(cs[0], fields)
      case None => PruneAll(cs[1..], fields)
      case Some(k) => [k] + PruneAll(cs[1..], fields)
  }

  /** The comparison, where it is not NULL, says what the tail says. */
  predicate LeafAgrees(p: Filter, kind: Kind, fields: Schema, row: Row, v: Valuation)
    requires p.Pred?
  {
    var leaf := LeafFor(p.field, p.op, p.value, kind, fields);
    leaf.Ok? && LeafShape(leaf.value).Some? ==>
      var t := Verdict(LeafShape(leaf.value).value, row);
      (t == Yes ==> v(p)) && (t == No ==> !v(p))
  }

  predicate LeavesAgree(e: Filter, kind: Kind, fields: Schema, row: Row, v: Valuation)
    decreases e, 1
  {
    match e
    case And(cs) => LeavesAgreeAll(cs, kind, fields, row, v)
    case Or(cs) => LeavesAgreeAll(cs, kind, fields, row, v)
    case Not(c) => LeavesAgree(c, kind, fields, row, v)
    case Pred(_, _, _) => LeafAgrees(e, kind, fields, row, v)
  }

  predicate LeavesAgreeAll(cs: seq<Filter>, kind: Kind, fields: Schema, row: Row, v: Valuation)
    decreases cs, 0
  {
    cs == [] || (LeavesAgree(cs[0], kind, fields, row, v) && LeavesAgreeAll(cs[1..], kind, fields, row, v))
  }

  /** A leaf is compiled exactly if it is not pruned. */
  lemma LeafPruned(field: string, op: Op, value: string, kind: Kind, fields: Schema)
    requires FieldsForKind(kind) == Some(fields) && LeafFor(field, op, value, kind, fields).Ok?
    ensures LeafShape(LeafFor(field, op, value, kind, fields).value).Some? <==>
              Prune(Pred(field, op, value), fields).Some?
  {
    hide HasSub, LikePattern;
  }

  lemma {:induction false} VerdictIsPruned(e: Filter, kind: Kind, fields: Schema, row: Row, v: Valuation)
    requires FieldsForKind(kind) == Some(fields) && ShapeOf(e, kind, fields).Ok?
    requires LeavesAgree(e, kind, fields, row, v)
    ensures var s, k := ShapeOf(e, kind, fields).value, Prune(e, fields);
            s.Some? == k.Some? &&
            (s.Some? ==> (Verdict(s.value, row) == Yes ==> Holds(k.value, v)) &&
                         (Verdict(s.value, row) == No ==> !Holds(k.value, v)))
    decreases e, 1
  {
    hide LeafFor, LeafShape, LeafApplicable, Applicable;
    match e
    case And(cs) => VerdictsArePruned(cs, kind, fields, row, v);
    case Or(cs) => VerdictsArePruned(cs, kind, fields, row, v);
    case Not(c) => VerdictIsPruned(c, kind, fields, row, v);
    case Pred(field, op, value) => LeafPruned(field, op, value, kind, fields);
  }

  lemma {:induction false} VerdictsArePruned(cs: seq<Filter>, kind: Kind, fields: Schema, row: Row, v: Valuation)
    requires FieldsForKind(kind) == Some(fields) && ShapesOf(cs, kind, fields).Ok?
    requires LeavesAgreeAll(cs, kind, fields, row, v)
    ensures var ss, ks := ShapesOf(cs, kind, fields).value, PruneAll(cs, fields);
            ss.Nil? == (ks == []) &&
            var all, any := VerdictEach(AndKw, ss, row), VerdictEach(OrKw, ss, row);
            (all == Yes ==> HoldsAll(ks, v)) && (all == No ==> !HoldsAll(ks, v)) &&
            (any == Yes ==> HoldsAny(ks, v)) && (any == No ==> !HoldsAny(ks, v))
    decreases cs, 0
  {
    if cs != [] {
      VerdictIsPruned(cs[0], kind, fields, row, v);
      VerdictsArePruned(cs[1..], kind, fields, row, v);
      var k, ks := Prune(cs[0], fields), PruneAll(cs[1..], fields);
      if k.Some? { assert ([k.value] + ks)[1..] == ks; }
    }
  }
}
