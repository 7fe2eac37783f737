/** Clause trees: what the text of a compiled filter means. The SQL parser, given
    the text of a clause tree in any context, takes exactly that text and gives
    back an expression whose value is the value of the tree. */
module Clauses {
  import opened Sql

  /** A comparison and its argument. */
  datatype Frag = Frag(test: Test, arg: string)

  datatype Shape = Atom(frag: Frag) | Group(sep: Tok, first: Shape, others: Shapes) | Negated(inner: Shape)
  datatype Shapes = Nil | Cons(head: Shape, tail: Shapes)

  /** ESCAPE goes with LIKE only, and groups are joined by AND or OR. */
  predicate WellFormed(s: Shape)
    decreases s
  {
    match s
    case Atom(f) => f.test.escaped ==> f.test.cmp == LikeOp
    case Group(sep, first, others) => (sep == AndKw || sep == OrKw) && WellFormed(first) && AllWellFormed(others)
    case Negated(inner) => WellFormed(inner)
  }

  predicate AllWellFormed(ss: Shapes)
    decreases ss
  {
    ss.Cons? ==> WellFormed(ss.head) && AllWellFormed(ss.tail)
  }

  function OperandToks(o: Operand): seq<Tok> {
    match o
    case Col(name) => [Ident(name)]
    case CastCol(name, c) => [CastKw, LParen, Ident(name), AsKw, TypeName(c), RParen]
  }

  function FragToks(f: Frag): seq<Tok> {
    OperandToks(f.test.operand) + [Operator(f.test.cmp), Param] +
    if f.test.escaped then [EscapeKw, BackslashLit] else []
  }

  function TextOf(s: Shape): seq<Tok>
    decreases s
  {
    match s
    case Atom(f) => FragToks(f)
    case Group(sep, first, others) => [LParen] + TextOf(first) + TextEach(sep, others) + [RParen]
    case Negated(inner) => [LParen, NotKw, LParen] + TextOf(inner) + [RParen, RParen]
  }

  /** Every clause with the separator in front. */
  function TextEach(sep: Tok, ss: Shapes): seq<Tok>
    decreases ss
  {
    match ss
    case Nil => []
    case Cons(s, tail) => [sep] + TextOf(s) + TextEach(sep, tail)
  }

  function ArgsOf(s: Shape): seq<string> {
    match s
    case Atom(f) => [f.arg]
    case Group(_, first, others) => ArgsOf(first) + ArgsEach(others)
    case Negated(inner) => ArgsOf(inner)
  }

  function ArgsEach(ss: Shapes): seq<string> {
    match ss
    case Nil => []
    case Cons(s, tail) => ArgsOf(s) + ArgsEach(tail)
  }

  // ---------- the value of a clause tree ----------

  function Join3(sep: Tok, a: Truth, b: Truth): Truth {
    if sep == AndKw then And3(a, b) else Or3(a, b)
  }

  function Verdict(s: Shape, row: Row): Truth
    decreases s
  {
    match s
    case Atom(f) => row(f.test, f.arg)
    case Group(sep, first, others) => Join3(sep, Verdict(first, row), VerdictEach(sep, others, row))
    case Negated(inner) => Not3(Verdict(inner, row))
  }

  function VerdictEach(sep: Tok, ss: Shapes, row: Row): Truth
    decreases ss
  {
    match ss
    case Nil => if sep == AndKw then Yes else No
    case Cons(s, tail) => Join3(sep, Verdict(s, row), VerdictEach(sep, tail, row))
  }

  // ---------- the expression the parser makes of it ----------

  function Combine(sep: Tok, l: Expr, r: Expr): Expr {
    if sep == AndKw then Conj(l, r) else Disj(l, r)
  }

  function ExprOf(s: Shape, n: nat): Expr
    decreases s
  {
    match s
    case Atom(f) => Compare(f.test, n)
    case Group(sep, first, others) => Fold(sep, ExprOf(first, n), others, n + |ArgsOf(first)|)
    case Negated(inner) => Neg(ExprOf(inner, n))
  }

  function Fold(sep: Tok, left: Expr, ss: Shapes, n: nat): Expr
    decreases ss
  {
    match ss
    case Nil => left
    case Cons(s, tail) => Fold(sep, Combine(sep, left, ExprOf(s, n)), tail, n + |ArgsOf(s)|)
  }

  lemma ParsesTest(f: Frag, rest: seq<Tok>, n: nat)
    requires (f.test.escaped ==> f.test.cmp == LikeOp) && !Starts(rest, EscapeKw)
    ensures var tail := [Operator(f.test.cmp), Param] +
                        (if f.test.escaped then [EscapeKw, BackslashLit] else []) + rest;
            ParseTest(f.test.operand, tail, n) == Done(Compare(f.test, n), rest, n + 1)
  {
    var tail := [Operator(f.test.cmp), Param] + (if f.test.escaped then [EscapeKw, BackslashLit] else []) + rest;
    if f.test.escaped {
      assert tail[4..] == rest;
    } else {
      assert tail[2..] == rest;
    }
  }

  lemma ParsesComparison(f: Frag, rest: seq<Tok>, n: nat)
    requires (f.test.escaped ==> f.test.cmp == LikeOp) && !Starts(rest, EscapeKw)
    ensures ParsePrimary(FragToks(f) + rest, n) == Done(Compare(f.test, n), rest, n + 1)
  {
    hide ParseTest, ParseOr;
    ParsesTest(f, rest, n);
    var toks := FragToks(f) + rest;
    var tail := [Operator(f.test.cmp), Param] + (if f.test.escaped then [EscapeKw, BackslashLit] else []) + rest;
    match f.test.operand
    case Col(name) => assert toks[0] == Ident(name) && toks[1..] == tail;
    case CastCol(name, c) =>
      assert toks[0] == CastKw && toks[1] == LParen && toks[2] == Ident(name) && toks[3] == AsKw;
      assert toks[4] == TypeName(c) && toks[5] == RParen && toks[6..] == tail;
  }

  /** A clause begins with a parenthesis or an operand, never with NOT. */
  lemma StartsPlainly(s: Shape, rest: seq<Tok>)
    ensures !Starts(TextOf(s) + rest, NotKw) && !Starts(TextOf(s) + rest, EscapeKw) && TextOf(s) != []
  {
  }

  lemma PrimaryOfParens(inner: seq<Tok>, rest: seq<Tok>, n: nat, e: Expr, m: nat)
    requires ParseOr(inner + [RParen] + rest, n) == Done(e, [RParen] + rest, m)
    ensures ParsePrimary([LParen] + inner + [RParen] + rest, n) == Done(e, rest, m)
  {
    hide ParseOr;
    var toks := [LParen] + inner + [RParen] + rest;
    assert toks[0] == LParen && toks[1..] == inner + [RParen] + rest;
    assert ([RParen] + rest)[1..] == rest;
  }

  // The levels of the parser, one at a time.

  lemma NotIsPrimary(toks: seq<Tok>, n: nat)
    requires !Starts(toks, NotKw)
    ensures ParseNot(toks, n) == ParsePrimary(toks, n)
  {
    hide ParsePrimary;
  }

  lemma AndIsTail(toks: seq<Tok>, n: nat)
    requires ParseNot(toks, n).Done?
    ensures var p := ParseNot(toks, n); ParseAnd(toks, n) == AndTail(p.expr, p.rest, p.params)
  {
    hide ParseNot, AndTail;
  }

  lemma OrIsTail(toks: seq<Tok>, n: nat)
    requires ParseAnd(toks, n).Done?
    ensures var p := ParseAnd(toks, n); ParseOr(toks, n) == OrTail(p.expr, p.rest, p.params)
  {
    hide ParseAnd, OrTail;
  }

  lemma TailEnds(left: Expr, toks: seq<Tok>, n: nat)
    ensures !Starts(toks, AndKw) ==> AndTail(left, toks, n) == Done(left, toks, n)
    ensures !Starts(toks, OrKw) ==> OrTail(left, toks, n) == Done(left, toks, n)
  {
    hide ParseNot, ParseAnd;
  }

  lemma TailGoesOn(left: Expr, toks: seq<Tok>, n: nat)
    ensures Starts(toks, AndKw) && ParseNot(toks[1..], n).Done? ==>
              var p := ParseNot(toks[1..], n); AndTail(left, toks, n) == AndTail(Conj(left, p.expr), p.rest, p.params)
    ensures Starts(toks, OrKw) && ParseAnd(toks[1..], n).Done? ==>
              var p := ParseAnd(toks[1..], n); OrTail(left, toks, n) == OrTail(Disj(left, p.expr), p.rest, p.params)
  {
    hide ParseNot, ParseAnd;
  }

  /** Behind its first operand, a conjunction or disjunction goes on with its tail. */
  lemma StartGroup(sep: Tok, toks: seq<Tok>, n: nat, first: Parsed, all: Parsed)
    requires sep == AndKw || sep == OrKw
    requires !Starts(toks, NotKw) && ParsePrimary(toks, n) == first && first.Done?
    requires all == (if sep == AndKw then AndTail(first.expr, first.rest, first.params)
                     else OrTail(first.expr, first.rest, first.params))
    requires all.Done? && !Starts(all.rest, OrKw) && (sep == OrKw ==> !Starts(first.rest, AndKw))
    ensures ParseOr(toks, n) == all
  {
    hide ParsePrimary, ParseNot, ParseAnd, ParseOr, AndTail, OrTail;
    NotIsPrimary(toks, n);
    AndIsTail(toks, n);
    TailEnds(first.expr, first.rest, first.params);
    OrIsTail(toks, n);
    TailEnds(all.expr, all.rest, all.params);
  }

  lemma TailStep(sep: Tok, left: Expr, s: Shape, tail: seq<Tok>, n: nat)
    requires sep == AndKw || sep == OrKw
    requires ParsePrimary(TextOf(s) + tail, n) == Done(ExprOf(s, n), tail, n + |ArgsOf(s)|)
    requires sep == OrKw ==> !Starts(tail, AndKw)
    ensures sep == AndKw ==>
              AndTail(left, [sep] + TextOf(s) + tail, n) == AndTail(Conj(left, ExprOf(s, n)), tail, n + |ArgsOf(s)|)
    ensures sep == OrKw ==>
              OrTail(left, [sep] + TextOf(s) + tail, n) == OrTail(Disj(left, ExprOf(s, n)), tail, n + |ArgsOf(s)|)
  {
    hide ParsePrimary, ParseNot, ParseAnd, AndTail, OrTail, TextOf, ExprOf, ArgsOf;
    var toks := [sep] + TextOf(s) + tail;
    var operand := TextOf(s) + tail;
    assert toks[0] == sep && toks[1..] == operand;
    StartsPlainly(s, tail);
    NotIsPrimary(operand, n);
    AndIsTail(operand, n);
    TailEnds(ExprOf(s, n), tail, n + |ArgsOf(s)|);
    TailGoesOn(left, toks, n);
  }

  lemma EachStarts(sep: Tok, ss: Shapes, rest: seq<Tok>)
    ensures ss.Nil? ==> TextEach(sep, ss) + rest == rest
    ensures ss.Cons? ==> Starts(TextEach(sep, ss) + rest, sep)
  {
  }

  lemma {:induction false} ParsesShape(s: Shape, rest: seq<Tok>, n: nat)
    requires WellFormed(s) && !Starts(rest, EscapeKw)
    ensures ParsePrimary(TextOf(s) + rest, n) == Done(ExprOf(s, n), rest, n + |ArgsOf(s)|)
    decreases s, 1
  {
    hide ParsePrimary, ParseOr;
    match s
    case Atom(f) => ParsesComparison(f, rest, n);
    case Group(sep, first, others) => ParsesGroup(sep, first, others, rest, n);
    case Negated(inner) => ParsesNegated(inner, rest, n);
  }

  lemma Regrouped(t: seq<Tok>, u: seq<Tok>, v: seq<Tok>)
    ensures t + u + v == t + (u + v)
  {
  }

  lemma NegatedText(inner: Shape, rest: seq<Tok>)
    ensures var close := [RParen] + rest; var parens := [LParen] + TextOf(inner) + [RParen];
            TextOf(inner) + [RParen] + close == TextOf(inner) + ([RParen] + close) &&
            parens + close == [LParen] + TextOf(inner) + [RParen] + close &&
            [NotKw] + parens + [RParen] + rest == [NotKw] + (parens + close) &&
            TextOf(Negated(inner)) + rest == [LParen] + ([NotKw] + parens) + [RParen] + rest
  {
    var t, close := TextOf(inner), [RParen] + rest;
    var parens := [LParen] + t + [RParen];
    Regrouped(t, [RParen], close);
    Regrouped([NotKw] + parens, [RParen], rest);
    Regrouped([NotKw], parens, close);
    assert TextOf(Negated(inner)) == [LParen, NotKw, LParen] + t + [RParen, RParen];
    OuterParens(t);
  }

  lemma OuterParens(t: seq<Tok>)
    ensures [LParen, NotKw, LParen] + t + [RParen, RParen] ==
              [LParen] + ([NotKw] + ([LParen] + t + [RParen])) + [RParen]
  {
  }

  lemma {:induction false} ParsesNegated(inner: Shape, rest: seq<Tok>, n: nat)
    requires WellFormed(inner) && !Starts(rest, EscapeKw)
    ensures ParsePrimary(TextOf(Negated(inner)) + rest, n) == Done(Neg(ExprOf(inner, n)), rest, n + |ArgsOf(inner)|)
    decreases inner, 3
  {
    hide ParsePrimary, ParseOr, TextOf, ArgsOf, ExprOf, WellFormed;
    var m := n + |ArgsOf(inner)|;
    var close := [RParen] + rest;
    var parens := [LParen] + TextOf(inner) + [RParen];
    NegatedText(inner, rest);
    ParsesShape(inner, [RParen] + close, n);
    StartsPlainly(inner, [RParen] + close);
    ParsesAlone(TextOf(inner), close, n, ExprOf(inner, n), m);
    PrimaryOfParens(TextOf(inner), close, n, ExprOf(inner, n), m);
    NotOf(parens + close, close, n, ExprOf(inner, n), m);
    PrimaryOfParens([NotKw] + parens, rest, n, Neg(ExprOf(inner, n)), m);
  }

  /** A single operand in front of a closing parenthesis. */
  lemma ParsesAlone(text: seq<Tok>, close: seq<Tok>, n: nat, e: Expr, m: nat)
    requires ParsePrimary(text + [RParen] + close, n) == Done(e, [RParen] + close, m)
    requires !Starts(text + [RParen] + close, NotKw)
    ensures ParseOr(text + [RParen] + close, n) == Done(e, [RParen] + close, m)
  {
    hide ParsePrimary, ParseOr, AndTail;
    TailEnds(e, [RParen] + close, m);
    StartGroup(AndKw, text + [RParen] + close, n, Done(e, [RParen] + close, m), Done(e, [RParen] + close, m));
  }

  lemma NotOf(toks: seq<Tok>, close: seq<Tok>, n: nat, e: Expr, m: nat)
    requires ParsePrimary(toks, n) == Done(e, close, m) && !Starts(toks, NotKw) && Starts(close, RParen)
    ensures ParseOr([NotKw] + toks, n) == Done(Neg(e), close, m)
  {
    hide ParsePrimary, ParseAnd, ParseOr, AndTail, OrTail;
    var all := [NotKw] + toks;
    assert all[1..] == toks;
    NotIsPrimary(toks, n);
    NotNegates(all, n);
    AndIsTail(all, n);
    TailEnds(Neg(e), close, m);
    OrIsTail(all, n);
  }

  lemma NotNegates(toks: seq<Tok>, n: nat)
    requires Starts(toks, NotKw) && ParseNot(toks[1..], n).Done?
    ensures var p := ParseNot(toks[1..], n); ParseNot(toks, n) == Done(Neg(p.expr), p.rest, p.params)
  {
    hide ParsePrimary;
  }

  lemma ConsText(sep: Tok, s: Shape, tail: Shapes, rest: seq<Tok>)
    ensures TextEach(sep, Cons(s, tail)) + rest == [sep] + TextOf(s) + (TextEach(sep, tail) + rest)
    ensures |ArgsEach(Cons(s, tail))| == |ArgsOf(s)| + |ArgsEach(tail)|
  {
    hide TextOf, ArgsOf;
    var a, b := TextOf(s), TextEach(sep, tail);
    assert [sep] + a + b + rest == [sep] + a + (b + rest);
  }

  lemma GroupText(sep: Tok, first: Shape, others: Shapes, rest: seq<Tok>)
    ensures var s := Group(sep, first, others); var text := TextOf(first) + TextEach(sep, others);
            TextOf(s) + rest == [LParen] + text + [RParen] + rest &&
            text + [RParen] + rest == TextOf(first) + (TextEach(sep, others) + ([RParen] + rest)) &&
            |ArgsOf(s)| == |ArgsOf(first)| + |ArgsEach(others)|
  {
    hide TextEach, ArgsEach;
    var a, b := TextOf(first), TextEach(sep, others);
    assert TextOf(Group(sep, first, others)) == [LParen] + a + b + [RParen];
    assert [LParen] + a + b + [RParen] + rest == [LParen] + (a + b) + [RParen] + rest;
    assert a + b + [RParen] + rest == a + (b + ([RParen] + rest));
  }

  lemma GroupExpr(sep: Tok, first: Shape, others: Shapes, n: nat)
    ensures ExprOf(Group(sep, first, others), n) == Fold(sep, ExprOf(first, n), others, n + |ArgsOf(first)|)
  {
    hide Fold, ArgsOf;
  }

  lemma {:induction false} ParsesGroup(sep: Tok, first: Shape, others: Shapes, rest: seq<Tok>, n: nat)
    requires sep == AndKw || sep == OrKw
    requires WellFormed(first) && AllWellFormed(others) && !Starts(rest, EscapeKw)
    ensures var s := Group(sep, first, others);
            ParsePrimary(TextOf(s) + rest, n) == Done(ExprOf(s, n), rest, n + |ArgsOf(s)|)
    decreases Group(sep, first, others), 0
  {
    hide ParsePrimary, ParseOr, AndTail, OrTail, Fold, ExprOf, TextOf, TextEach, ArgsOf, ArgsEach, WellFormed,
         AllWellFormed;
    var close := [RParen] + rest;
    var tail := TextEach(sep, others) + close;
    var m := n + |ArgsOf(first)|;
    EachStarts(sep, others, close);
    ParsesShape(first, tail, n);
    ParsesTail(sep, ExprOf(first, n), others, close, m);
    StartsPlainly(first, tail);
    StartGroup(sep, TextOf(first) + tail, n, Done(ExprOf(first, n), tail, m),
               Done(Fold(sep, ExprOf(first, n), others, m), close, m + |ArgsEach(others)|));
    GroupInParens(sep, first, others, rest, n);
  }

  lemma GroupInParens(sep: Tok, first: Shape, others: Shapes, rest: seq<Tok>, n: nat)
    requires var m := n + |ArgsOf(first)|;
             ParseOr(TextOf(first) + (TextEach(sep, others) + ([RParen] + rest)), n) ==
             Done(Fold(sep, ExprOf(first, n), others, m), [RParen] + rest, m + |ArgsEach(others)|)
    ensures var s := Group(sep, first, others);
            ParsePrimary(TextOf(s) + rest, n) == Done(ExprOf(s, n), rest, n + |ArgsOf(s)|)
  {
    hide ParsePrimary, ParseOr, Fold, ExprOf, TextOf, TextEach, ArgsOf, ArgsEach;
    var s := Group(sep, first, others);
    GroupExpr(sep, first, others, n);
    GroupText(sep, first, others, rest);
    PrimaryOfParens(TextOf(first) + TextEach(sep, others), rest, n, ExprOf(s, n), n + |ArgsOf(s)|);
  }

  lemma {:induction false} ParsesTail(sep: Tok, left: Expr, ss: Shapes, rest: seq<Tok>, n: nat)
    requires (sep == AndKw || sep == OrKw) && AllWellFormed(ss)
    requires !Starts(rest, EscapeKw) && !Starts(rest, AndKw) && !Starts(rest, OrKw)
    ensures sep == AndKw ==>
              AndTail(left, TextEach(sep, ss) + rest, n) ==
              Done(Fold(sep, left, ss, n), rest, n + |ArgsEach(ss)|)
    ensures sep == OrKw ==>
              OrTail(left, TextEach(sep, ss) + rest, n) ==
              Done(Fold(sep, left, ss, n), rest, n + |ArgsEach(ss)|)
    decreases ss, 0
  {
    hide ParsePrimary, AndTail, OrTail, ExprOf, TextOf, TextEach, ArgsOf, WellFormed;
    match ss
    case Nil =>
      EachStarts(sep, ss, rest);
      TailEnds(left, rest, n);
    case Cons(s, tail) =>
      var behind := TextEach(sep, tail) + rest;
      EachStarts(sep, tail, rest);
      ParsesShape(s, behind, n);
      TailStep(sep, left, s, behind, n);
      ConsText(sep, s, tail, rest);
      ParsesTail(sep, Combine(sep, left, ExprOf(s, n)), tail, rest, n + |ArgsOf(s)|);
  }

  // ---------- evaluation ----------

  lemma Slices(args: seq<string>, n: nat, a: seq<string>, b: seq<string>)
    requires n + |a| + |b| <= |args| && args[n..n + |a + b|] == a + b
    ensures args[n..n + |a|] == a && args[n + |a|..n + |a| + |b|] == b
  {
    var both := args[n..n + |a + b|];
    assert both[..|a|] == args[n..n + |a|] && both[|a|..] == args[n + |a|..n + |a| + |b|];
  }

  lemma {:induction false} EvalsShape(s: Shape, n: nat, row: Row, args: seq<string>)
    requires WellFormed(s) && n + |ArgsOf(s)| <= |args| && args[n..n + |ArgsOf(s)|] == ArgsOf(s)
    ensures Evaluate(ExprOf(s, n), row, args) == Verdict(s, row)
    decreases s, 1
  {
    match s
    case Atom(f) =>
      assert ArgsOf(s) == [f.arg];
      assert args[n] == args[n..n + |ArgsOf(s)|][0];
    case Group(sep, first, others) =>
      Slices(args, n, ArgsOf(first), ArgsEach(others));
      EvalsShape(first, n, row, args);
      EvalsFold(sep, ExprOf(first, n), others, n + |ArgsOf(first)|, row, args);
    case Negated(inner) => EvalsShape(inner, n, row, args);
  }

  lemma {:induction false} EvalsFold(sep: Tok, left: Expr, ss: Shapes, n: nat, row: Row, args: seq<string>)
    requires (sep == AndKw || sep == OrKw) && AllWellFormed(ss)
    requires n + |ArgsEach(ss)| <= |args| && args[n..n + |ArgsEach(ss)|] == ArgsEach(ss)
    ensures Evaluate(Fold(sep, left, ss, n), row, args) ==
              Join3(sep, Evaluate(left, row, args), VerdictEach(sep, ss, row))
    decreases ss, 0
  {
    match ss
    case Nil =>
    case Cons(s, tail) =>
      Slices(args, n, ArgsOf(s), ArgsEach(tail));
      EvalsShape(s, n, row, args);
      EvalsFold(sep, Combine(sep, left, ExprOf(s, n)), tail, n + |ArgsOf(s)|, row, args);
  }

  /** The text of a clause, parsed on its own and evaluated with its arguments, has the
      value of the clause. */
  lemma TextMeansVerdict(s: Shape, row: Row)
    requires WellFormed(s)
    ensures var p := Parse(TextOf(s));
            p.Done? && p.params == |ArgsOf(s)| && Evaluate(p.expr, row, ArgsOf(s)) == Verdict(s, row)
  {
    hide ParsePrimary, ParseOr, AndTail, Evaluate, ExprOf;
    ParsesShape(s, [], 0);
    StartsPlainly(s, []);
    assert TextOf(s) + [] == TextOf(s);
    var p := Done(ExprOf(s, 0), [], |ArgsOf(s)|);
    TailEnds(p.expr, [], p.params);
    StartGroup(AndKw, TextOf(s), 0, p, p);
    EvalsShape(s, 0, row, ArgsOf(s));
  }
}
