/** The part of SQLite's expression language that compiled filters use: tokens,
    a recursive-descent parser with SQL precedence (NOT over AND over OR), and
    an evaluator in three-valued logic whose `?` placeholders take the arguments
    from left to right. */
module Sql {

  datatype Cast = AsText | AsInteger

  /** What a comparison reads from the row: a column, or a column under CAST. */
  datatype Operand = Col(name: string) | CastCol(name: string, cast: Cast)

  datatype Cmp = EqOp | NeOp | GtOp | GeOp | LtOp | LeOp | LikeOp | RegexpOp

  datatype Tok =
    | LParen | RParen | AndKw | OrKw | NotKw | Ident(name: string) | Operator(cmp: Cmp)
    | Param | EscapeKw | BackslashLit | CastKw | AsKw | TypeName(cast: Cast) | One

  /** One comparison with its placeholder; `escaped` is the ESCAPE '\' clause. */
  datatype Test = Test(operand: Operand, cmp: Cmp, escaped: bool)

  /** A parsed expression; a Compare names its placeholder by position. */
  datatype Expr =
    | True
    | Compare(test: Test, param: nat)
    | Conj(left: Expr, right: Expr)
    | Disj(left: Expr, right: Expr)
    | Neg(expr: Expr)

  datatype Parsed = Fail | Done(expr: Expr, rest: seq<Tok>, params: nat)

  predicate Starts(toks: seq<Tok>, t: Tok) {
    toks != [] && toks[0] == t
  }

  /** Parsers take the tokens and the number of placeholders already seen. */
  function ParseOr(toks: seq<Tok>, n: nat): (r: Parsed)
    ensures r.Done? ==> |r.rest| < |toks|
    decreases |toks|, 4
  {
    match ParseAnd(toks, n)
    case Fail => Fail
    case Done(l, rest, m) => OrTail(l, rest, m)
  }

  function OrTail(left: Expr, toks: seq<Tok>, n: nat): (r: Parsed)
    ensures r.Done? ==> |r.rest| <= |toks|
    decreases |toks|, 5
  {
    if !Starts(toks, OrKw) then Done(left, toks, n)
    else
      match ParseAnd(toks[1..], n)
      case Fail => Fail
      case Done(r, rest, m) => OrTail(Disj(left, r), rest, m)
  }

  function ParseAnd(toks: seq<Tok>, n: nat): (r: Parsed)
    ensures r.Done? ==> |r.rest| < |toks|
    decreases |toks|, 2
  {
    match ParseNot(toks, n)
    case Fail => Fail
    case Done(l, rest, m) => AndTail(l, rest, m)
  }

  function AndTail(left: Expr, toks: seq<Tok>, n: nat): (r: Parsed)
    ensures r.Done? ==> |r.rest| <= |toks|
    decreases |toks|, 3
  {
    if !Starts(toks, AndKw) then Done(left, toks, n)
    else
      match ParseNot(toks[1..], n)
      case Fail => Fail
      case Done(r, rest, m) => AndTail(Conj(left, r), rest, m)
  }

  function ParseNot(toks: seq<Tok>, n: nat): (r: Parsed)
    ensures r.Done? ==> |r.rest| < |toks|
    decreases |toks|, 1
  {
    if !Starts(toks, NotKw) then ParsePrimary(toks, n)
    else
      match ParseNot(toks[1..], n)
      case Fail => Fail
      case Done(e, rest, m) => Done(Neg(e), rest, m)
  }

  function ParsePrimary(toks: seq<Tok>, n: nat): (r: Parsed)
    ensures r.Done? ==> |r.rest| < |toks|
    decreases |toks|, 0
  {
    if Starts(toks, LParen) then
      match ParseOr(toks[1..], n)
      case Fail => Fail
      case Done(e, rest, m) => if Starts(rest, RParen) then Done(e, rest[1..], m) else Fail
    else ParseComparison(toks, n)
  }

  /** `1=1`, or a column (possibly under CAST) tested against a placeholder. */
  function ParseComparison(toks: seq<Tok>, n: nat): (r: Parsed)
    ensures r.Done? ==> |r.rest| < |toks|
  {
    if |toks| >= 3 && toks[0] == One && toks[1] == Operator(EqOp) && toks[2] == One then Done(True, toks[3..], n)
    else if |toks| >= 1 && toks[0].Ident? then ParseTest(Col(toks[0].name), toks[1..], n)
    else if |toks| >= 6 && toks[0] == CastKw && toks[1] == LParen && toks[2].Ident? && toks[3] == AsKw &&
            toks[4].TypeName? && toks[5] == RParen then
      ParseTest(CastCol(toks[2].name, toks[4].cast), toks[6..], n)
    else Fail
  }

  /** operator, placeholder and an optional ESCAPE '\' after LIKE. */
  function ParseTest(operand: Operand, toks: seq<Tok>, n: nat): (r: Parsed)
    ensures r.Done? ==> |r.rest| < |toks|
  {
    if |toks| < 2 || !toks[0].Operator? || toks[1] != Param then Fail
    else if |toks| >= 4 && toks[0].cmp == LikeOp && toks[2] == EscapeKw && toks[3] == BackslashLit then
      Done(Compare(Test(operand, LikeOp, true), n), toks[4..], n + 1)
    else Done(Compare(Test(operand, toks[0].cmp, false), n), toks[2..], n + 1)
  }

  /** A whole condition: nothing may be left over. */
  function Parse(toks: seq<Tok>): Parsed {
    match ParseOr(toks, 0)
    case Fail => Fail
    case Done(e, rest, n) => if rest == [] then Done(e, [], n) else Fail
  }

  // ---------- three-valued logic ----------

  datatype Truth = Yes | No | Null

  function And3(a: Truth, b: Truth): Truth {
    if a == No || b == No then No else if a == Null || b == Null then Null else Yes
  }

  function Or3(a: Truth, b: Truth): Truth {
    if a == Yes || b == Yes then Yes else if a == Null || b == Null then Null else No
  }

  function Not3(a: Truth): Truth {
    match a case Yes => No case No => Yes case Null => Null
  }

  /** A row, as far as comparisons see it: the outcome of each with its argument. */
  type Row = (Test, string) -> Truth

  function Evaluate(e: Expr, row: Row, args: seq<string>): Truth {
    match e
    case True => Yes
    case Compare(t, i) => if i < |args| then row(t, args[i]) else Null
    case Conj(l, r) => And3(Evaluate(l, row, args), Evaluate(r, row, args))
    case Disj(l, r) => Or3(Evaluate(l, row, args), Evaluate(r, row, args))
    case Neg(x) => Not3(Evaluate(x, row, args))
  }
}
