/** NULL under NOT. A comparison with a missing status is NULL in the database and false in
    the tail. Here is for which filters that makes a difference. */
module Nulls {
  import opened Text
  import opened Filters
  import opened Sql
  import opened Clauses
  import opened Compile
  import opened Eval
  import opened Agreement
  import opened Correctness
  import opened Applicability

  // ---------- three-valued filters ----------

  /** What the database makes of each leaf. */
  type LeafTruths = Filter -> Truth

  function Truth3(e: Filter, t: LeafTruths): Truth
    decreases e, 1
  {
    match e
    case And(cs) => AllTruth(cs, t)
    case Or(cs) => AnyTruth(cs, t)
    case Not(c) => Not3(Truth3(c, t))
    case Pred(_, _, _) => t(e)
  }

  function AllTruth(cs: seq<Filter>, t: LeafTruths): Truth
    decreases cs, 0
  {
    if cs == [] then Yes else And3(Truth3(cs[0], t), AllTruth(cs[1..], t))
  }

  function AnyTruth(cs: seq<Filter>, t: LeafTruths): Truth
    decreases cs, 0
  {
    if cs == [] then No else Or3(Truth3(cs[0], t), AnyTruth(cs[1..], t))
  }

  /** The tail finds true what is true in the database. */
  function Yeses(t: LeafTruths): Valuation {
    (p: Filter) => t(p) == Yes
  }

  /** The truth of the leaves on a row. */
  function LeafTruth(kind: Kind, fields: Schema, row: Row): LeafTruths {
    (p: Filter) =>
      if !p.Pred? then No
      else
        var leaf := LeafFor(p.field, p.op, p.value, kind, fields);
        if leaf.Ok? && LeafShape(leaf.value).Some? then Verdict(LeafShape(leaf.value).value, row) else No
  }

  /** The clause has the three-valued truth of the filter that is left after dropping. */
  lemma {:induction false} VerdictIsTruth(e: Filter, kind: Kind, fields: Schema, row: Row)
    requires FieldsForKind(kind) == Some(fields) && ShapeOf(e, kind, fields).Ok?
    ensures var s, k := ShapeOf(e, kind, fields).value, Prune(e, fields);
            s.Some? == k.Some? && (s.Some? ==> Verdict(s.value, row) == Truth3(k.value, LeafTruth(kind, fields, row)))
    decreases e, 1
  {
    hide LeafFor, LeafShape, LeafApplicable, Applicable;
    match e
    case And(cs) => VerdictsAreTruths(cs, kind, fields, row);
    case Or(cs) => VerdictsAreTruths(cs, kind, fields, row);
    case Not(c) => VerdictIsTruth(c, kind, fields, row);
    case Pred(field, op, value) => LeafPruned(field, op, value, kind, fields);
  }

  lemma {:induction false} VerdictsAreTruths(cs: seq<Filter>, kind: Kind, fields: Schema, row: Row)
    requires FieldsForKind(kind) == Some(fields) && ShapesOf(cs, kind, fields).Ok?
    ensures var ss, ks, t := ShapesOf(cs, kind, fields).value, PruneAll(cs, fields), LeafTruth(kind, fields, row);
            ss.Nil? == (ks == []) &&
            VerdictEach(AndKw, ss, row) == AllTruth(ks, t) && VerdictEach(OrKw, ss, row) == AnyTruth(ks, t)
    decreases cs, 0
  {
    hide LeafTruth;
    if cs != [] {
      VerdictIsTruth(cs[0], kind, fields, row);
      VerdictsAreTruths(cs[1..], kind, fields, row);
      var k, ks := Prune(cs[0], fields), PruneAll(cs[1..], fields);
      if k.Some? { assert ([k.value] + ks)[1..] == ks; }
    }
  }

  // ---------- database and tail together ----------

  /** 3: true for both; 2: NULL in the database, true for the tail; 1: NULL in the database,
      false for the tail; 0: false for both. AND takes the least and OR the greatest of these,
      and NOT turns them round. */
  function Rank(e: Filter, t: LeafTruths): (r: int)
    ensures 0 <= r <= 3
    decreases e, 1
  {
    match e
    case And(cs) => LeastRank(cs, t, true)
    case Or(cs) => 3 - LeastRank(cs, t, false)
    case Not(c) => 3 - Rank(c, t)
    case Pred(_, _, _) => if t(e) == Yes then 3 else if t(e) == Null then 1 else 0
  }

  /** For a disjunction everything is turned round. */
  function Turned(r: int, conj: bool): int {
    if conj then r else 3 - r
  }

  function LeastRank(cs: seq<Filter>, t: LeafTruths, conj: bool): (r: int)
    ensures 0 <= r <= 3
    decreases cs, 0
  {
    if cs == [] then 3
    else
      var first, least := Turned(Rank(cs[0], t), conj), LeastRank(cs[1..], t, conj);
      if first < least then first else least
  }

  function TruthOfRank(r: int): Truth {
    if r == 3 then Yes else if r == 0 then No else Null
  }

  lemma {:induction false} RankMeans(e: Filter, t: LeafTruths)
    ensures Truth3(e, t) == TruthOfRank(Rank(e, t))
    ensures Holds(e, Yeses(t)) <==> Rank(e, t) >= 2
    decreases e, 1
  {
    match e
    case And(cs) => LeastMeans(cs, t);
    case Or(cs) => LeastMeans(cs, t);
    case Not(c) => RankMeans(c, t);
    case Pred(_, _, _) =>
  }

  lemma {:induction false} LeastMeans(cs: seq<Filter>, t: LeafTruths)
    ensures AllTruth(cs, t) == TruthOfRank(LeastRank(cs, t, true)) &&
            AnyTruth(cs, t) == TruthOfRank(3 - LeastRank(cs, t, false))
    ensures HoldsAll(cs, Yeses(t)) <==> LeastRank(cs, t, true) >= 2
    ensures HoldsAny(cs, Yeses(t)) <==> LeastRank(cs, t, false) <= 1
    decreases cs, 0
  {
    hide Yeses;
    if cs != [] {
      RankMeans(cs[0], t);
      LeastMeans(cs[1..], t);
    }
  }

  // ---------- what can happen when the leaves in U are NULL ----------

  /** The filter can have the rank, going by its leaves one by one. */
  predicate Can(e: Filter, U: set<Filter>, r: int)
    decreases e, 1
  {
    match e
    case And(cs) => CanLeast(cs, U, true, r)
    case Or(cs) => CanLeast(cs, U, false, 3 - r)
    case Not(c) => Can(c, U, 3 - r)
    case Pred(_, _, _) => if e in U then r == 1 else r == 0 || r == 3
  }

  /** All can be as high as r, and one can be just there. */
  predicate CanLeast(cs: seq<Filter>, U: set<Filter>, conj: bool, r: int)
    decreases cs, 1
  {
    if cs == [] then r == 3 else AllUp(cs, U, conj, r) && AnyAt(cs, U, conj, r)
  }

  predicate AllUp(cs: seq<Filter>, U: set<Filter>, conj: bool, r: int)
    decreases cs, 0
  {
    cs == [] || (CanUp(cs[0], U, conj, r) && AllUp(cs[1..], U, conj, r))
  }

  predicate AnyAt(cs: seq<Filter>, U: set<Filter>, conj: bool, r: int)
    decreases cs, 0
  {
    cs != [] && (Can(cs[0], U, Turned(r, conj)) || AnyAt(cs[1..], U, conj, r))
  }

  predicate CanUp(e: Filter, U: set<Filter>, conj: bool, r: int)
    decreases e, 2
  {
    || (r <= 0 && Can(e, U, Turned(0, conj)))
    || (r <= 1 && Can(e, U, Turned(1, conj)))
    || (r <= 2 && Can(e, U, Turned(2, conj)))
    || (r <= 3 && Can(e, U, Turned(3, conj)))
  }

  lemma {:induction false} CanWhatIs(e: Filter, t: LeafTruths, U: set<Filter>)
    requires forall p <- Leaves(e) :: t(p) == Null <==> p in U
    ensures Can(e, U, Rank(e, t))
    decreases e, 1
  {
    match e
    case And(cs) => CanWhatLeastIs(cs, t, U, true);
    case Or(cs) => CanWhatLeastIs(cs, t, U, false);
    case Not(c) => CanWhatIs(c, t, U);
    case Pred(_, _, _) => assert e in Leaves(e);
  }

  lemma {:induction false} CanWhatLeastIs(cs: seq<Filter>, t: LeafTruths, U: set<Filter>, conj: bool)
    requires forall p <- LeavesAll(cs) :: t(p) == Null <==> p in U
    ensures AllUp(cs, U, conj, LeastRank(cs, t, conj)) && (cs != [] ==> AnyAt(cs, U, conj, LeastRank(cs, t, conj)))
    decreases cs, 0
  {
    if cs != [] {
      hide Can, Rank;
      CanWhatIs(cs[0], t, U);
      CanWhatLeastIs(cs[1..], t, U, conj);
      AllUpFromHigher(cs[1..], U, conj, LeastRank(cs[1..], t, conj), LeastRank(cs, t, conj));
      var first := Turned(Rank(cs[0], t), conj);
      assert Turned(first, conj) == Rank(cs[0], t);
      assert CanUp(cs[0], U, conj, first);
    }
  }

  lemma {:induction false} AllUpFromHigher(cs: seq<Filter>, U: set<Filter>, conj: bool, high: int, low: int)
    requires AllUp(cs, U, conj, high) && low <= high
    ensures AllUp(cs, U, conj, low)
    decreases |cs|
  {
    hide Can;
    if cs != [] { AllUpFromHigher(cs[1..], U, conj, high, low); }
  }

  // ---------- and does happen ----------

  /** The leaves in U are NULL, of the others those in T true. */
  function Assign(T: set<Filter>, U: set<Filter>): LeafTruths {
    (p: Filter) => if p in U then Null else if p in T then Yes else No
  }

  lemma {:induction false} RankLocal(e: Filter, S: set<Filter>, T: set<Filter>, U: set<Filter>)
    requires S * Leaves(e) == T * Leaves(e)
    ensures Rank(e, Assign(S, U)) == Rank(e, Assign(T, U))
    decreases e, 1
  {
    match e
    case And(cs) => LeastLocal(cs, S, T, U, true);
    case Or(cs) => LeastLocal(cs, S, T, U, false);
    case Not(c) => RankLocal(c, S, T, U);
    case Pred(_, _, _) => assert e in S <==> e in S * Leaves(e); assert e in T <==> e in T * Leaves(e);
  }

  lemma {:induction false} LeastLocal(cs: seq<Filter>, S: set<Filter>, T: set<Filter>, U: set<Filter>, conj: bool)
    requires S * LeavesAll(cs) == T * LeavesAll(cs)
    ensures LeastRank(cs, Assign(S, U), conj) == LeastRank(cs, Assign(T, U), conj)
    decreases cs, 0
  {
    if cs != [] {
      hide Rank, Assign;
      var own, more := Leaves(cs[0]), LeavesAll(cs[1..]);
      assert S * own == S * LeavesAll(cs) * own && T * own == T * LeavesAll(cs) * own;
      assert S * more == S * LeavesAll(cs) * more && T * more == T * LeavesAll(cs) * more;
      RankLocal(cs[0], S, T, U);
      LeastLocal(cs[1..], S, T, U, conj);
    }
  }

  /** Choices for the first child and for the others do not interfere. */
  lemma LeastApart(cs: seq<Filter>, S: set<Filter>, T: set<Filter>, U: set<Filter>, conj: bool)
    requires cs != [] && ReadOnceAll(cs) && S <= Leaves(cs[0]) && T <= LeavesAll(cs[1..])
    ensures S + T <= LeavesAll(cs)
    ensures var first, least := Turned(Rank(cs[0], Assign(S, U)), conj), LeastRank(cs[1..], Assign(T, U), conj);
            LeastRank(cs, Assign(S + T, U), conj) == if first < least then first else least
  {
    hide Rank, Assign;
    assert (S + T) * Leaves(cs[0]) == S * Leaves(cs[0]);
    assert (S + T) * LeavesAll(cs[1..]) == T * LeavesAll(cs[1..]);
    RankLocal(cs[0], S + T, S, U);
    LeastLocal(cs[1..], S + T, T, U, conj);
  }

  lemma {:induction false} Attain(e: Filter, U: set<Filter>, r: int) returns (T: set<Filter>)
    requires ReadOnce(e) && Can(e, U, r)
    ensures T <= Leaves(e) && Rank(e, Assign(T, U)) == r
    decreases e, 1
  {
    match e
    case And(cs) => T := AttainLeast(cs, U, true, r);
    case Or(cs) => T := AttainLeast(cs, U, false, 3 - r);
    case Not(c) => T := Attain(c, U, 3 - r);
    case Pred(_, _, _) => T := if r == 3 then {e} else {};
  }

  lemma {:induction false} AttainLeast(cs: seq<Filter>, U: set<Filter>, conj: bool, r: int) returns (T: set<Filter>)
    requires ReadOnceAll(cs) && CanLeast(cs, U, conj, r)
    ensures T <= LeavesAll(cs) && LeastRank(cs, Assign(T, U), conj) == r
    decreases cs, 0
  {
    T := {};
    if cs != [] {
      hide Can, Rank, Assign, CanUp;
      var S: set<Filter>;
      if Can(cs[0], U, Turned(r, conj)) {
        S := Attain(cs[0], U, Turned(r, conj));
        T := AttainUp(cs[1..], U, conj, r);
      } else {
        LaterOne(cs, U, conj, r);
        S := AttainOneUp(cs[0], U, conj, r);
        T := AttainLeast(cs[1..], U, conj, r);
      }
      LeastApart(cs, S, T, U, conj);
      T := S + T;
    }
  }

  lemma LaterOne(cs: seq<Filter>, U: set<Filter>, conj: bool, r: int)
    requires cs != [] && CanLeast(cs, U, conj, r) && !Can(cs[0], U, Turned(r, conj))
    ensures CanUp(cs[0], U, conj, r) && CanLeast(cs[1..], U, conj, r)
  {
    hide Can, CanUp;
    assert AnyAt(cs[1..], U, conj, r) && AllUp(cs[1..], U, conj, r);
    assert cs[1..] != [];
  }

  lemma CanLeastOfParts(cs: seq<Filter>, U: set<Filter>, conj: bool, r: int)
    requires cs != [] && CanUp(cs[0], U, conj, r) && AllUp(cs[1..], U, conj, r)
    requires Can(cs[0], U, Turned(r, conj)) || AnyAt(cs[1..], U, conj, r)
    ensures CanLeast(cs, U, conj, r)
  {
    hide Can, CanUp;
  }

  lemma CanUpFrom(e: Filter, U: set<Filter>, conj: bool, r: int, high: int)
    requires 0 <= r <= high <= 3 && Can(e, U, Turned(high, conj))
    ensures CanUp(e, U, conj, r)
  {
    hide Can;
  }

  lemma {:induction false} AttainOneUp(e: Filter, U: set<Filter>, conj: bool, r: int) returns (T: set<Filter>)
    requires ReadOnce(e) && CanUp(e, U, conj, r)
    ensures T <= Leaves(e) && Turned(Rank(e, Assign(T, U)), conj) >= r
    decreases e, 2
  {
    hide Can, Rank, Assign;
    var q :| r <= q && 0 <= q <= 3 && Can(e, U, Turned(q, conj));
    T := Attain(e, U, Turned(q, conj));
  }

  lemma {:induction false} AttainUp(cs: seq<Filter>, U: set<Filter>, conj: bool, r: int) returns (T: set<Filter>)
    requires ReadOnceAll(cs) && AllUp(cs, U, conj, r) && r <= 3
    ensures T <= LeavesAll(cs) && LeastRank(cs, Assign(T, U), conj) >= r
    decreases cs, 0
  {
    T := {};
    if cs != [] {
      hide Can, Rank, Assign, CanUp;
      var S := AttainOneUp(cs[0], U, conj, r);
      T := AttainUp(cs[1..], U, conj, r);
      LeastApart(cs, S, T, U, conj);
      T := S + T;
    }
  }

  /** Database and tail say the same of a filter. */
  predicate Agree(e: Filter, t: LeafTruths) {
    Truth3(e, t) == Yes <==> Holds(e, Yeses(t))
  }

  /** With the leaves in U NULL, and whatever the others are: query and tail agree exactly if the
      filter cannot be NULL and true. */
  lemma NullsHarmlessIff(e: Filter, U: set<Filter>)
    requires ReadOnce(e)
    ensures (forall T: set<Filter> :: Agree(e, Assign(T, U))) <==> !Can(e, U, 2)
  {
    hide Can, Rank, ReadOnce, Truth3, Holds;
    forall T: set<Filter> ensures Agree(e, Assign(T, U)) <==> Rank(e, Assign(T, U)) != 2 { RankMeans(e, Assign(T, U)); }
    if Can(e, U, 2) {
      var T := Attain(e, U, 2);
      assert !Agree(e, Assign(T, U));
    } else {
      forall T: set<Filter> ensures Agree(e, Assign(T, U)) { CanWhatIs(e, Assign(T, U), U); }
    }
  }

  // ---------- an even number of NOTs ----------

  /** No leaf in N stands under an odd number of NOTs (for b: an even number). */
  predicate EvenNots(e: Filter, b: bool, N: set<Filter>)
    decreases e, 1
  {
    match e
    case And(cs) => AllEvenNots(cs, b, N)
    case Or(cs) => AllEvenNots(cs, b, N)
    case Not(c) => EvenNots(c, !b, N)
    case Pred(_, _, _) => b || e !in N
  }

  predicate AllEvenNots(cs: seq<Filter>, b: bool, N: set<Filter>)
    decreases cs, 0
  {
    cs == [] || (EvenNots(cs[0], b, N) && AllEvenNots(cs[1..], b, N))
  }

  lemma {:induction false} EvenNotsCannot(e: Filter, b: bool, N: set<Filter>, U: set<Filter>)
    requires EvenNots(e, b, N) && U <= N
    ensures !Can(e, U, if b then 2 else 1)
    decreases e, 1
  {
    match e
    case And(cs) => NoneAt(cs, b, N, U, true);
    case Or(cs) => NoneAt(cs, b, N, U, false);
    case Not(c) => EvenNotsCannot(c, !b, N, U);
    case Pred(_, _, _) =>
  }

  lemma {:induction false} NoneAt(cs: seq<Filter>, b: bool, N: set<Filter>, U: set<Filter>, conj: bool)
    requires AllEvenNots(cs, b, N) && U <= N
    ensures !AnyAt(cs, U, conj, Turned(if b then 2 else 1, conj))
    decreases cs, 0
  {
    if cs != [] {
      EvenNotsCannot(cs[0], b, N, U);
      NoneAt(cs[1..], b, N, U, conj);
    }
  }

  /** Without NULLs among its leaves, a filter can be plainly true and plainly false. */
  lemma {:induction false} CanBoth(e: Filter, U: set<Filter>)
    requires Filled(e) && Leaves(e) !! U
    ensures Can(e, U, 0) && Can(e, U, 3)
    decreases e, 1
  {
    match e
    case And(cs) => AllCanBoth(cs, U, true);
    case Or(cs) => AllCanBoth(cs, U, false);
    case Not(c) => CanBoth(c, U);
    case Pred(_, _, _) => assert e in Leaves(e);
  }

  lemma {:induction false} AllCanBoth(cs: seq<Filter>, U: set<Filter>, conj: bool)
    requires AllFilled(cs) && LeavesAll(cs) !! U
    ensures forall r :: r <= 3 ==> AllUp(cs, U, conj, r)
    ensures cs != [] ==> AnyAt(cs, U, conj, 0) && AnyAt(cs, U, conj, 3)
    decreases cs, 0
  {
    if cs != [] {
      hide Can;
      CanBoth(cs[0], U);
      AllCanBoth(cs[1..], U, conj);
    }
  }

  /** A leaf that stands under the wrong number of NOTs can make the difference alone. */
  lemma {:induction false} OneNullShows(e: Filter, b: bool, N: set<Filter>) returns (p: Filter)
    requires ReadOnce(e) && Filled(e) && !EvenNots(e, b, N)
    ensures p in N && p in Leaves(e) && Can(e, {p}, if b then 2 else 1)
    decreases e, 1
  {
    match e
    case And(cs) => p := OneOfThem(cs, b, N, true);
    case Or(cs) => p := OneOfThem(cs, b, N, false);
    case Not(c) => p := OneNullShows(c, !b, N);
    case Pred(_, _, _) => p := e;
  }

  lemma {:induction false} OneOfThem(cs: seq<Filter>, b: bool, N: set<Filter>, conj: bool) returns (p: Filter)
    requires ReadOnceAll(cs) && AllFilled(cs) && !AllEvenNots(cs, b, N)
    ensures p in N && p in LeavesAll(cs) && CanLeast(cs, {p}, conj, Turned(if b then 2 else 1, conj))
    decreases cs, 0
  {
    hide Can, CanUp, CanLeast;
    var r := Turned(if b then 2 else 1, conj);
    assert Turned(r, conj) == if b then 2 else 1;
    if !EvenNots(cs[0], b, N) {
      p := OneNullShows(cs[0], b, N);
      assert LeavesAll(cs[1..]) !! {p};
      AllCanBoth(cs[1..], {p}, conj);
      CanUpFrom(cs[0], {p}, conj, r, r);
    } else {
      p := OneOfThem(cs[1..], b, N, conj);
      assert Leaves(cs[0]) !! {p};
      CanBoth(cs[0], {p});
      CanUpFrom(cs[0], {p}, conj, r, 3);
      LeastParts(cs[1..], {p}, conj, r);
    }
    CanLeastOfParts(cs, {p}, conj, r);
  }

  lemma LeastParts(cs: seq<Filter>, U: set<Filter>, conj: bool, r: int)
    requires CanLeast(cs, U, conj, r) && r != 3
    ensures AllUp(cs, U, conj, r) && AnyAt(cs, U, conj, r)
  {
    hide Can, CanUp;
  }

  /** Whichever leaves of N are NULL, and whatever the others are: query and tail agree exactly if
      no leaf of N stands under an odd number of NOTs. */
  lemma AnyNullsHarmlessIff(e: Filter, N: set<Filter>)
    requires ReadOnce(e) && Filled(e)
    ensures (forall T: set<Filter>, U: set<Filter> :: U <= N ==> Agree(e, Assign(T, U))) <==> EvenNots(e, true, N)
  {
    hide Can, ReadOnce, Agree, Filled, EvenNots;
    if EvenNots(e, true, N) {
      forall T: set<Filter>, U: set<Filter> | U <= N ensures Agree(e, Assign(T, U)) {
        EvenNotsCannot(e, true, N, U);
        NullsHarmlessIff(e, U);
      }
    } else {
      var p := OneNullShows(e, true, N);
      NullsHarmlessIff(e, {p});
    }
  }

  // ---------- compiled filters ----------

  /** The filter that is left has no empty group. */
  lemma {:induction false} PrunedIsFilled(e: Filter, fields: Schema)
    ensures Prune(e, fields).Some? ==> Filled(Prune(e, fields).value)
    decreases e, 1
  {
    hide LeafApplicable, Applicable;
    match e
    case And(cs) => PrunedAreFilled(cs, fields);
    case Or(cs) => PrunedAreFilled(cs, fields);
    case Not(c) => PrunedIsFilled(c, fields);
    case Pred(_, _, _) =>
  }

  lemma {:induction false} PrunedAreFilled(cs: seq<Filter>, fields: Schema)
    ensures AllFilled(PruneAll(cs, fields))
    decreases cs, 0
  {
    if cs != [] {
      PrunedIsFilled(cs[0], fields);
      PrunedAreFilled(cs[1..], fields);
      var k, ks := Prune(cs[0], fields), PruneAll(cs[1..], fields);
      if k.Some? { assert ([k.value] + ks)[1..] == ks; }
    }
  }

  /** The compiled text, with its arguments, has the three-valued truth of what is left of the
      filter; with leaves that are NULL only in U, it matches a row exactly if the tail accepts
      what is left, unless that can be NULL and true. */
  lemma CompiledMeans(e: Filter, kind: Kind, row: Row, U: set<Filter>)
    requires CompileFilter(Some(e), kind).Ok? && CompileFilter(Some(e), kind).value.applicable
    ensures FieldsForKind(kind).Some? && Prune(e, FieldsForKind(kind).value).Some?
    ensures var f, k := CompileFilter(Some(e), kind).value, Prune(e, FieldsForKind(kind).value).value;
            var t := LeafTruth(kind, FieldsForKind(kind).value, row);
            |f.wheres| == 1 && Parse(f.wheres[0]).Done? && Parse(f.wheres[0]).params == |f.args| &&
            Evaluate(Parse(f.wheres[0]).expr, row, f.args) == Truth3(k, t) &&
            (Matches(f, row) <==> Truth3(k, t) == Yes) &&
            ((forall p <- Leaves(k) :: t(p) == Null <==> p in U) && !Can(k, U, 2) ==>
             (Matches(f, row) <==> Holds(k, Yeses(t))))
  {
    hide Applicable, CompileFilter, ShapeOf, TextOf, ArgsOf, Prune, Parse, Evaluate, Verdict, WellFormed, Holds,
         Truth3, Can, Rank, Leaves, LeafTruth;
    CompiledOk(e, kind, row);
    var fields := FieldsForKind(kind).value;
    var s := ShapeOf(e, kind, fields).value.value;
    VerdictIsTruth(e, kind, fields, row);
    TextMeansVerdict(s, row);
    var f := CompileFilter(Some(e), kind).value;
    assert f.wheres[0] in f.wheres;
    var k, t := Prune(e, fields).value, LeafTruth(kind, fields, row);
    RankMeans(k, t);
    if forall p <- Leaves(k) :: t(p) == Null <==> p in U { CanWhatIs(k, t, U); }
  }

  lemma {:induction false} SameLeaves(e: Filter, v: Valuation, w: Valuation)
    requires forall p <- Leaves(e) :: v(p) == w(p)
    ensures Holds(e, v) == Holds(e, w)
    decreases e, 1
  {
    match e
    case And(cs) => SameLeavesAll(cs, v, w);
    case Or(cs) => SameLeavesAll(cs, v, w);
    case Not(c) => SameLeaves(c, v, w);
    case Pred(_, _, _) => assert e in Leaves(e);
  }

  lemma {:induction false} SameLeavesAll(cs: seq<Filter>, v: Valuation, w: Valuation)
    requires forall p <- LeavesAll(cs) :: v(p) == w(p)
    ensures HoldsAll(cs, v) == HoldsAll(cs, w) && HoldsAny(cs, v) == HoldsAny(cs, w)
    decreases cs, 0
  {
    if cs != [] {
      SameLeaves(cs[0], v, w);
      SameLeavesAll(cs[1..], v, w);
    }
  }

  /** If the tail finds true exactly what is true in the database, and the leaves in U are those
      that are NULL: what the query matches the tail accepts, and also the other way round
      unless what is left of the filter can be NULL and true. */
  lemma QueryAndTail(e: Filter, kind: Kind, row: Row, ev: Event, rx: Matcher, U: set<Filter>)
    requires CompileFilter(Some(e), kind).Ok? && CompileFilter(Some(e), kind).value.applicable
    requires FieldsForKind(kind).Some? && Prune(e, FieldsForKind(kind).value).Some? ==>
               var fields := FieldsForKind(kind).value;
               var t := LeafTruth(kind, fields, row);
               forall p <- Leaves(Prune(e, fields).value) ::
                 (LeafEval(ev, kind, fields, rx)(p) <==> t(p) == Yes) && (t(p) == Null <==> p in U)
    ensures FieldsForKind(kind).Some? && Prune(e, FieldsForKind(kind).value).Some?
    ensures var fields := FieldsForKind(kind).value;
            var k := Prune(e, fields).value;
            var found, accepted := Matches(CompileFilter(Some(e), kind).value, row), EvalNode(k, ev, kind, fields, rx);
            (found ==> accepted) && (!Can(k, U, 2) ==> found == accepted)
  {
    hide CompileFilter, Matches, Prune, Holds, Truth3, Can, Leaves, LeafTruth, EvalNode, Rank, LeafEval;
    CompiledMeans(e, kind, row, U);
    var fields := FieldsForKind(kind).value;
    var k, t := Prune(e, fields).value, LeafTruth(kind, fields, row);
    EvalIsHolds(k, ev, kind, fields, rx);
    SameLeaves(k, LeafEval(ev, kind, fields, rx), Yeses(t));
    RankMeans(k, t);
  }
}
