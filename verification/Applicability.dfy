/** What becomes of conditions that a source cannot answer. The compiler drops
    them (splunklite/compile.go), the tail evaluates them (splunklite/eval_filter.go),
    mostly to false. Here is when dropping them does no harm. */
module Applicability {
  import opened Text
  import opened Filters
  import opened Eval
  import opened Agreement
  import opened Correctness

  predicate Kept(e: Filter, fields: Schema) {
    Prune(e, fields).Some?
  }

  /** A comparison that the tail can find true: its field is known to the source. */
  predicate Answerable(p: Filter, fields: Schema) {
    p.Pred? && (p.field == "" || p.field in fields)
  }

  /** The tail calls conditions on unknown fields false. */
  ghost predicate TailLike(v: Valuation, fields: Schema) {
    forall p :: v(p) ==> Answerable(p, fields)
  }

  // ---------- the syntactic conditions ----------

  /** The tail can find e to be b, going by its leaves one by one. */
  predicate Reaches(e: Filter, fields: Schema, b: bool)
    decreases e, 1
  {
    match e
    case And(cs) => if b then AllReach(cs, fields, b) else AnyReach(cs, fields, b)
    case Or(cs) => if b then AnyReach(cs, fields, b) else AllReach(cs, fields, b)
    case Not(c) => Reaches(c, fields, !b)
    case Pred(_, _, _) => b ==> Answerable(e, fields)
  }

  predicate AllReach(cs: seq<Filter>, fields: Schema, b: bool)
    decreases cs, 0
  {
    cs == [] || (Reaches(cs[0], fields, b) && AllReach(cs[1..], fields, b))
  }

  predicate AnyReach(cs: seq<Filter>, fields: Schema, b: bool)
    decreases cs, 0
  {
    cs != [] && (Reaches(cs[0], fields, b) || AnyReach(cs[1..], fields, b))
  }

  /** Where the tail finds e to be b, so does the compiled filter. A conjunction is
      false through any one child, so a dropped child must never be false; it is true
      through all children, so nothing is asked if one of them is never true. For a
      disjunction it is the other way round. */
  predicate Follows(e: Filter, fields: Schema, b: bool)
    decreases e, 1
  {
    match e
    case And(cs) =>
      if b then AllReach(cs, fields, b) ==> AllFollow(cs, fields, b)
      else AllFollow(cs, fields, b) && DroppedStand(cs, fields, b)
    case Or(cs) =>
      if b then AllFollow(cs, fields, b) && DroppedStand(cs, fields, b)
      else AllReach(cs, fields, b) ==> AllFollow(cs, fields, b)
    case Not(c) => Follows(c, fields, !b)
    case Pred(_, _, _) => true
  }

  predicate AllFollow(cs: seq<Filter>, fields: Schema, b: bool)
    decreases cs, 0
  {
    cs == [] || ((Kept(cs[0], fields) ==> Follows(cs[0], fields, b)) && AllFollow(cs[1..], fields, b))
  }

  /** No child that is dropped ever is b. */
  predicate DroppedStand(cs: seq<Filter>, fields: Schema, b: bool) {
    cs == [] || ((!Kept(cs[0], fields) ==> !Reaches(cs[0], fields, b)) && DroppedStand(cs[1..], fields, b))
  }

  // ---------- conjunctions and disjunctions alike ----------

  /** Every child is b: the conjunction is true, or the disjunction false. */
  predicate Every(cs: seq<Filter>, v: Valuation, b: bool) {
    if b then HoldsAll(cs, v) else !HoldsAny(cs, v)
  }

  function Group(cs: seq<Filter>, conj: bool): Filter {
    if conj then And(cs) else Or(cs)
  }

  predicate SqlIs(e: Filter, fields: Schema, v: Valuation, b: bool) {
    Kept(e, fields) && Holds(Prune(e, fields).value, v) == b
  }

  predicate SqlEvery(cs: seq<Filter>, fields: Schema, v: Valuation, b: bool) {
    Every(PruneAll(cs, fields), v, b)
  }

  lemma EveryStep(cs: seq<Filter>, fields: Schema, v: Valuation, b: bool)
    requires cs != []
    ensures Every(cs, v, b) <==> (Holds(cs[0], v) == b && Every(cs[1..], v, b))
    ensures SqlEvery(cs, fields, v, b) <==> (!SqlIs(cs[0], fields, v, !b) && SqlEvery(cs[1..], fields, v, b))
  {
    hide LeafApplicable, Applicable;
    var k, ks := Prune(cs[0], fields), PruneAll(cs[1..], fields);
    if k.Some? { assert PruneAll(cs, fields)[0] == k.value && PruneAll(cs, fields)[1..] == ks; }
  }

  lemma GroupIs(cs: seq<Filter>, conj: bool, fields: Schema, v: Valuation)
    ensures Holds(Group(cs, conj), v) == conj <==> Every(cs, v, conj)
    ensures Kept(Group(cs, conj), fields) <==> PruneAll(cs, fields) != []
    ensures SqlIs(Group(cs, conj), fields, v, conj) <==> (PruneAll(cs, fields) != [] && SqlEvery(cs, fields, v, conj))
  {
    hide LeafApplicable, Applicable;
  }

  // ---------- enough: for every filter ----------

  lemma {:induction false} ReachesWhatHolds(e: Filter, fields: Schema, v: Valuation)
    requires TailLike(v, fields)
    ensures Reaches(e, fields, Holds(e, v))
    decreases e, 1
  {
    match e
    case And(cs) => ReachWhatHold(cs, fields, v);
    case Or(cs) => ReachWhatHold(cs, fields, v);
    case Not(c) => ReachesWhatHolds(c, fields, v);
    case Pred(_, _, _) =>
  }

  lemma {:induction false} ReachWhatHold(cs: seq<Filter>, fields: Schema, v: Valuation)
    requires TailLike(v, fields)
    ensures HoldsAll(cs, v) ==> AllReach(cs, fields, true)
    ensures !HoldsAll(cs, v) ==> AnyReach(cs, fields, false)
    ensures HoldsAny(cs, v) ==> AnyReach(cs, fields, true)
    ensures !HoldsAny(cs, v) ==> AllReach(cs, fields, false)
    decreases cs, 0
  {
    if cs != [] {
      ReachesWhatHolds(cs[0], fields, v);
      ReachWhatHold(cs[1..], fields, v);
    }
  }

  lemma {:induction false} FollowsIsEnough(e: Filter, fields: Schema, v: Valuation, b: bool)
    requires TailLike(v, fields) && Kept(e, fields) && Follows(e, fields, b) && Holds(e, v) == b
    ensures SqlIs(e, fields, v, b)
    decreases e, 1
  {
    hide LeafApplicable, Applicable, Reaches;
    match e
    case And(cs) =>
      GroupIs(cs, true, fields, v);
      FollowEnough(cs, true, fields, v, b);
    case Or(cs) =>
      GroupIs(cs, false, fields, v);
      FollowEnough(cs, false, fields, v, b);
    case Not(c) => FollowsIsEnough(c, fields, v, !b);
    case Pred(_, _, _) =>
  }

  lemma {:induction false} FollowEnough(cs: seq<Filter>, conj: bool, fields: Schema, v: Valuation, b: bool)
    requires TailLike(v, fields) && Every(cs, v, conj) == (b == conj)
    requires b == conj ==> AllReach(cs, fields, b) ==> AllFollow(cs, fields, b)
    requires b != conj ==> AllFollow(cs, fields, b) && DroppedStand(cs, fields, b)
    ensures SqlEvery(cs, fields, v, conj) == (b == conj)
    decreases cs, 1
  {
    hide Every, Holds, Reaches, Kept, SqlEvery, Follows, SqlIs;
    if b == conj {
      assert AllReach(cs, fields, b) by {
        ReachWhatHold(cs, fields, v);
        EveryIs(cs, v, b);
      }
      NeutralEnough(cs, fields, v, b);
    } else {
      AbsorbingEnough(cs, fields, v, b);
    }
  }

  lemma EveryIs(cs: seq<Filter>, v: Valuation, b: bool)
    ensures Every(cs, v, b) <==> (if b then HoldsAll(cs, v) else !HoldsAny(cs, v))
  {
  }

  lemma {:induction false} NeutralEnough(cs: seq<Filter>, fields: Schema, v: Valuation, b: bool)
    requires TailLike(v, fields) && Every(cs, v, b) && AllFollow(cs, fields, b)
    ensures SqlEvery(cs, fields, v, b)
    decreases cs, 0
  {
    if cs != [] {
      hide Every, Holds, SqlEvery, Follows, LeafApplicable, Applicable;
      EveryStep(cs, fields, v, b);
      if Kept(cs[0], fields) { FollowsIsEnough(cs[0], fields, v, b); }
      NeutralEnough(cs[1..], fields, v, b);
    }
  }

  lemma {:induction false} AbsorbingEnough(cs: seq<Filter>, fields: Schema, v: Valuation, b: bool)
    requires TailLike(v, fields) && !Every(cs, v, !b) && AllFollow(cs, fields, b) && DroppedStand(cs, fields, b)
    ensures !SqlEvery(cs, fields, v, !b)
    decreases cs, 0
  {
    if cs != [] {
      hide Every, Holds, SqlEvery, Follows, Reaches, LeafApplicable, Applicable;
      EveryStep(cs, fields, v, !b);
      if Holds(cs[0], v) == b {
        ReachesWhatHolds(cs[0], fields, v);
        FollowsIsEnough(cs[0], fields, v, b);
      } else {
        AbsorbingEnough(cs[1..], fields, v, b);
      }
    }
  }

  /** An event on which the tail says b is one on which the compiled filter says b,
      wherever dropped parts follow. */
  lemma FollowsSuffices(e: Filter, fields: Schema, b: bool, ev: Event, kind: Kind, rx: Matcher)
    requires FieldsForKind(kind) == Some(fields) && Kept(e, fields) && Follows(e, fields, b)
    requires EvalNode(e, ev, kind, fields, rx) == b
    ensures EvalNode(Prune(e, fields).value, ev, kind, fields, rx) == b
  {
    hide Prune, Follows, Holds, EvalNode;
    var v := LeafEval(ev, kind, fields, rx);
    EvalIsHolds(e, ev, kind, fields, rx);
    EvalIsHolds(Prune(e, fields).value, ev, kind, fields, rx);
    FollowsIsEnough(e, fields, v, b);
  }

  // ---------- necessary: for filters that use no leaf twice ----------

  function Leaves(e: Filter): set<Filter>
    decreases e, 1
  {
    match e
    case And(cs) => LeavesAll(cs)
    case Or(cs) => LeavesAll(cs)
    case Not(c) => Leaves(c)
    case Pred(_, _, _) => {e}
  }

  function LeavesAll(cs: seq<Filter>): set<Filter>
    decreases cs, 0
  {
    if cs == [] then {} else Leaves(cs[0]) + LeavesAll(cs[1..])
  }

  predicate ReadOnce(e: Filter)
    decreases e, 1
  {
    match e
    case And(cs) => ReadOnceAll(cs)
    case Or(cs) => ReadOnceAll(cs)
    case Not(c) => ReadOnce(c)
    case Pred(_, _, _) => true
  }

  predicate ReadOnceAll(cs: seq<Filter>)
    decreases cs, 0
  {
    cs == [] || (ReadOnce(cs[0]) && ReadOnceAll(cs[1..]) && Leaves(cs[0]) !! LeavesAll(cs[1..]))
  }

  /** Exactly the leaves in T are true. */
  function Among(T: set<Filter>): Valuation {
    (p: Filter) => p in T
  }

  /** A set of leaves that the tail may find true together. */
  predicate Admissible(T: set<Filter>, fields: Schema) {
    forall p <- T :: Answerable(p, fields)
  }

  predicate TailSays(e: Filter, T: set<Filter>) {
    Holds(e, Among(T))
  }

  /** The value of the compiled filter; what cannot be compiled is in it no more. */
  predicate SqlSays(e: Filter, fields: Schema, T: set<Filter>) {
    SqlIs(e, fields, Among(T), true)
  }

  /** The value of a filter depends on its own leaves only. */
  lemma {:induction false} Local(e: Filter, fields: Schema, S: set<Filter>, T: set<Filter>)
    requires S * Leaves(e) == T * Leaves(e)
    ensures Holds(e, Among(S)) == Holds(e, Among(T))
    ensures forall b :: SqlIs(e, fields, Among(S), b) == SqlIs(e, fields, Among(T), b)
    decreases e, 1
  {
    hide LeafApplicable, Applicable;
    match e
    case And(cs) =>
      LocalAll(cs, fields, S, T);
      GroupIs(cs, true, fields, Among(S));
      GroupIs(cs, true, fields, Among(T));
    case Or(cs) =>
      LocalAll(cs, fields, S, T);
      GroupIs(cs, false, fields, Among(S));
      GroupIs(cs, false, fields, Among(T));
    case Not(c) =>
      Local(c, fields, S, T);
      assert forall b :: SqlIs(e, fields, Among(S), b) == SqlIs(c, fields, Among(S), !b);
      assert forall b :: SqlIs(e, fields, Among(T), b) == SqlIs(c, fields, Among(T), !b);
    case Pred(_, _, _) => assert e in S <==> e in S * Leaves(e); assert e in T <==> e in T * Leaves(e);
  }

  lemma {:induction false} LocalAll(cs: seq<Filter>, fields: Schema, S: set<Filter>, T: set<Filter>)
    requires S * LeavesAll(cs) == T * LeavesAll(cs)
    ensures forall b :: Every(cs, Among(S), b) == Every(cs, Among(T), b)
    ensures forall b :: SqlEvery(cs, fields, Among(S), b) == SqlEvery(cs, fields, Among(T), b)
    decreases cs, 0
  {
    if cs != [] {
      hide Every, Holds, SqlEvery, SqlIs, Prune, PruneAll, LeafApplicable, Applicable;
      var own := Leaves(cs[0]);
      assert S * own == S * LeavesAll(cs) * own && T * own == T * LeavesAll(cs) * own;
      var more := LeavesAll(cs[1..]);
      assert S * more == S * LeavesAll(cs) * more && T * more == T * LeavesAll(cs) * more;
      Local(cs[0], fields, S, T);
      LocalAll(cs[1..], fields, S, T);
      EveryStep(cs, fields, Among(S), true);
      EveryStep(cs, fields, Among(T), true);
      EveryStep(cs, fields, Among(S), false);
      EveryStep(cs, fields, Among(T), false);
    }
  }

  /** Choices for the first child and for the others do not interfere. */
  lemma Apart(cs: seq<Filter>, fields: Schema, S: set<Filter>, T: set<Filter>, b: bool)
    requires cs != [] && ReadOnceAll(cs) && S <= Leaves(cs[0]) && T <= LeavesAll(cs[1..])
    requires Admissible(S, fields) && Admissible(T, fields)
    ensures S + T <= LeavesAll(cs) && Admissible(S + T, fields)
    ensures Every(cs, Among(S + T), b) <==> (Holds(cs[0], Among(S)) == b && Every(cs[1..], Among(T), b))
    ensures SqlEvery(cs, fields, Among(S + T), b) <==>
            (!SqlIs(cs[0], fields, Among(S), !b) && SqlEvery(cs[1..], fields, Among(T), b))
  {
    hide Every, Holds, SqlEvery, SqlIs, Prune, PruneAll;
    assert (S + T) * Leaves(cs[0]) == S * Leaves(cs[0]);
    assert (S + T) * LeavesAll(cs[1..]) == T * LeavesAll(cs[1..]);
    Local(cs[0], fields, S + T, S);
    LocalAll(cs[1..], fields, S + T, T);
    EveryStep(cs, fields, Among(S + T), b);
  }

  /** A value that is reached leaf by leaf is reached by one choice of leaves. */
  lemma {:induction false} Reach(e: Filter, fields: Schema, b: bool) returns (T: set<Filter>)
    requires ReadOnce(e) && Reaches(e, fields, b)
    ensures T <= Leaves(e) && Admissible(T, fields) && TailSays(e, T) == b
    decreases e, 1
  {
    match e
    case And(cs) =>
      if b { T := ReachEvery(cs, fields, b); } else { T := ReachOne(cs, fields, b); }
      GroupIs(cs, true, fields, Among(T));
    case Or(cs) =>
      if b { T := ReachOne(cs, fields, b); } else { T := ReachEvery(cs, fields, b); }
      GroupIs(cs, false, fields, Among(T));
    case Not(c) => T := Reach(c, fields, !b);
    case Pred(_, _, _) => T := if b then {e} else {};
  }

  lemma {:induction false} ReachEvery(cs: seq<Filter>, fields: Schema, b: bool) returns (T: set<Filter>)
    requires ReadOnceAll(cs) && AllReach(cs, fields, b)
    ensures T <= LeavesAll(cs) && Admissible(T, fields) && Every(cs, Among(T), b)
    decreases cs, 0
  {
    T := {};
    if cs != [] {
      hide Every, Holds, SqlEvery, SqlIs, Prune, Reaches;
      var S := Reach(cs[0], fields, b);
      T := ReachEvery(cs[1..], fields, b);
      Apart(cs, fields, S, T, b);
      T := S + T;
    }
  }

  lemma {:induction false} ReachOne(cs: seq<Filter>, fields: Schema, b: bool) returns (T: set<Filter>)
    requires ReadOnceAll(cs) && AnyReach(cs, fields, b)
    ensures T <= LeavesAll(cs) && Admissible(T, fields) && !Every(cs, Among(T), !b)
    decreases cs, 0
  {
    hide Every, Holds, SqlEvery, SqlIs, Prune, Reaches;
    if Reaches(cs[0], fields, b) {
      T := Reach(cs[0], fields, b);
    } else {
      T := ReachOne(cs[1..], fields, b);
    }
    EveryStep(cs, fields, Among(T), !b);
  }

  /** The compiled filter can take both values. */
  lemma {:induction false} SqlReach(e: Filter, fields: Schema, b: bool) returns (T: set<Filter>)
    requires ReadOnce(e) && Kept(e, fields)
    ensures T <= Leaves(e) && Admissible(T, fields) && SqlIs(e, fields, Among(T), b)
    decreases e, 1
  {
    match e
    case And(cs) =>
      if b { T := SqlReachEvery(cs, fields, b); } else { T := SqlReachOne(cs, fields, b); }
      GroupIs(cs, true, fields, Among(T));
    case Or(cs) =>
      if b { T := SqlReachOne(cs, fields, b); } else { T := SqlReachEvery(cs, fields, b); }
      GroupIs(cs, false, fields, Among(T));
    case Not(c) => T := SqlReach(c, fields, !b);
    case Pred(_, _, _) => T := if b then {e} else {};
  }

  lemma {:induction false} SqlReachEvery(cs: seq<Filter>, fields: Schema, b: bool) returns (T: set<Filter>)
    requires ReadOnceAll(cs)
    ensures T <= LeavesAll(cs) && Admissible(T, fields) && SqlEvery(cs, fields, Among(T), b)
    decreases cs, 0
  {
    T := {};
    if cs != [] {
      hide Every, Holds, SqlEvery, LeafApplicable, Applicable;
      var S: set<Filter> := {};
      if Kept(cs[0], fields) { S := SqlReach(cs[0], fields, b); }
      T := SqlReachEvery(cs[1..], fields, b);
      Apart(cs, fields, S, T, b);
      T := S + T;
    }
  }

  lemma {:induction false} SqlReachOne(cs: seq<Filter>, fields: Schema, b: bool) returns (T: set<Filter>)
    requires ReadOnceAll(cs) && PruneAll(cs, fields) != []
    ensures T <= LeavesAll(cs) && Admissible(T, fields) && !SqlEvery(cs, fields, Among(T), !b)
    decreases cs, 0
  {
    hide Every, Holds, SqlEvery, LeafApplicable, Applicable;
    if Kept(cs[0], fields) {
      T := SqlReach(cs[0], fields, b);
    } else {
      T := SqlReachOne(cs[1..], fields, b);
    }
    EveryStep(cs, fields, Among(T), !b);
  }

  /** Where a dropped part does not follow, some choice of leaves makes the tail say b
      and the compiled filter the opposite. */
  lemma {:induction false} Drift(e: Filter, fields: Schema, b: bool) returns (T: set<Filter>)
    requires ReadOnce(e) && Kept(e, fields) && !Follows(e, fields, b)
    ensures T <= Leaves(e) && Admissible(T, fields) && TailSays(e, T) == b && SqlIs(e, fields, Among(T), !b)
    decreases e, 1
  {
    hide LeafApplicable, Applicable;
    match e
    case And(cs) =>
      if b { T := DriftNeutral(cs, fields, b); } else { T := DriftAbsorbing(cs, fields, b); }
      GroupIs(cs, true, fields, Among(T));
    case Or(cs) =>
      if b { T := DriftAbsorbing(cs, fields, b); } else { T := DriftNeutral(cs, fields, b); }
      GroupIs(cs, false, fields, Among(T));
    case Not(c) => T := Drift(c, fields, !b);
  }

  lemma {:induction false} DriftNeutral(cs: seq<Filter>, fields: Schema, b: bool) returns (T: set<Filter>)
    requires ReadOnceAll(cs) && AllReach(cs, fields, b) && !AllFollow(cs, fields, b)
    ensures T <= LeavesAll(cs) && Admissible(T, fields) && Every(cs, Among(T), b) && !SqlEvery(cs, fields, Among(T), b)
    decreases cs, 0
  {
    hide Every, Holds, SqlEvery, Prune, Reaches, Follows;
    var S: set<Filter>;
    if Kept(cs[0], fields) && !Follows(cs[0], fields, b) {
      S := Drift(cs[0], fields, b);
      T := ReachEvery(cs[1..], fields, b);
    } else {
      S := Reach(cs[0], fields, b);
      T := DriftNeutral(cs[1..], fields, b);
    }
    Apart(cs, fields, S, T, b);
    T := S + T;
  }

  lemma {:induction false} DriftAbsorbing(cs: seq<Filter>, fields: Schema, b: bool) returns (T: set<Filter>)
    requires ReadOnceAll(cs) && (!AllFollow(cs, fields, b) || !DroppedStand(cs, fields, b))
    ensures T <= LeavesAll(cs) && Admissible(T, fields) && !Every(cs, Among(T), !b) &&
            SqlEvery(cs, fields, Among(T), !b)
    decreases cs, 0
  {
    hide Every, Holds, SqlEvery, Prune, Reaches, Follows;
    var S: set<Filter> := {};
    if Kept(cs[0], fields) && !Follows(cs[0], fields, b) {
      S := Drift(cs[0], fields, b);
      T := SqlReachEvery(cs[1..], fields, !b);
    } else if !Kept(cs[0], fields) && Reaches(cs[0], fields, b) {
      S := Reach(cs[0], fields, b);
      T := SqlReachEvery(cs[1..], fields, !b);
    } else {
      if Kept(cs[0], fields) { S := SqlReach(cs[0], fields, !b); }
      T := DriftAbsorbing(cs[1..], fields, b);
    }
    Apart(cs, fields, S, T, !b);
    T := S + T;
  }

  /** Whatever the leaves may be, what the tail accepts the query finds exactly if dropped
      parts follow truth, and what the query finds the tail accepts exactly if they
      follow falsehood. */
  lemma DroppingIsHarmlessIff(e: Filter, fields: Schema)
    requires ReadOnce(e) && Kept(e, fields)
    ensures (forall T: set<Filter> :: Admissible(T, fields) && TailSays(e, T) ==> SqlSays(e, fields, T)) <==>
              Follows(e, fields, true)
    ensures (forall T: set<Filter> :: Admissible(T, fields) && SqlSays(e, fields, T) ==> TailSays(e, T)) <==>
              Follows(e, fields, false)
  {
    hide Prune, Follows, Holds, Leaves, ReadOnce;
    forall b | !Follows(e, fields, b)
      ensures exists T: set<Filter> :: Admissible(T, fields) && TailSays(e, T) == b && SqlIs(e, fields, Among(T), !b)
    {
      var T := Drift(e, fields, b);
    }
    forall T: set<Filter>, b | Admissible(T, fields) && Follows(e, fields, b) && TailSays(e, T) == b
      ensures SqlIs(e, fields, Among(T), b)
    {
      FollowsIsEnough(e, fields, Among(T), b);
    }
  }

  // ---------- without NOT ----------

  /** Every AND has a child, and no field is known to the source while its comparison is not
      compiled, as orderings of text are. */
  predicate Plain(e: Filter, fields: Schema)
    decreases e, 1
  {
    match e
    case And(cs) => cs != [] && AllPlain(cs, fields)
    case Or(cs) => AllPlain(cs, fields)
    case Not(c) => Plain(c, fields)
    case Pred(field, op, _) => field in fields ==> field == "" || LeafApplicable(field, op, fields)
  }

  predicate AllPlain(cs: seq<Filter>, fields: Schema)
    decreases cs, 0
  {
    cs == [] || (Plain(cs[0], fields) && AllPlain(cs[1..], fields))
  }

  /** Without NOT, lost orderings and empty ANDs, dropping only widens: what the tail accepts
      the query's filter accepts, and a part that is dropped never held. */
  lemma {:induction false} NotFreeOnlyWidens(e: Filter, fields: Schema)
    requires NotFree(e) && Plain(e, fields)
    ensures Kept(e, fields) ==> Follows(e, fields, true)
    ensures !Kept(e, fields) ==> !Reaches(e, fields, true)
    decreases e, 1
  {
    hide LeafApplicable, Applicable;
    match e
    case And(cs) => NotFreeOnlyWiden(cs, fields);
    case Or(cs) => NotFreeOnlyWiden(cs, fields);
    case Pred(_, _, _) =>
  }

  lemma {:induction false} NotFreeOnlyWiden(cs: seq<Filter>, fields: Schema)
    requires AllNotFree(cs) && AllPlain(cs, fields)
    ensures AllFollow(cs, fields, true) && DroppedStand(cs, fields, true)
    ensures PruneAll(cs, fields) == [] ==> !AnyReach(cs, fields, true) && (cs != [] ==> !AllReach(cs, fields, true))
    decreases cs, 0
  {
    hide LeafApplicable, Applicable;
    if cs != [] {
      NotFreeOnlyWidens(cs[0], fields);
      NotFreeOnlyWiden(cs[1..], fields);
    }
  }

  // ---------- an ordering comparison on a text column ----------

  /** The tail compares users as numbers, the compiler drops the comparison: an event of user 7,
      which the tail sends, is not accepted by what is left of the filter. */
  lemma OrderingOnTextIsLost(ev: Event, rx: Matcher)
    requires ev.user == "7"
    ensures var lost, kept := Pred("user", Gt, "5"), Pred("user", Ne, "7");
            var e := Or([lost, kept]);
            EvalFilter(Some(e), ev, Audit, rx) && Prune(e, AUDIT_FIELDS) == Some(Or([kept])) &&
            !EvalNode(Or([kept]), ev, Audit, AUDIT_FIELDS, rx) && !Follows(e, AUDIT_FIELDS, true)
  {
    var lost, kept := Pred("user", Gt, "5"), Pred("user", Ne, "7");
    UserIsSeven(ev, rx);
    hide EvalPred;
    assert [lost, kept][1..] == [kept] && [kept][1..] == [];
    OrOfTwo(lost, kept, ev, rx);
    assert !LeafApplicable("user", Gt, AUDIT_FIELDS) && LeafApplicable("user", Ne, AUDIT_FIELDS);
    assert Prune(lost, AUDIT_FIELDS) == None && Prune(kept, AUDIT_FIELDS) == Some(kept);
    assert PruneAll([kept], AUDIT_FIELDS) == [kept];
    assert PruneAll([lost, kept], AUDIT_FIELDS) == [kept];
    assert Reaches(lost, AUDIT_FIELDS, true) && !DroppedStand([lost, kept], AUDIT_FIELDS, true);
  }

  lemma OrOfTwo(a: Filter, b: Filter, ev: Event, rx: Matcher)
    requires b.Pred? && LeafApplicable(b.field, b.op, AUDIT_FIELDS)
    ensures EvalFilter(Some(Or([a, b])), ev, Audit, rx) <==>
            (EvalNode(a, ev, Audit, AUDIT_FIELDS, rx) || EvalNode(b, ev, Audit, AUDIT_FIELDS, rx))
    ensures EvalNode(Or([b]), ev, Audit, AUDIT_FIELDS, rx) <==> EvalNode(b, ev, Audit, AUDIT_FIELDS, rx)
  {
    hide EvalPred, LeafApplicable;
    assert [a, b][1..] == [b] && [b][1..] == [];
    assert !EvalAny([], ev, Audit, AUDIT_FIELDS, rx);
    assert EvalAny([b], ev, Audit, AUDIT_FIELDS, rx) == EvalNode(b, ev, Audit, AUDIT_FIELDS, rx);
    assert EvalAny([a, b], ev, Audit, AUDIT_FIELDS, rx) ==
             (EvalNode(a, ev, Audit, AUDIT_FIELDS, rx) || EvalAny([b], ev, Audit, AUDIT_FIELDS, rx));
    assert EvalNode(Or([a, b]), ev, Audit, AUDIT_FIELDS, rx) == EvalAny([a, b], ev, Audit, AUDIT_FIELDS, rx);
    assert Applicable(b, AUDIT_FIELDS);
    assert AnyApplicable([b], AUDIT_FIELDS);
    assert AnyApplicable([a, b], AUDIT_FIELDS);
  }

  lemma UserIsSeven(ev: Event, rx: Matcher)
    requires ev.user == "7"
    ensures EvalPred("user", Gt, "5", ev, Audit, AUDIT_FIELDS, rx)
    ensures !EvalPred("user", Ne, "7", ev, Audit, AUDIT_FIELDS, rx)
  {
    TrimmedStays("user");
    TrimmedStays("7");
    TrimmedStays("5");
    assert ToLower("user") == "user";
    assert EventFieldValue(ev, "user", Audit) == Some("7");
    assert Digits("7") == Some(7) && Digits("5") == Some(5);
    assert Atoi("7") == Some(7) && Atoi("5") == Some(5);
  }
}
