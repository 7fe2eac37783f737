/** From filters to text and back: a filter that is written with parentheses and quotes
    is parsed to itself, up to the merging of disjunctions (splunklite/search.go). */
module RoundTrip {
  import opened Text
  import opened Filters
  import opened Agreement
  import opened Search
  import opened Tokens

  // ---------- quoting ----------

  function EscapeQuoted(v: string): string {
    if v == "" then ""
    else (if v[0] == '\\' then "\\\\" else if v[0] == '"' then "\\\"" else [v[0]]) + EscapeQuoted(v[1..])
  }

  /** With only the backslashes doubled. */
  function Doubled(v: string): string {
    if v == "" then "" else (if v[0] == '\\' then "\\\\" else [v[0]]) + Doubled(v[1..])
  }

  lemma KeepsFirst(s: string, needle: string, sub: string)
    requires s != "" && needle != "" && !HasPrefix(s, needle)
    ensures ReplaceAll(s, needle, sub) == [s[0]] + ReplaceAll(s[1..], needle, sub)
  {
  }

  lemma EscapeStep(v: string)
    requires v != ""
    ensures EscapeQuoted(v) == (if v[0] == '\\' || v[0] == '"' then ['\\', v[0]] else [v[0]]) + EscapeQuoted(v[1..])
    ensures Doubled(v) == (if v[0] == '\\' then ['\\', '\\'] else [v[0]]) + Doubled(v[1..])
  {
  }

  lemma EscapeStartsNoQuote(v: string)
    ensures EscapeQuoted(v) == "" || EscapeQuoted(v)[0] != '"'
  {
  }

  lemma {:induction false} FirstPass(v: string)
    ensures ReplaceAll(EscapeQuoted(v), "\\\"", "\"") == Doubled(v)
    decreases |v|
  {
    if v != "" {
      hide ReplaceAll, HasPrefix, EscapeQuoted, Doubled;
      FirstPass(v[1..]);
      EscapeStep(v);
      EscapeStartsNoQuote(v[1..]);
      var rest := EscapeQuoted(v[1..]);
      if v[0] == '\\' {
        assert EscapeQuoted(v) == ['\\'] + (['\\'] + rest);
        KeepsOne('\\', ['\\'] + rest);
        KeepsOne('\\', rest);
      } else if v[0] == '"' {
        assert EscapeQuoted(v) == "\\\"" + rest;
        ReplacesTwo("\\\"", rest, "\"");
      } else {
        KeepsOne(v[0], rest);
      }
    }
  }

  /** A character that begins no escaped quote. */
  lemma KeepsOne(c: char, rest: string)
    requires c != '\\' || rest == "" || rest[0] != '"'
    ensures ReplaceAll([c] + rest, "\\\"", "\"") == [c] + ReplaceAll(rest, "\\\"", "\"")
  {
    hide ReplaceAll;
    var s := [c] + rest;
    assert s[1..] == rest;
    NoPrefix(s, "\\\"");
    KeepsFirst(s, "\\\"", "\"");
  }

  lemma ReplacesTwo(needle: string, rest: string, sub: string)
    requires |needle| == 2
    ensures ReplaceAll(needle + rest, needle, sub) == sub + ReplaceAll(rest, needle, sub)
  {
    hide ReplaceAll;
    assert (needle + rest)[..2] == needle && (needle + rest)[2..] == rest;
    ReplacesPrefix(needle + rest, needle, sub);
  }

  lemma NoPrefix(s: string, needle: string)
    requires |needle| == 2 && (|s| < 2 || s[0] != needle[0] || s[1] != needle[1])
    ensures !HasPrefix(s, needle)
  {
    if |s| >= 2 { assert s[..2][0] == s[0] && s[..2][1] == s[1]; }
  }

  lemma ReplacesPrefix(s: string, needle: string, sub: string)
    requires needle != "" && HasPrefix(s, needle)
    ensures ReplaceAll(s, needle, sub) == sub + ReplaceAll(s[|needle|..], needle, sub)
  {
  }

  lemma {:induction false} SecondPass(v: string)
    ensures ReplaceAll(Doubled(v), "\\\\", "\\") == v
  {
    if v != "" {
      hide ReplaceAll;
      SecondPass(v[1..]);
      var rest, all := Doubled(v[1..]), Doubled(v);
      if v[0] == '\\' {
        assert all[..2] == "\\\\" && all[2..] == rest;
        ReplacesPrefix(all, "\\\\", "\\");
      } else {
        assert all[1..] == rest;
        NoPrefix(all, "\\\\");
        KeepsFirst(all, "\\\\", "\\");
      }
    } else {
      assert ReplaceAll("", "\\\\", "\\") == "";
    }
  }

  /** The two replacements undo the escaping. */
  lemma UnescapeEscaped(v: string)
    ensures UnescapeQuoted(EscapeQuoted(v)) == v
  {
    FirstPass(v);
    SecondPass(v);
  }

  // ---------- filters that can be written ----------

  /** In a regular expression every slash has a backslash in front, and no backslash is last. */
  predicate RegexBody(p: string, escaped: bool) {
    if p == "" then !escaped
    else if escaped then RegexBody(p[1..], false)
    else if p[0] == '\\' then RegexBody(p[1..], true)
    else p[0] != '/' && RegexBody(p[1..], false)
  }

  /** What stands between a field and its value. */
  function Sign(op: Op): string {
    match op
    case Gte => ">="
    case Lte => "<="
    case Ne => "!="
    case Gt => ">"
    case Lt => "<"
    case _ => "="
  }

  /** Phrases, regular expressions, and fields in small letters with either. An equality
      has no star in its value, a pattern has one. */
  predicate WritableLeaf(field: string, op: Op, value: string, valid: RegexCheck) {
    (field != "" ==> IsFieldName(field) && ToLower(field) == field) &&
    match op
    case Regexp => RegexBody(value, false) && RegexValid(value, valid)
    case Contains => field == ""
    case Eq => field != "" && !HasSub(value, "*")
    case Like => field != "" && HasSub(value, "*")
    case _ => field != ""
  }

  predicate Writable(f: Filter, valid: RegexCheck)
    decreases f, 1
  {
    match f
    case And(cs) => cs != [] && AllWritable(cs, valid)
    case Or(cs) => cs != [] && AllWritable(cs, valid)
    case Not(c) => Writable(c, valid)
    case Pred(field, op, value) => WritableLeaf(field, op, value, valid)
  }

  predicate AllWritable(cs: seq<Filter>, valid: RegexCheck)
    decreases cs, 0
  {
    cs == [] || (Writable(cs[0], valid) && AllWritable(cs[1..], valid))
  }

  // ---------- the text, in front of what follows ----------

  function ValueText(op: Op, value: string, k: string): string {
    if op == Regexp then "/" + value + "/" + k else "\"" + EscapeQuoted(value) + "\"" + k
  }

  function Render(f: Filter, k: string): string
    decreases f, 1
  {
    match f
    case And(cs) => "(" + RenderAll(cs, " AND ", ")" + k)
    case Or(cs) => "(" + RenderAll(cs, " OR ", ")" + k)
    case Not(c) => "NOT " + Render(c, k)
    case Pred(field, op, value) =>
      if field == "" then ValueText(op, value, k) else field + Sign(op) + ValueText(op, value, k)
  }

  function RenderAll(cs: seq<Filter>, sep: string, k: string): string
    decreases cs, 0
  {
    if cs == [] then k
    else Render(cs[0], if |cs| == 1 then k else sep + RenderAll(cs[1..], sep, k))
  }

  // ---------- the tokens ----------

  function ValueToken(op: Op, value: string): Token {
    if op == Regexp then Token(Regex, value) else Token(Quoted, value)
  }

  function TokensOf(f: Filter, k: Toks): Toks
    decreases f, 1
  {
    match f
    case And(cs) => Cons(Token(LParen, "("), TokensAll(cs, Token(AndTok, "AND"), Cons(Token(RParen, ")"), k)))
    case Or(cs) => Cons(Token(LParen, "("), TokensAll(cs, Token(OrTok, "OR"), Cons(Token(RParen, ")"), k)))
    case Not(c) => Cons(Token(NotTok, "NOT"), TokensOf(c, k))
    case Pred(field, op, value) =>
      if field == "" then Cons(ValueToken(op, value), k)
      else Cons(Token(Word, field + Sign(op)), Cons(ValueToken(op, value), k))
  }

  function TokensAll(cs: seq<Filter>, sep: Token, k: Toks): Toks
    decreases cs, 0
  {
    if cs == [] then k
    else TokensOf(cs[0], if |cs| == 1 then k else Cons(sep, TokensAll(cs[1..], sep, k)))
  }

  // ---------- what the parser makes of a tree ----------

  function FoldOr(left: Filter, ks: seq<Filter>): Filter
    decreases |ks|
  {
    if ks == [] then left else FoldOr(JoinOr(left, ks[0]), ks[1..])
  }

  /** Groups of one are no groups, and a disjunction swallows the one it begins with. */
  function Flatten(f: Filter): Filter
    decreases f, 1
  {
    match f
    case And(cs) => var ks := FlattenAll(cs); if |ks| == 1 then ks[0] else And(ks)
    case Or(cs) => var ks := FlattenAll(cs); if ks == [] then f else FoldOr(ks[0], ks[1..])
    case Not(c) => Not(Flatten(c))
    case Pred(_, _, _) => f
  }

  function FlattenAll(cs: seq<Filter>): seq<Filter>
    decreases cs, 0
  {
    if cs == [] then [] else [Flatten(cs[0])] + FlattenAll(cs[1..])
  }

  predicate Canonical(f: Filter)
    decreases f, 1
  {
    match f
    case And(cs) => |cs| >= 2 && AllCanonical(cs)
    case Or(cs) => |cs| >= 2 && !cs[0].Or? && AllCanonical(cs)
    case Not(c) => Canonical(c)
    case Pred(_, _, _) => true
  }

  predicate AllCanonical(cs: seq<Filter>)
    decreases cs, 0
  {
    cs == [] || (Canonical(cs[0]) && AllCanonical(cs[1..]))
  }

  lemma {:induction false} FoldOrIs(left: Filter, ks: seq<Filter>)
    ensures ks != [] ==> FoldOr(left, ks) == Or((if left.Or? then left.children else [left]) + ks)
    decreases |ks|
  {
    if ks != [] {
      var joined := JoinOr(left, ks[0]);
      FoldOrIs(joined, ks[1..]);
      assert joined.children == (if left.Or? then left.children else [left]) + [ks[0]];
      assert joined.children + ks[1..] == (if left.Or? then left.children else [left]) + ks;
      if ks[1..] == [] { assert ks == [ks[0]]; }
    }
  }

  lemma {:induction false} WritableIsFilled(f: Filter, valid: RegexCheck)
    requires Writable(f, valid)
    ensures Filled(f)
    decreases f, 1
  {
    hide WritableLeaf;
    match f
    case And(cs) => AllWritableAreFilled(cs, valid);
    case Or(cs) => AllWritableAreFilled(cs, valid);
    case Not(c) => WritableIsFilled(c, valid);
    case Pred(_, _, _) =>
  }

  lemma {:induction false} AllWritableAreFilled(cs: seq<Filter>, valid: RegexCheck)
    requires AllWritable(cs, valid)
    ensures AllFilled(cs)
    decreases cs, 0
  {
    if cs != [] {
      WritableIsFilled(cs[0], valid);
      AllWritableAreFilled(cs[1..], valid);
    }
  }

  function Weight(f: Filter): nat
    decreases f, 1
  {
    match f
    case And(cs) => 1 + WeightAll(cs)
    case Or(cs) => 1 + WeightAll(cs)
    case Not(c) => 1 + Weight(c)
    case Pred(_, _, _) => 1
  }

  function WeightAll(cs: seq<Filter>): nat
    decreases cs, 0
  {
    if cs == [] then 0 else Weight(cs[0]) + WeightAll(cs[1..])
  }

  lemma {:induction false} WeightOfBoth(a: seq<Filter>, b: seq<Filter>)
    ensures WeightAll(a + b) == WeightAll(a) + WeightAll(b)
    decreases |a|
  {
    if a == [] {
      assert a + b == b;
    } else {
      assert (a + b)[1..] == a[1..] + b;
      WeightOfBoth(a[1..], b);
    }
  }

  lemma {:induction false} LengthOfFlat(cs: seq<Filter>)
    ensures |FlattenAll(cs)| == |cs|
    ensures forall i :: 0 <= i < |cs| ==> FlattenAll(cs)[i] == Flatten(cs[i])
    decreases |cs|
  {
    hide Flatten;
    if cs != [] { LengthOfFlat(cs[1..]); }
  }

  lemma {:induction false} FlattenIsLighter(f: Filter)
    ensures Weight(Flatten(f)) <= Weight(f)
    decreases f, 1
  {
    match f
    case And(cs) =>
      FlattenAreLighter(cs);
      LengthOfFlat(cs);
      var ks := FlattenAll(cs);
      if |ks| == 1 { OneWeight(ks); }
    case Or(cs) =>
      FlattenAreLighter(cs);
      LengthOfFlat(cs);
      var ks := FlattenAll(cs);
      if ks != [] { FoldIsLight(ks); }
    case Not(c) => FlattenIsLighter(c);
    case Pred(_, _, _) =>
  }

  lemma OneWeight(ks: seq<Filter>)
    requires ks != []
    ensures WeightAll(ks) == Weight(ks[0]) + WeightAll(ks[1..])
  {
    hide Weight;
  }

  lemma FoldIsLight(ks: seq<Filter>)
    requires ks != []
    ensures Weight(FoldOr(ks[0], ks[1..])) <= 1 + WeightAll(ks)
  {
    OneWeight(ks);
    FoldOrIs(ks[0], ks[1..]);
    if |ks| > 1 {
      var own := if ks[0].Or? then ks[0].children else [ks[0]];
      WeightOfBoth(own, ks[1..]);
      if !ks[0].Or? { assert own[1..] == [] && own[0] == ks[0]; OneWeight(own); }
    }
  }

  lemma {:induction false} FlattenAreLighter(cs: seq<Filter>)
    ensures WeightAll(FlattenAll(cs)) <= WeightAll(cs)
    decreases cs, 0
  {
    if cs != [] {
      FlattenIsLighter(cs[0]);
      FlattenAreLighter(cs[1..]);
      var ks := FlattenAll(cs);
      assert ks[0] == Flatten(cs[0]) && ks[1..] == FlattenAll(cs[1..]);
    }
  }

  /** The trees that stay as they are. */
  lemma {:induction false} FlattenFixedIff(f: Filter)
    requires Filled(f)
    ensures Flatten(f) == f <==> Canonical(f)
    decreases f, 1
  {
    match f
    case And(cs) =>
      AllFixedIff(cs);
      LengthOfFlat(cs);
      if |cs| == 1 {
        FlattenIsLighter(cs[0]);
        OneWeight(cs);
      }
    case Or(cs) =>
      AllFixedIff(cs);
      OrFixedIff(cs);
    case Not(c) => FlattenFixedIff(c);
    case Pred(_, _, _) =>
  }

  lemma OrFixedIff(cs: seq<Filter>)
    requires cs != []
    ensures Flatten(Or(cs)) == Or(cs) <==> |cs| >= 2 && !cs[0].Or? && FlattenAll(cs) == cs
  {
    hide Weight, Flatten, FlattenAll, FoldOr;
    LengthOfFlat(cs);
    var ks := FlattenAll(cs);
    FlattenOr(cs);
    FoldOrIs(ks[0], ks[1..]);
    FlattenIsLighter(cs[0]);
    OneWeight(cs);
    if |cs| == 1 {
      OneFold(ks[0]);
      assert ks[1..] == [];
      GroupWeight(cs);
    } else if ks[0].Or? {
      var own := ks[0].children;
      if own + ks[1..] == cs {
        assert |own| == 1;
        assert own[0] == cs[0];
        GroupWeight(own);
        OneWeight(own);
        assert false;
      }
    } else {
      assert [ks[0]] + ks[1..] == ks;
    }
  }

  lemma FlattenOr(cs: seq<Filter>)
    requires cs != []
    ensures FlattenAll(cs) != [] && Flatten(Or(cs)) == FoldOr(FlattenAll(cs)[0], FlattenAll(cs)[1..])
  {
    LengthOfFlat(cs);
  }

  lemma OneFold(left: Filter)
    ensures FoldOr(left, []) == left
  {
  }

  lemma GroupWeight(cs: seq<Filter>)
    ensures Weight(Or(cs)) == 1 + WeightAll(cs)
  {
    hide WeightAll;
  }

  lemma {:induction false} AllFixedIff(cs: seq<Filter>)
    requires AllFilled(cs)
    ensures FlattenAll(cs) == cs <==> AllCanonical(cs)
    decreases cs, 0
  {
    if cs != [] {
      FlattenFixedIff(cs[0]);
      AllFixedIff(cs[1..]);
      var ks := FlattenAll(cs);
      assert ks[0] == Flatten(cs[0]) && ks[1..] == FlattenAll(cs[1..]);
      assert cs == [cs[0]] + cs[1..];
    }
  }

  // ---------- meaning ----------

  lemma {:induction false} HoldsAnyBoth(a: seq<Filter>, b: seq<Filter>, v: Valuation)
    ensures HoldsAny(a + b, v) <==> HoldsAny(a, v) || HoldsAny(b, v)
    decreases |a|
  {
    if a == [] {
      assert a + b == b;
    } else {
      assert (a + b)[1..] == a[1..] + b;
      HoldsAnyBoth(a[1..], b, v);
    }
  }

  /** Merging keeps the meaning of every filter. */
  lemma {:induction false} FlattenKeepsMeaning(f: Filter, v: Valuation)
    ensures Holds(Flatten(f), v) == Holds(f, v)
    decreases f, 1
  {
    match f
    case And(cs) =>
      FlattenKeepMeaning(cs, v);
      LengthOfFlat(cs);
      if |cs| == 1 { OneHolds(FlattenAll(cs), v); }
    case Or(cs) =>
      FlattenKeepMeaning(cs, v);
      LengthOfFlat(cs);
      if cs != [] { FoldHolds(FlattenAll(cs), v); }
    case Not(c) => FlattenKeepsMeaning(c, v);
    case Pred(_, _, _) =>
  }

  lemma OneHolds(ks: seq<Filter>, v: Valuation)
    requires ks != []
    ensures HoldsAll(ks, v) == (Holds(ks[0], v) && HoldsAll(ks[1..], v))
    ensures HoldsAny(ks, v) == (Holds(ks[0], v) || HoldsAny(ks[1..], v))
  {
  }

  lemma FoldHolds(ks: seq<Filter>, v: Valuation)
    requires ks != []
    ensures Holds(FoldOr(ks[0], ks[1..]), v) == HoldsAny(ks, v)
  {
    OneHolds(ks, v);
    FoldOrIs(ks[0], ks[1..]);
    if |ks| > 1 {
      var own := if ks[0].Or? then ks[0].children else [ks[0]];
      HoldsAnyBoth(own, ks[1..], v);
      if !ks[0].Or? { assert own[1..] == []; OneHolds(own, v); }
    }
  }

  lemma {:induction false} FlattenKeepMeaning(cs: seq<Filter>, v: Valuation)
    ensures HoldsAll(FlattenAll(cs), v) == HoldsAll(cs, v)
    ensures HoldsAny(FlattenAll(cs), v) == HoldsAny(cs, v)
    decreases cs, 0
  {
    if cs != [] {
      FlattenKeepsMeaning(cs[0], v);
      FlattenKeepMeaning(cs[1..], v);
      var ks := FlattenAll(cs);
      assert ks[0] == Flatten(cs[0]) && ks[1..] == FlattenAll(cs[1..]);
    }
  }

  // ---------- fields and operators in a word ----------

  predicate SignChar(c: char) {
    c == '=' || c == '<' || c == '>' || c == '!' || c == ':'
  }

  lemma {:induction false} IndexBehind(field: string, sign: string, sub: string)
    requires sub != "" && SignChar(sub[0]) && forall c <- field :: !SignChar(c)
    ensures Index(field + sign, sub) ==
            match Index(sign, sub) case None => None case Some(i) => Some(|field| + i)
    decreases |field|
  {
    if field == "" {
      assert field + sign == sign;
    } else {
      var word := field + sign;
      assert word[1..] == field[1..] + sign;
      assert word[0] == field[0] && field[0] in field;
      assert !HasPrefix(word, sub);
      assert forall c <- field[1..] :: c in field;
      IndexBehind(field[1..], sign, sub);
    }
  }

  /** The place of a sign among the operators. */
  function Place(op: Op): nat {
    match op case Gte => 0 case Lte => 1 case Ne => 2 case Gt => 3 case Lt => 4 case _ => 5
  }

  /** No operator that is tried before it is in a sign. */
  lemma SignIndexes(op: Op, i: nat)
    requires i <= Place(op)
    ensures OPERATORS[Place(op)].0 == Sign(op)
    ensures Index(Sign(op), OPERATORS[i].0) == if i == Place(op) then Some(0) else None
  {
    hide Index;
    var s, sub := Sign(op), OPERATORS[i].0;
    if |s| == 2 { IndexInTwo(s, sub); } else { IndexInOne(s, sub); }
  }

  lemma IndexInOne(s: string, sub: string)
    requires |s| == 1 && sub != ""
    ensures Index(s, sub) == if sub == s then Some(0) else None
  {
    assert s[1..] == "" && Index("", sub) == None;
    if HasPrefix(s, sub) { assert sub == s; }
    if sub == s { assert s[..1] == s; }
  }

  lemma IndexInTwo(s: string, sub: string)
    requires |s| == 2 && |sub| == 2
    ensures Index(s, sub) == if sub == s then Some(0) else None
  {
    IndexInOne(s[1..], sub);
    if sub == s { assert s[..2] == s; }
    if HasPrefix(s, sub) { assert s[..2] == s; }
  }

  lemma NameIsPlain(field: string)
    requires IsFieldName(field)
    ensures TrimSpace(field) == field
    ensures forall c <- field :: !SignChar(c) && !EndsWord(c)
  {
    TrimmedStays(field);
  }

  lemma NameHasLetters(field: string)
    requires IsFieldName(field)
    ensures field != ""
  {
  }

  /** A field with an operator is no predicate yet: the value is missing. */
  lemma NoValueYet(field: string, op: Op, valid: RegexCheck)
    requires IsFieldName(field) && ToLower(field) == field && op != Contains
    ensures FieldPredicate(field + Sign(op), 0, valid) == None
  {
    NameIsPlain(field);
    NameHasLetters(field);
    TrimmedStays("");
    hide TrimSpace, ToLower, IsFieldName, Index, FieldPredicate, Sign, EndsWord, SignChar, Place;
    var word, n := field + Sign(op), Place(op);
    forall i | 0 <= i < n ensures Index(word, OPERATORS[i].0) == None { OperatorAt(field, op, i); }
    SkipOperators(word, 0, n, valid);
    OperatorAt(field, op, n);
    SignIndexes(op, n);
    WordParts(field, Sign(op));
    NoValue(word, n, |field|, valid);
  }

  lemma WordParts(field: string, sign: string)
    ensures (field + sign)[..|field|] == field && (field + sign)[|field| + |sign|..] == ""
  {
  }

  lemma OperatorAt(field: string, op: Op, i: nat)
    requires i <= Place(op) && forall c <- field :: !SignChar(c)
    ensures Index(field + Sign(op), OPERATORS[i].0) == if i == Place(op) then Some(|field|) else None
  {
    hide Index, Sign;
    SignIndexes(op, i);
    IndexBehind(field, Sign(op), OPERATORS[i].0);
  }

  lemma NoValue(word: string, i: nat, at: nat, valid: RegexCheck)
    requires i < |OPERATORS| && Index(word, OPERATORS[i].0) == Some(at) && at > 0
    requires IsFieldName(ToLower(TrimSpace(word[..at]))) && TrimSpace(word[at + |OPERATORS[i].0|..]) == ""
    ensures FieldPredicate(word, i, valid) == None
  {
    hide TrimSpace, ToLower, IsFieldName, HasSub, Index;
  }

  lemma {:induction false} SkipOperators(word: string, i: nat, n: nat, valid: RegexCheck)
    requires i <= n <= |OPERATORS| && forall j :: i <= j < n ==> Index(word, OPERATORS[j].0) == None
    ensures FieldPredicate(word, i, valid) == FieldPredicate(word, n, valid)
    decreases n - i
  {
    hide TrimSpace, ToLower, IsFieldName, HasSub, Index;
    if i < n { SkipOperators(word, i + 1, n, valid); }
  }

  lemma NoOtherSuffix(field: string, op: Op, sub: string)
    requires field != "" && !SignChar(field[|field| - 1])
    requires sub != "" && |sub| <= 2 && (forall c <- sub :: SignChar(c)) && sub != Sign(op)
    requires |sub| == 2 || |Sign(op)| == 1
    ensures !HasSuffix(field + Sign(op), sub)
  {
    var word, sign := field + Sign(op), Sign(op);
    if |sub| == |sign| {
      assert word[|word| - |sub|..] == sign;
    } else {
      assert word[|word| - |sub|..][0] == field[|field| - 1];
      assert sub[0] in sub;
    }
  }

  lemma OperatorIsSuffix(field: string, op: Op)
    requires IsFieldName(field) && ToLower(field) == field && op != Contains
    ensures FieldSuffix(field + Sign(op), 0) == Some((field, if op == Regexp || op == Like then Eq else op))
  {
    NameIsPlain(field);
    NameHasLetters(field);
    var word, n := field + Sign(op), Place(op);
    assert field[|field| - 1] in field;
    hide TrimSpace, ToLower, IsFieldName, HasSuffix, EndsWord;
    forall j | 0 <= j < n ensures !HasSuffix(word, OPERATORS[j].0) {
      NoOtherSuffix(field, op, OPERATORS[j].0);
    }
    SkipSuffixes(word, 0, n);
    SuffixFound(word, field, op);
  }

  lemma SuffixFound(word: string, field: string, op: Op)
    requires IsFieldName(field) && ToLower(field) == field && TrimSpace(field) == field && op != Contains
    requires word == field + Sign(op)
    ensures FieldSuffix(word, Place(op)) == Some((field, if op == Regexp || op == Like then Eq else op))
  {
    hide TrimSpace, ToLower, IsFieldName;
    assert OPERATORS[Place(op)].0 == Sign(op);
    assert word[..|word| - |Sign(op)|] == field;
    assert word[|word| - |Sign(op)|..] == Sign(op);
  }

  lemma {:induction false} SkipSuffixes(word: string, i: nat, n: nat)
    requires i <= n <= |OPERATORS| && forall j :: i <= j < n ==> !HasSuffix(word, OPERATORS[j].0)
    ensures FieldSuffix(word, i) == FieldSuffix(word, n)
    decreases n - i
  {
    hide TrimSpace, ToLower, IsFieldName, HasSuffix;
    if i < n { SkipSuffixes(word, i + 1, n); }
  }

  // ---------- tokens parse ----------

  /** A written filter begins like an operand. */
  lemma StartsOperand(f: Filter, k: Toks)
    ensures TokensOf(f, k).Cons? && !Over(TokensOf(f, k)) && TokensOf(f, k).head.kind != AndTok
  {
  }

  lemma LeafParses(field: string, op: Op, value: string, k: Toks, valid: RegexCheck)
    requires WritableLeaf(field, op, value, valid)
    ensures ReadUnary(TokensOf(Pred(field, op, value), k), valid) == Parsed(Pred(field, op, value), k)
  {
    hide FieldPredicate, FieldSuffix, ToLower, HasSub, RegexBody, IsFieldName;
    if field != "" {
      NoValueYet(field, op, valid);
      OperatorIsSuffix(field, op);
    }
  }

  lemma PrimaryIsUnary(ts: Toks, valid: RegexCheck)
    requires !Heads(ts, NotTok)
    ensures ReadUnary(ts, valid) == ReadPrimary(Peeked(ts), valid)
  {
    hide ReadPrimary;
  }

  /** A parenthesised group, by what is within. */
  lemma GroupParses(ts: Toks, inner: Filter, k: Toks, valid: RegexCheck)
    requires ReadOr(ts, valid) == Parsed(inner, Cons(Token(RParen, ")"), k))
    ensures ReadUnary(Cons(Token(LParen, "("), ts), valid) == Parsed(inner, k)
  {
    hide ReadOr;
    PrimaryIsUnary(Cons(Token(LParen, "("), ts), valid);
  }

  lemma {:induction false} TokensParse(f: Filter, k: Toks, valid: RegexCheck)
    requires Writable(f, valid)
    ensures ReadUnary(TokensOf(f, k), valid) == Parsed(Flatten(f), k)
    decreases f, 1
  {
    hide ReadPrimary, ReadOr, WritableLeaf;
    var close := Cons(Token(RParen, ")"), k);
    match f
    case And(cs) =>
      AndsParse([], cs, k, valid);
      LengthOfFlat(cs);
      assert [] + FlattenAll(cs) == FlattenAll(cs);
      var all := TokensAll(cs, Token(AndTok, "AND"), close);
      AndIsOr(all, Flatten(f), close, valid);
      GroupParses(all, Flatten(f), k, valid);
    case Or(cs) =>
      LengthOfFlat(cs);
      var all := TokensAll(cs, Token(OrTok, "OR"), close);
      OrsParse(cs, k, valid);
      GroupParses(all, Flatten(f), k, valid);
    case Not(c) =>
      TokensParse(c, k, valid);
      NotParses(TokensOf(c, k), Flatten(c), k, valid);
    case Pred(field, op, value) => LeafParses(field, op, value, k, valid);
  }

  lemma NotParses(ts: Toks, child: Filter, k: Toks, valid: RegexCheck)
    requires ReadUnary(ts, valid) == Parsed(child, k)
    ensures ReadUnary(Cons(Token(NotTok, "NOT"), ts), valid) == Parsed(Not(child), k)
  {
    hide ReadPrimary;
  }

  lemma AndIsOr(ts: Toks, f: Filter, rest: Toks, valid: RegexCheck)
    requires ReadAndTail([], ts, valid) == Parsed(f, rest) && !Heads(rest, OrTok)
    ensures ReadOr(ts, valid) == Parsed(f, Peeked(rest))
  {
    hide ReadAndTail;
  }

  /** One more operand of a conjunction. */
  lemma AndStep(parts: seq<Filter>, ts: Toks, part: Filter, rest: Toks, valid: RegexCheck)
    requires !Over(ts) && ts.head.kind != AndTok && ReadUnary(ts, valid) == Parsed(part, rest)
    ensures ReadAndTail(parts, ts, valid) == ReadAndTail(parts + [part], rest, valid)
    ensures ReadAndTail(parts, Cons(Token(AndTok, "AND"), ts), valid) == ReadAndTail(parts + [part], rest, valid)
  {
    hide ReadUnary;
  }

  lemma AndEnds(parts: seq<Filter>, ts: Toks, valid: RegexCheck)
    requires Over(ts)
    ensures ReadAndTail(parts, ts, valid) == Conjunction(parts, Peeked(ts))
  {
    hide ReadUnary;
  }

  lemma {:induction false} AndsParse(parts: seq<Filter>, cs: seq<Filter>, k: Toks, valid: RegexCheck)
    requires cs != [] && AllWritable(cs, valid)
    ensures var close := Cons(Token(RParen, ")"), k); var sep := Token(AndTok, "AND");
            ReadAndTail(parts, TokensAll(cs, sep, close), valid) == Conjunction(parts + FlattenAll(cs), close) &&
            ReadAndTail(parts, Cons(sep, TokensAll(cs, sep, close)), valid) ==
              Conjunction(parts + FlattenAll(cs), close)
    decreases cs, 0
  {
    hide ReadUnary, ReadAndTail, Conjunction, Flatten, TokensOf;
    var close, sep := Cons(Token(RParen, ")"), k), Token(AndTok, "AND");
    var rest := if |cs| == 1 then close else Cons(sep, TokensAll(cs[1..], sep, close));
    var ts := TokensOf(cs[0], rest);
    TokensParse(cs[0], rest, valid);
    StartsOperand(cs[0], rest);
    AndStep(parts, ts, Flatten(cs[0]), rest, valid);
    var more := parts + [Flatten(cs[0])];
    assert FlattenAll(cs) == [Flatten(cs[0])] + FlattenAll(cs[1..]);
    assert more + FlattenAll(cs[1..]) == parts + FlattenAll(cs);
    if |cs| == 1 {
      assert FlattenAll(cs[1..]) == [];
      assert more + [] == more;
      AndEnds(more, close, valid);
    } else {
      AndsParse(more, cs[1..], k, valid);
    }
  }

  /** A single operand in front of OR or a parenthesis. */
  lemma OperandIsAnd(f: Filter, rest: Toks, valid: RegexCheck)
    requires ReadUnary(TokensOf(f, rest), valid) == Parsed(Flatten(f), rest) && Over(rest)
    ensures ReadAnd(TokensOf(f, rest), valid) == Parsed(Flatten(f), Peeked(rest))
  {
    hide ReadUnary, ReadAndTail, TokensOf, Flatten;
    StartsOperand(f, rest);
    AndStep([], TokensOf(f, rest), Flatten(f), rest, valid);
    AndEnds([Flatten(f)], rest, valid);
    assert [] + [Flatten(f)] == [Flatten(f)];
  }

  lemma OrEnds(left: Filter, ts: Toks, valid: RegexCheck)
    requires !Heads(ts, OrTok)
    ensures ReadOrTail(left, ts, valid) == Parsed(left, Peeked(ts))
  {
    hide ReadAnd;
  }

  lemma OrStep(left: Filter, ts: Toks, right: Filter, rest: Toks, valid: RegexCheck)
    requires ReadAnd(ts, valid) == Parsed(right, rest)
    ensures ReadOrTail(left, Cons(Token(OrTok, "OR"), ts), valid) == ReadOrTail(JoinOr(left, right), rest, valid)
    ensures ReadOr(ts, valid) == ReadOrTail(right, rest, valid)
  {
    hide ReadAnd;
  }

  lemma {:induction false} OrTailParses(left: Filter, cs: seq<Filter>, k: Toks, valid: RegexCheck)
    requires AllWritable(cs, valid)
    ensures var close := Cons(Token(RParen, ")"), k); var sep := Token(OrTok, "OR");
            ReadOrTail(left, if cs == [] then close else Cons(sep, TokensAll(cs, sep, close)), valid) ==
            Parsed(FoldOr(left, FlattenAll(cs)), close)
    decreases cs, 0
  {
    hide ReadUnary, ReadAnd, ReadOrTail, Flatten, TokensOf;
    var close, sep := Cons(Token(RParen, ")"), k), Token(OrTok, "OR");
    if cs == [] {
      OrEnds(left, close, valid);
    } else {
      var rest := if |cs| == 1 then close else Cons(sep, TokensAll(cs[1..], sep, close));
      TokensParse(cs[0], rest, valid);
      OperandIsAnd(cs[0], rest, valid);
      OrStep(left, TokensOf(cs[0], rest), Flatten(cs[0]), rest, valid);
      OrTailParses(JoinOr(left, Flatten(cs[0])), cs[1..], k, valid);
      assert FlattenAll(cs)[0] == Flatten(cs[0]) && FlattenAll(cs)[1..] == FlattenAll(cs[1..]);
    }
  }

  lemma {:induction false} OrsParse(cs: seq<Filter>, k: Toks, valid: RegexCheck)
    requires cs != [] && AllWritable(cs, valid)
    ensures var close := Cons(Token(RParen, ")"), k);
            ReadOr(TokensAll(cs, Token(OrTok, "OR"), close), valid) == Parsed(Flatten(Or(cs)), close)
    decreases cs, 0
  {
    hide ReadUnary, ReadAnd, ReadOr, ReadOrTail, Flatten, TokensOf;
    var close, sep := Cons(Token(RParen, ")"), k), Token(OrTok, "OR");
    var rest := if |cs| == 1 then close else Cons(sep, TokensAll(cs[1..], sep, close));
    TokensParse(cs[0], rest, valid);
    OperandIsAnd(cs[0], rest, valid);
    OrStep(Flatten(cs[0]), TokensOf(cs[0], rest), Flatten(cs[0]), rest, valid);
    OrTailParses(Flatten(cs[0]), cs[1..], k, valid);
    FlattenOr(cs);
    assert FlattenAll(cs)[0] == Flatten(cs[0]) && FlattenAll(cs)[1..] == FlattenAll(cs[1..]);
  }

  // ---------- text lexes ----------

  /** What stands at a position. */
  predicate At(s: string, pos: nat, text: string) {
    pos <= |s| && s[pos..] == text
  }

  lemma AtBehind(s: string, pos: nat, a: string, b: string)
    requires At(s, pos, a + b)
    ensures pos + |a| <= |s| && At(s, pos + |a|, b) && s[pos..pos + |a|] == a
    ensures a != "" ==> s[pos] == a[0]
  {
    assert s[pos..][|a|..] == b;
    assert s[pos..][..|a|] == a;
    if a != "" { assert s[pos] == s[pos..][0]; }
  }

  lemma TokenReads(s: string, pos: nat, t: Token, next: nat, ts: Toks, valid: RegexCheck)
    requires pos <= |s| && Next(s, pos, valid) == (t, next) && t != NO_TOKEN && Reads(s, next, valid, ts)
    ensures Reads(s, pos, valid, Cons(t, ts))
  {
    hide Next;
  }

  lemma BlankReads(s: string, pos: nat, ts: Toks, valid: RegexCheck)
    requires pos < |s| && s[pos] == ' ' && Reads(s, pos + 1, valid, ts)
    ensures Reads(s, pos, valid, ts)
  {
    hide CloseAt, WordEnd, UnescapeQuoted, RegexValid, WordToken;
    assert SkipSpace(s, pos) == SkipSpace(s, pos + 1);
    assert Next(s, pos, valid) == Next(s, pos + 1, valid);
  }

  lemma ParenReads(s: string, pos: nat, c: char, k: string, ts: Toks, valid: RegexCheck)
    requires At(s, pos, [c] + k) && (c == '(' || c == ')') && Reads(s, pos + 1, valid, ts)
    ensures Reads(s, pos, valid, Cons(Token(if c == '(' then LParen else RParen, [c]), ts))
  {
    AtBehind(s, pos, [c], k);
    assert SkipSpace(s, pos) == pos;
    TokenReads(s, pos, Token(if c == '(' then LParen else RParen, [c]), pos + 1, ts, valid);
  }

  lemma DelimitersAreNoBlanks()
    ensures !IsSpace('"') && !IsSpace('/') && !IsSpace('(') && !IsSpace(')')
  {
  }

  lemma {:induction false} QuoteCloses(s: string, pos: nat, v: string, k: string)
    requires At(s, pos, EscapeQuoted(v) + ("\"" + k))
    ensures CloseAt(s, pos, false, '"') == pos + |EscapeQuoted(v)|
    decreases |v|
  {
    if v == "" {
      assert EscapeQuoted(v) + ("\"" + k) == "\"" + k;
      AtBehind(s, pos, "\"", k);
    } else {
      var first := if v[0] == '\\' then "\\\\" else if v[0] == '"' then "\\\"" else [v[0]];
      assert EscapeQuoted(v) + ("\"" + k) == first + (EscapeQuoted(v[1..]) + ("\"" + k));
      AtBehind(s, pos, first, EscapeQuoted(v[1..]) + ("\"" + k));
      QuoteCloses(s, pos + |first|, v[1..], k);
      if |first| == 2 {
        assert s[pos] == s[pos..pos + 2][0];
        assert CloseAt(s, pos, false, '"') == CloseAt(s, pos + 1, true, '"');
        assert CloseAt(s, pos + 1, true, '"') == CloseAt(s, pos + 2, false, '"');
      }
    }
  }

  lemma NextIsQuoted(s: string, pos: nat, valid: RegexCheck)
    requires pos < |s| && s[pos] == '"' && CloseAt(s, pos + 1, false, '"') < |s|
    ensures var q := CloseAt(s, pos + 1, false, '"');
            Next(s, pos, valid) == (Token(Quoted, UnescapeQuoted(s[pos + 1..q])), q + 1)
  {
    hide CloseAt, UnescapeQuoted, RegexValid, WordEnd, WordToken, IsSpace;
    DelimitersAreNoBlanks();
    assert SkipSpace(s, pos) == pos;
  }

  lemma NextIsRegex(s: string, pos: nat, valid: RegexCheck)
    requires pos < |s| && s[pos] == '/' && CloseAt(s, pos + 1, false, '/') < |s|
    requires RegexValid(s[pos + 1..CloseAt(s, pos + 1, false, '/')], valid)
    ensures var q := CloseAt(s, pos + 1, false, '/'); Next(s, pos, valid) == (Token(Regex, s[pos + 1..q]), q + 1)
  {
    hide CloseAt, UnescapeQuoted, RegexValid, WordEnd, WordToken, IsSpace;
    DelimitersAreNoBlanks();
    assert SkipSpace(s, pos) == pos;
  }

  /** A text between delimiters, by where it stands. */
  lemma Delimited(s: string, pos: nat, d: char, e: string, k: string)
    requires At(s, pos, [d] + e + [d] + k)
    ensures At(s, pos + 1, e + ([d] + k)) && s[pos] == d
    ensures |k| <= |s| && pos + 1 + |e| < |s| && pos + 1 + |e| + 1 == |s| - |k| && s[pos + 1..pos + 1 + |e|] == e
  {
    assert [d] + e + [d] + k == [d] + (e + ([d] + k));
    AtBehind(s, pos, [d], e + ([d] + k));
    AtBehind(s, pos + 1, e, [d] + k);
    assert |s[pos..]| == |[d] + e + [d] + k|;
  }

  lemma QuotedReads(s: string, pos: nat, v: string, k: string, ts: Toks, valid: RegexCheck)
    requires At(s, pos, "\"" + EscapeQuoted(v) + "\"" + k) && |k| <= |s| && Reads(s, |s| - |k|, valid, ts)
    ensures Reads(s, pos, valid, Cons(Token(Quoted, v), ts))
  {
    hide CloseAt, UnescapeQuoted, EscapeQuoted, Reads, Next, At;
    Delimited(s, pos, '"', EscapeQuoted(v), k);
    QuoteCloses(s, pos + 1, v, k);
    UnescapeEscaped(v);
    NextIsQuoted(s, pos, valid);
    TokenReads(s, pos, Token(Quoted, v), |s| - |k|, ts, valid);
  }

  lemma {:induction false} RegexCloses(s: string, pos: nat, p: string, escaped: bool, k: string)
    requires At(s, pos, p + ("/" + k)) && RegexBody(p, escaped)
    ensures CloseAt(s, pos, escaped, '/') == pos + |p|
    decreases |p|
  {
    if p == "" {
      assert p + ("/" + k) == "/" + k;
      AtBehind(s, pos, "/", k);
    } else {
      assert p + ("/" + k) == [p[0]] + (p[1..] + ("/" + k));
      AtBehind(s, pos, [p[0]], p[1..] + ("/" + k));
      RegexCloses(s, pos + 1, p[1..], !escaped && p[0] == '\\', k);
    }
  }

  lemma RegexReads(s: string, pos: nat, p: string, k: string, ts: Toks, valid: RegexCheck)
    requires At(s, pos, "/" + p + "/" + k) && |k| <= |s| && Reads(s, |s| - |k|, valid, ts)
    requires RegexBody(p, false) && RegexValid(p, valid)
    ensures Reads(s, pos, valid, Cons(Token(Regex, p), ts))
  {
    hide CloseAt, RegexBody, RegexValid, Reads, Next, At;
    Delimited(s, pos, '/', p, k);
    RegexCloses(s, pos + 1, p, false, k);
    NextIsRegex(s, pos, valid);
    TokenReads(s, pos, Token(Regex, p), |s| - |k|, ts, valid);
  }

  lemma {:induction false} WordEnds(s: string, pos: nat, w: string, k: string)
    requires At(s, pos, w + k) && (forall c <- w :: !EndsWord(c)) && (k == "" || EndsWord(k[0]))
    ensures WordEnd(s, pos) == pos + |w|
    decreases |w|
  {
    if w == "" {
      assert w + k == k;
      if k != "" { assert s[pos] == s[pos..][0]; }
    } else {
      assert w + k == [w[0]] + (w[1..] + k);
      AtBehind(s, pos, [w[0]], w[1..] + k);
      assert forall c <- w[1..] :: c in w;
      WordEnds(s, pos + 1, w[1..], k);
    }
  }

  lemma WordReads(s: string, pos: nat, w: string, k: string, ts: Toks, valid: RegexCheck)
    requires At(s, pos, w + k) && w != "" && (forall c <- w :: !EndsWord(c)) && k != "" && EndsWord(k[0])
    requires Reads(s, pos + |w|, valid, ts)
    ensures Reads(s, pos, valid, Cons(WordToken(w), ts))
  {
    hide Reads, WordToken;
    AtBehind(s, pos, w, k);
    WordEnds(s, pos, w, k);
    assert s[pos] in w;
    assert SkipSpace(s, pos) == pos;
    assert Next(s, pos, valid) == (WordToken(w), pos + |w|);
    TokenReads(s, pos, WordToken(w), pos + |w|, ts, valid);
  }

  lemma Keywords()
    ensures WordToken("AND") == Token(AndTok, "AND") && WordToken("OR") == Token(OrTok, "OR") &&
            WordToken("NOT") == Token(NotTok, "NOT")
  {
    assert ToLower("AND") == "and" && ToLower("OR") == "or" && ToLower("NOT") == "not";
  }

  lemma SignIsWord(field: string, op: Op)
    ensures WordToken(field + Sign(op)) == Token(Word, field + Sign(op))
  {
    var word := field + Sign(op);
    var low := ToLower(word);
    assert low[|low| - 1] == Lower(word[|word| - 1]);
    assert "and"[2] == 'd' && "or"[1] == 'r' && "not"[2] == 't';
  }

  lemma SignEndsNoWord(op: Op)
    ensures Sign(op) != "" && forall c <- Sign(op) :: !EndsWord(c)
  {
  }

  lemma ValueReads(s: string, pos: nat, op: Op, value: string, k: string, ts: Toks, valid: RegexCheck)
    requires At(s, pos, ValueText(op, value, k)) && |k| <= |s| && Reads(s, |s| - |k|, valid, ts)
    requires op == Regexp ==> RegexBody(value, false) && RegexValid(value, valid)
    ensures Reads(s, pos, valid, Cons(ValueToken(op, value), ts))
  {
    hide Reads, RegexBody, RegexValid, EscapeQuoted;
    if op == Regexp { RegexReads(s, pos, value, k, ts, valid); } else { QuotedReads(s, pos, value, k, ts, valid); }
  }

  lemma ValueStarts(op: Op, value: string, k: string)
    ensures ValueText(op, value, k) != "" && EndsWord(ValueText(op, value, k)[0])
    ensures |k| <= |ValueText(op, value, k)|
  {
  }

  lemma LeafReads(s: string, pos: nat, field: string, op: Op, value: string, k: string, ts: Toks, valid: RegexCheck)
    requires WritableLeaf(field, op, value, valid)
    requires At(s, pos, Render(Pred(field, op, value), k)) && |k| <= |s| && Reads(s, |s| - |k|, valid, ts)
    ensures Reads(s, pos, valid, TokensOf(Pred(field, op, value), ts))
  {
    hide Reads, RegexBody, RegexValid, ValueText, ValueToken, HasSub, IsFieldName, ToLower, WordToken, IsSpace;
    var text := ValueText(op, value, k);
    if field == "" {
      ValueReads(s, pos, op, value, k, ts, valid);
    } else {
      var word := field + Sign(op);
      AtBehind(s, pos, word, text);
      ValueReads(s, pos + |word|, op, value, k, ts, valid);
      ValueStarts(op, value, k);
      NameIsPlain(field);
      SignIsWord(field, op);
      SignEndsNoWord(op);
      assert forall c <- word :: c in field || c in Sign(op);
      WordReads(s, pos, word, text, Cons(ValueToken(op, value), ts), valid);
    }
  }

  /** The keyword between operands, with its blanks. */
  lemma SeparatorReads(s: string, pos: nat, w: string, k: string, ts: Toks, valid: RegexCheck)
    requires w == "AND" || w == "OR"
    requires At(s, pos, " " + w + " " + k) && Reads(s, pos + |w| + 2, valid, ts)
    ensures Reads(s, pos, valid, Cons(WordToken(w), ts))
  {
    hide Reads, WordToken;
    assert " " + w + " " + k == " " + (w + (" " + k));
    AtBehind(s, pos, " ", w + (" " + k));
    AtBehind(s, pos + 1, w, " " + k);
    AtBehind(s, pos + 1 + |w|, " ", k);
    BlankReads(s, pos + 1 + |w|, ts, valid);
    WordReads(s, pos + 1, w, " " + k, ts, valid);
    BlankReads(s, pos, Cons(WordToken(w), ts), valid);
  }

  lemma NotReads(s: string, pos: nat, k: string, ts: Toks, valid: RegexCheck)
    requires At(s, pos, "NOT " + k) && Reads(s, pos + 4, valid, ts)
    ensures Reads(s, pos, valid, Cons(Token(NotTok, "NOT"), ts))
  {
    hide Reads, WordToken;
    assert "NOT " + k == "NOT" + (" " + k);
    AtBehind(s, pos, "NOT", " " + k);
    AtBehind(s, pos + 3, " ", k);
    BlankReads(s, pos + 3, ts, valid);
    WordReads(s, pos, "NOT", " " + k, ts, valid);
    Keywords();
  }

  /** Wherever the text of a filter stands, it lexes to the tokens of the filter. */
  lemma {:induction false} RenderLexes(s: string, pos: nat, f: Filter, k: string, ts: Toks, valid: RegexCheck)
    requires Writable(f, valid) && At(s, pos, Render(f, k)) && |k| <= |s| && Reads(s, |s| - |k|, valid, ts)
    ensures Reads(s, pos, valid, TokensOf(f, ts))
    decreases f, 1
  {
    hide Reads, WritableLeaf;
    match f
    case And(cs) =>
      assert " " + "AND" + " " == " AND ";
      assert "(" + RenderAll(cs, " AND ", ")" + k) == Render(f, k);
      GroupLexes(s, pos, cs, "AND", k, ts, valid);
      Keywords();
    case Or(cs) =>
      assert " " + "OR" + " " == " OR ";
      assert "(" + RenderAll(cs, " OR ", ")" + k) == Render(f, k);
      GroupLexes(s, pos, cs, "OR", k, ts, valid);
      Keywords();
    case Not(c) =>
      AtBehind(s, pos, "NOT ", Render(c, k));
      RenderLexes(s, pos + 4, c, k, ts, valid);
      NotReads(s, pos, Render(c, k), TokensOf(c, ts), valid);
    case Pred(field, op, value) => LeafReads(s, pos, field, op, value, k, ts, valid);
  }

  lemma {:induction false} GroupLexes(s: string, pos: nat, cs: seq<Filter>, w: string, k: string, ts: Toks,
                                      valid: RegexCheck)
    requires (w == "AND" || w == "OR") && cs != [] && AllWritable(cs, valid)
    requires At(s, pos, "(" + RenderAll(cs, " " + w + " ", ")" + k)) && |k| <= |s| && Reads(s, |s| - |k|, valid, ts)
    ensures Reads(s, pos, valid, Cons(Token(LParen, "("), TokensAll(cs, WordToken(w), Cons(Token(RParen, ")"), ts))))
    decreases cs, 1
  {
    hide Reads, WordToken, RenderAll, TokensAll, AllWritable, At, Ends;
    var close := ")" + k;
    var text := RenderAll(cs, " " + w + " ", close);
    AtBehind(s, pos, "(", text);
    EndsWith(cs, " " + w + " ", close);
    var end := |s| - |close|;
    assert At(s, end, close) by { SuffixAt(s, pos + 1, text, close); }
    ParenReads(s, end, ')', k, ts, valid);
    RenderAllLexes(s, pos + 1, cs, w, close, Cons(Token(RParen, ")"), ts), valid);
    ParenReads(s, pos, '(', text, TokensAll(cs, WordToken(w), Cons(Token(RParen, ")"), ts)), valid);
  }

  predicate Ends(text: string, k: string) {
    |k| <= |text| && text[|text| - |k|..] == k
  }

  lemma SuffixAt(s: string, pos: nat, text: string, k: string)
    requires At(s, pos, text) && Ends(text, k)
    ensures |k| <= |s| && At(s, |s| - |k|, k)
  {
    assert text[|text| - |k|..] == s[pos..][|text| - |k|..] == s[|s| - |k|..];
  }

  lemma EndsOn(a: string, b: string, k: string)
    requires Ends(b, k)
    ensures Ends(a + b, k)
  {
    assert (a + b)[|a + b| - |k|..] == b[|b| - |k|..];
  }

  lemma {:induction false} RenderEnds(f: Filter, k: string)
    ensures Ends(Render(f, k), k)
    decreases f, 1
  {
    hide EscapeQuoted, Ends;
    assert Ends(k, k) by { EndsItself(k); }
    match f
    case And(cs) => GroupEnds(cs, " AND ", k);
    case Or(cs) => GroupEnds(cs, " OR ", k);
    case Not(c) =>
      RenderEnds(c, k);
      EndsOn("NOT ", Render(c, k), k);
    case Pred(field, op, value) =>
      ValueEnds(op, value, k);
      if field != "" { EndsOn(field + Sign(op), ValueText(op, value, k), k); }
  }

  lemma EndsItself(k: string)
    ensures Ends(k, k)
  {
  }

  lemma {:induction false} GroupEnds(cs: seq<Filter>, sep: string, k: string)
    ensures Ends("(" + RenderAll(cs, sep, ")" + k), k)
    decreases cs, 1
  {
    EndsWith(cs, sep, ")" + k);
    var text := RenderAll(cs, sep, ")" + k);
    assert text[|text| - |k|..] == text[|text| - |")" + k|..][1..] == k;
    EndsOn("(", text, k);
  }

  lemma ValueEnds(op: Op, value: string, k: string)
    ensures Ends(ValueText(op, value, k), k)
  {
    hide EscapeQuoted;
  }

  lemma {:induction false} EndsWith(cs: seq<Filter>, sep: string, k: string)
    ensures Ends(RenderAll(cs, sep, k), k)
    decreases cs, 0
  {
    hide Ends;
    EndsItself(k);
    if cs != [] {
      var rest := if |cs| == 1 then k else sep + RenderAll(cs[1..], sep, k);
      if |cs| > 1 {
        EndsWith(cs[1..], sep, k);
        EndsOn(sep, RenderAll(cs[1..], sep, k), k);
      }
      RenderEnds(cs[0], rest);
      EndsThrough(Render(cs[0], rest), rest, k);
    }
  }

  lemma EndsThrough(text: string, rest: string, k: string)
    requires Ends(text, rest) && Ends(rest, k)
    ensures Ends(text, k)
  {
    assert text[|text| - |k|..] == text[|text| - |rest|..][|rest| - |k|..];
  }

  lemma {:induction false} RenderAllLexes(s: string, pos: nat, cs: seq<Filter>, w: string, k: string, ts: Toks,
                                          valid: RegexCheck)
    requires (w == "AND" || w == "OR") && cs != [] && AllWritable(cs, valid)
    requires At(s, pos, RenderAll(cs, " " + w + " ", k)) && |k| <= |s| && Reads(s, |s| - |k|, valid, ts)
    ensures Reads(s, pos, valid, TokensAll(cs, WordToken(w), ts))
    decreases cs, 0
  {
    hide Reads, WordToken, Render, TokensOf, Writable, At;
    var sep := " " + w + " ";
    if |cs| == 1 {
      RenderLexes(s, pos, cs[0], k, ts, valid);
    } else {
      var more := RenderAll(cs[1..], sep, k);
      var rest := sep + more;
      var end := |s| - |rest|;
      RenderEnds(cs[0], rest);
      SuffixAt(s, pos, Render(cs[0], rest), rest);
      AtBehind(s, end, sep, more);
      RenderAllLexes(s, end + |sep|, cs[1..], w, k, ts, valid);
      var tokens := TokensAll(cs[1..], WordToken(w), ts);
      SeparatorReads(s, end, w, more, tokens, valid);
      RenderLexes(s, pos, cs[0], rest, Cons(WordToken(w), tokens), valid);
    }
  }

  // ---------- text splits ----------

  /** No pipe outside quotes and regular expressions, and nothing is left open. */
  predicate Quiet(st: Scan, s: string)
    decreases |s|
  {
    if s == "" then st.Plain? else !(st.Plain? && s[0] == '|') && Quiet(Step(st, s[0]), s[1..])
  }

  lemma {:induction false} QuietIsOnePart(q: string, st: Scan, buf: string)
    requires Quiet(st, q)
    ensures Split(q, st, buf) == Ok([TrimSpace(buf + q)])
    decreases |q|
  {
    hide TrimSpace;
    if q == "" {
      assert buf + q == buf;
    } else {
      QuietIsOnePart(q[1..], Step(st, q[0]), buf + [q[0]]);
      assert buf + [q[0]] + q[1..] == buf + q;
    }
  }

  predicate PlainChar(c: char) {
    c != '"' && c != '/' && c != '|'
  }

  lemma {:induction false} PlainIsQuiet(w: string, k: string)
    requires (forall c <- w :: PlainChar(c)) && Quiet(Plain, k)
    ensures Quiet(Plain, w + k)
    decreases |w|
  {
    if w == "" {
      assert w + k == k;
    } else {
      assert (w + k)[1..] == w[1..] + k;
      assert w[0] in w && forall c <- w[1..] :: c in w;
      PlainIsQuiet(w[1..], k);
    }
  }

  lemma QuietStep(st: Scan, c: char, s: string)
    requires !(st.Plain? && c == '|')
    ensures Quiet(st, [c] + s) == Quiet(Step(st, c), s)
  {
    assert ([c] + s)[1..] == s;
  }

  lemma {:induction false} QuotedIsQuiet(v: string, k: string)
    requires Quiet(Plain, k)
    ensures Quiet(InQuote(false), EscapeQuoted(v) + ("\"" + k))
    decreases |v|
  {
    hide Quiet;
    if v == "" {
      assert EscapeQuoted(v) + ("\"" + k) == ['"'] + k;
      QuietStep(InQuote(false), '"', k);
    } else {
      QuotedIsQuiet(v[1..], k);
      var rest := EscapeQuoted(v[1..]) + ("\"" + k);
      if v[0] == '\\' || v[0] == '"' {
        assert EscapeQuoted(v) + ("\"" + k) == ['\\'] + ([v[0]] + rest);
        QuietStep(InQuote(false), '\\', [v[0]] + rest);
        QuietStep(InQuote(true), v[0], rest);
      } else {
        assert EscapeQuoted(v) + ("\"" + k) == [v[0]] + rest;
        QuietStep(InQuote(false), v[0], rest);
      }
    }
  }

  lemma {:induction false} RegexIsQuiet(p: string, escaped: bool, k: string)
    requires Quiet(Plain, k) && RegexBody(p, escaped)
    ensures Quiet(InRegex(escaped), p + ("/" + k))
    decreases |p|
  {
    hide Quiet;
    if p == "" {
      assert p + ("/" + k) == ['/'] + k;
      QuietStep(InRegex(false), '/', k);
    } else {
      RegexIsQuiet(p[1..], !escaped && p[0] == '\\', k);
      assert p + ("/" + k) == [p[0]] + (p[1..] + ("/" + k));
      QuietStep(InRegex(escaped), p[0], p[1..] + ("/" + k));
    }
  }

  lemma ValueIsQuiet(op: Op, value: string, k: string)
    requires Quiet(Plain, k) && (op == Regexp ==> RegexBody(value, false))
    ensures Quiet(Plain, ValueText(op, value, k))
  {
    hide Quiet, EscapeQuoted, RegexBody;
    if op == Regexp {
      RegexIsQuiet(value, false, k);
      assert "/" + value + "/" + k == ['/'] + (value + ("/" + k));
      QuietStep(Plain, '/', value + ("/" + k));
    } else {
      QuotedIsQuiet(value, k);
      var e := EscapeQuoted(value);
      assert "\"" + e + "\"" + k == ['"'] + (e + ("\"" + k));
      QuietStep(Plain, '"', e + ("\"" + k));
    }
  }

  lemma WordIsQuiet(field: string, op: Op, text: string)
    requires IsFieldName(field) && Quiet(Plain, text)
    ensures Quiet(Plain, field + Sign(op) + text)
  {
    PlainIsQuiet(field + Sign(op), text);
  }

  lemma {:induction false} RenderIsQuiet(f: Filter, k: string, valid: RegexCheck)
    requires Writable(f, valid) && Quiet(Plain, k)
    ensures Quiet(Plain, Render(f, k))
    decreases f, 1
  {
    hide Quiet, RegexBody, IsFieldName, HasSub, ToLower;
    match f
    case And(cs) =>
      PlainIsQuiet(")", k);
      RenderAllQuiet(cs, " AND ", ")" + k, valid);
      PlainIsQuiet("(", RenderAll(cs, " AND ", ")" + k));
    case Or(cs) =>
      PlainIsQuiet(")", k);
      RenderAllQuiet(cs, " OR ", ")" + k, valid);
      PlainIsQuiet("(", RenderAll(cs, " OR ", ")" + k));
    case Not(c) =>
      RenderIsQuiet(c, k, valid);
      PlainIsQuiet("NOT ", Render(c, k));
    case Pred(field, op, value) =>
      ValueIsQuiet(op, value, k);
      if field != "" { WordIsQuiet(field, op, ValueText(op, value, k)); }
  }

  lemma {:induction false} RenderAllQuiet(cs: seq<Filter>, sep: string, k: string, valid: RegexCheck)
    requires AllWritable(cs, valid) && Quiet(Plain, k) && forall c <- sep :: PlainChar(c)
    ensures Quiet(Plain, RenderAll(cs, sep, k))
    decreases cs, 0
  {
    hide Quiet;
    if cs != [] {
      var rest := if |cs| == 1 then k else sep + RenderAll(cs[1..], sep, k);
      if |cs| > 1 {
        RenderAllQuiet(cs[1..], sep, k, valid);
        PlainIsQuiet(sep, RenderAll(cs[1..], sep, k));
      }
      RenderIsQuiet(cs[0], rest, valid);
    }
  }

  // ---------- the way back ----------

  /** The text of a filter has more than one character and is trimmed. */
  lemma {:induction false} RenderIsTrimmed(f: Filter, valid: RegexCheck)
    requires Writable(f, valid)
    ensures var q := Render(f, ""); |q| >= 2 && Trimmed(q)
    decreases f
  {
    match f
    case And(cs) => GroupIsTrimmed(cs, " AND ");
    case Or(cs) => GroupIsTrimmed(cs, " OR ");
    case Not(c) => RenderIsTrimmed(c, valid);
    case Pred(field, op, value) =>
      if field != "" { NameIsPlain(field); assert field[0] in field; }
  }

  lemma GroupIsTrimmed(cs: seq<Filter>, sep: string)
    ensures var q := "(" + RenderAll(cs, sep, ")" + ""); |q| >= 2 && Trimmed(q)
  {
    hide RenderAll;
    EndsWith(cs, sep, ")" + "");
    var text := RenderAll(cs, sep, ")" + "");
    assert text[|text| - 1] == text[|text| - 1..][0] == ')';
  }

  /** Writing a filter and parsing the text gives the filter with its disjunctions merged. */
  lemma RenderParsesBack(f: Filter, valid: RegexCheck)
    requires Writable(f, valid)
    ensures ParseSearch(Render(f, ""), valid) == Ok(Query(Some(Flatten(f)), []))
  {
    hide Render, TokensOf, Flatten, Writable, Reads, Split, ParseFilter, Trimmed, TrimSpace, Quiet;
    var q := Render(f, "");
    RenderIsTrimmed(f, valid);
    TrimmedStays(q);
    assert Quiet(Plain, "") by { NothingIsQuiet(); }
    RenderIsQuiet(f, "", valid);
    QuietIsOnePart(q, Plain, "");
    assert "" + q == q;
    assert [q][1..] == [];
    RenderReads(q, f, valid);
    FilterParses(q, f, valid);
  }

  lemma NothingIsQuiet()
    ensures Quiet(Plain, "")
  {
  }

  lemma RenderReads(q: string, f: Filter, valid: RegexCheck)
    requires Writable(f, valid) && q == Render(f, "")
    ensures Reads(q, 0, valid, TokensOf(f, Nil))
  {
    hide Render, TokensOf, Writable;
    assert q[0..] == q;
    assert SkipSpace(q, |q|) == |q|;
    assert Reads(q, |q|, valid, Nil);
    RenderLexes(q, 0, f, "", Nil, valid);
  }

  lemma FilterParses(q: string, f: Filter, valid: RegexCheck)
    requires Writable(f, valid) && Reads(q, 0, valid, TokensOf(f, Nil))
    ensures ParseFilter(q, valid) == Ok(Flatten(f))
  {
    hide TokensOf, Flatten, Writable, ReadUnary, ReadAnd, ReadOr, Clean, Lexed, ParseFilter;
    TokensParse(f, Nil, valid);
    OperandIsAnd(f, Nil, valid);
    OrStep(Flatten(f), TokensOf(f, Nil), Flatten(f), Nil, valid);
    OrEnds(Flatten(f), Nil, valid);
    ParserReadsTokens(q, valid);
  }

  /** A filter comes back unchanged exactly if it is canonical. */
  lemma RoundTripIff(f: Filter, valid: RegexCheck)
    requires Writable(f, valid)
    ensures ParseSearch(Render(f, ""), valid) == Ok(Query(Some(f), [])) <==> Canonical(f)
  {
    hide Render, Writable, Flatten, ParseSearch, Canonical;
    RenderParsesBack(f, valid);
    WritableIsFilled(f, valid);
    FlattenFixedIff(f);
  }
}
