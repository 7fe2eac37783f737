/** The parser without its lexer: the grammar of searches over lists of tokens, and
    that the parser which peeks into text (splunklite/search.go) reads just that. A lexical
    fault is a token of its own, NO_TOKEN, which peek shows like the end and then forgets. */
module Tokens {
  import opened Text
  import opened Filters
  import opened Search

  datatype Toks = Nil | Cons(head: Token, tail: Toks)

  datatype Parse = Failed(error: string) | Parsed(filter: Filter, rest: Toks)

  function Size(ts: Toks): nat {
    match ts case Nil => 0 case Cons(_, tail) => 1 + Size(tail)
  }

  predicate Heads(ts: Toks, k: TokenKind) {
    ts.Cons? && ts.head.kind == k
  }

  /** What a peek that is followed by nothing leaves: a fault in front is gone. */
  function Peeked(ts: Toks): (r: Toks)
    ensures Size(r) <= Size(ts)
  {
    if ts.Cons? && ts.head == NO_TOKEN then ts.tail else ts
  }

  // ---------- the grammar ----------

  function ReadOr(ts: Toks, valid: RegexCheck): (r: Parse)
    ensures r.Parsed? ==> Size(r.rest) < Size(ts)
    decreases Size(ts), 6
  {
    match ReadAnd(ts, valid)
    case Failed(m) => Failed(m)
    case Parsed(left, rest) => ReadOrTail(left, rest, valid)
  }

  function ReadOrTail(left: Filter, ts: Toks, valid: RegexCheck): (r: Parse)
    ensures r.Parsed? ==> Size(r.rest) <= Size(ts)
    decreases Size(ts), 5
  {
    if !Heads(ts, OrTok) then Parsed(left, Peeked(ts))
    else
      match ReadAnd(ts.tail, valid)
      case Failed(m) => Failed(m)
      case Parsed(right, rest) => ReadOrTail(JoinOr(left, right), rest, valid)
  }

  function ReadAnd(ts: Toks, valid: RegexCheck): (r: Parse)
    ensures r.Parsed? ==> Size(r.rest) < Size(ts)
    decreases Size(ts), 4
  {
    ReadAndTail([], ts, valid)
  }

  predicate Over(ts: Toks) {
    ts.Nil? || EndsAnd(ts.head.kind)
  }

  function Conjunction(parts: seq<Filter>, ts: Toks): Parse {
    match JoinAnd(parts) case Err(m) => Failed(m) case Ok(f) => Parsed(f, ts)
  }

  function ReadAndTail(parts: seq<Filter>, ts: Toks, valid: RegexCheck): (r: Parse)
    ensures r.Parsed? ==> Size(r.rest) <= Size(ts) && (parts == [] ==> Size(r.rest) < Size(ts))
    decreases Size(ts), 3
  {
    if Over(ts) then Conjunction(parts, Peeked(ts))
    else
      var us := if ts.head.kind == AndTok then ts.tail else ts;
      if Over(us) then Conjunction(parts, Peeked(us))
      else
        match ReadUnary(us, valid)
        case Failed(m) => Failed(m)
        case Parsed(part, rest) => ReadAndTail(parts + [part], rest, valid)
  }

  function ReadUnary(ts: Toks, valid: RegexCheck): (r: Parse)
    ensures r.Parsed? ==> Size(r.rest) < Size(ts)
    decreases Size(ts), 2
  {
    if !Heads(ts, NotTok) then ReadPrimary(Peeked(ts), valid)
    else
      match ReadUnary(ts.tail, valid)
      case Failed(m) => Failed(m)
      case Parsed(child, rest) => Parsed(Not(child), rest)
  }

  function ReadPrimary(ts: Toks, valid: RegexCheck): (r: Parse)
    ensures r.Parsed? ==> Size(r.rest) < Size(ts)
    decreases Size(ts), 1
  {
    if ts.Nil? then Failed("expected search term")
    else
      match ts.head.kind
      case LParen =>
        (match ReadOr(ts.tail, valid)
         case Failed(m) => Failed(m)
         case Parsed(inner, rest) => if Heads(rest, RParen) then Parsed(inner, rest.tail) else Failed("expected )"))
      case Quoted => Parsed(Pred("", Contains, ts.head.text), ts.tail)
      case Regex => Parsed(Pred("", Regexp, ts.head.text), ts.tail)
      case Word => ReadWord(ts.head.text, ts.tail, valid)
      case _ => Failed("expected search term")
  }

  function ReadWord(word: string, ts: Toks, valid: RegexCheck): (r: Parse)
    ensures r.Parsed? && Size(r.rest) <= Size(ts)
  {
    var pred, suffix := FieldPredicate(word, 0, valid), FieldSuffix(word, 0);
    if pred.Some? then Parsed(pred.value, ts)
    else if suffix.Some? then ReadValue(suffix.value.0, suffix.value.1, word, ts)
    else Parsed(Pred("", Contains, word), ts)
  }

  function ReadValue(field: string, op: Op, word: string, ts: Toks): (r: Parse)
    ensures r.Parsed? && Size(r.rest) <= Size(ts)
  {
    if Heads(ts, Regex) then Parsed(Pred(field, Regexp, ts.head.text), ts.tail)
    else if Heads(ts, Quoted) || Heads(ts, Word) then
      Parsed(Pred(field, StarredOp(op, ts.head.text), ts.head.text), ts.tail)
    else Parsed(Pred("", Contains, word), Peeked(ts))
  }

  // ---------- lexing ahead ----------

  /** The tokens and faults from a position on. */
  function Lexed(s: string, pos: nat, valid: RegexCheck): Toks
    requires pos <= |s|
    decreases |s| - pos
  {
    var (t, p) := Next(s, pos, valid);
    if SkipSpace(s, pos) == |s| then Nil else Cons(t, Lexed(s, p, valid))
  }

  /** No lexical fault from the position on. */
  predicate Clean(s: string, pos: nat, valid: RegexCheck)
    requires pos <= |s|
    decreases |s| - pos
  {
    var (t, p) := Next(s, pos, valid);
    if t == NO_TOKEN then SkipSpace(s, pos) == |s| else Clean(s, p, valid)
  }

  predicate NoFault(ts: Toks) {
    ts.Cons? ==> ts.head != NO_TOKEN && NoFault(ts.tail)
  }

  lemma {:induction false} CleanIff(s: string, pos: nat, valid: RegexCheck)
    requires pos <= |s|
    ensures Clean(s, pos, valid) <==> NoFault(Lexed(s, pos, valid))
    decreases |s| - pos
  {
    hide Read, SkipSpace;
    if SkipSpace(s, pos) < |s| { CleanIff(s, Next(s, pos, valid).1, valid); }
  }

  /** What is ahead of position pos. */
  predicate Reads(s: string, pos: nat, valid: RegexCheck, ts: Toks) {
    pos <= |s| && Lexed(s, pos, valid) == ts
  }

  lemma EndOfTokens(s: string, pos: nat, advance: bool, valid: RegexCheck)
    requires pos <= |s|
    ensures Read(s, pos, advance, valid).0.kind == EOF <==> Read(s, pos, advance, valid).0 == NO_TOKEN
  {
  }

  function FirstOf(ts: Toks): Token {
    if ts.Nil? then NO_TOKEN else ts.head
  }

  /** Peeking shows the first token and stays in front of it, but behind a fault. */
  lemma PeekReads(s: string, pos: nat, valid: RegexCheck, ts: Toks)
    requires Reads(s, pos, valid, ts)
    ensures var (t, p) := Peek(s, pos, valid);
            Reads(s, p, valid, Peeked(ts)) && t == FirstOf(ts) && (t.kind == EOF <==> t == NO_TOKEN)
    ensures var (t, p) := Next(s, pos, valid);
            t == FirstOf(ts) && (t.kind == EOF <==> t == NO_TOKEN) && (ts.Cons? ==> Reads(s, p, valid, ts.tail))
  {
    hide CloseAt, WordEnd, UnescapeQuoted, RegexValid, WordToken;
    SkipSpaceStays(s, pos);
    EndOfTokens(s, pos, false, valid);
    EndOfTokens(s, pos, true, valid);
    SameToken(s, pos, valid);
    var (t, p) := Peek(s, pos, valid);
    if t != NO_TOKEN {
      PeekAgain(s, pos, valid);
      SamePlace(s, pos, valid);
    } else if SkipSpace(s, pos) < |s| {
      FaultPlace(s, pos, valid);
    }
  }

  /** A fault is consumed by peek and next alike. */
  lemma FaultPlace(s: string, pos: nat, valid: RegexCheck)
    requires pos <= |s| && SkipSpace(s, pos) < |s| && Peek(s, pos, valid).0 == NO_TOKEN
    ensures Peek(s, pos, valid) == Next(s, pos, valid)
  {
    hide SkipSpace, CloseAt, WordEnd, UnescapeQuoted, RegexValid, WordToken;
  }

  lemma SameToken(s: string, pos: nat, valid: RegexCheck)
    requires pos <= |s|
    ensures Peek(s, pos, valid).0 == Next(s, pos, valid).0
  {
    hide SkipSpace, CloseAt, WordEnd, UnescapeQuoted, RegexValid, WordToken;
  }

  lemma SamePlace(s: string, pos: nat, valid: RegexCheck)
    requires pos <= |s| && Peek(s, pos, valid).0 != NO_TOKEN
    ensures Next(s, Peek(s, pos, valid).1, valid) == Next(s, pos, valid)
  {
    hide SkipSpace, CloseAt, WordEnd, UnescapeQuoted, RegexValid, WordToken;
    SkipSpaceStays(s, pos);
  }

  /** The parser on text came to what the grammar came to on tokens. */
  predicate Same(o: Outcome, r: Parse, s: string, valid: RegexCheck) {
    match r
    case Failed(m) => o.result == Err(m)
    case Parsed(f, rest) => o.result == Ok(f) && Reads(s, o.pos, valid, rest)
  }

  lemma {:induction false} OrSame(s: string, pos: nat, ts: Toks, valid: RegexCheck)
    requires Reads(s, pos, valid, ts) && pos <= |s|
    ensures Same(ParseOr(s, pos, valid), ReadOr(ts, valid), s, valid)
    decreases |s| - pos, 6
  {
    hide Reads, ParseAnd, ReadAnd, OrLoop, ReadOrTail;
    AndSame(s, pos, ts, valid);
    var r := ReadAnd(ts, valid);
    if r.Parsed? { OrTailSame(s, ParseAnd(s, pos, valid).pos, r.filter, r.rest, valid); }
  }

  lemma {:induction false} OrTailSame(s: string, pos: nat, left: Filter, ts: Toks, valid: RegexCheck)
    requires pos <= |s| && Reads(s, pos, valid, ts)
    ensures Same(OrLoop(s, pos, left, valid), ReadOrTail(left, ts, valid), s, valid)
    decreases |s| - pos, 5
  {
    hide Reads, Peek, Next, ParseAnd, ReadAnd, JoinOr;
    PeekReads(s, pos, valid, ts);
    var (t, p) := Peek(s, pos, valid);
    if Heads(ts, OrTok) {
      PeekAgain(s, pos, valid);
      PeekReads(s, p, valid, ts);
      var q := Next(s, p, valid).1;
      AndSame(s, q, ts.tail, valid);
      var r := ReadAnd(ts.tail, valid);
      if r.Parsed? { OrTailSame(s, ParseAnd(s, q, valid).pos, JoinOr(left, r.filter), r.rest, valid); }
    }
  }

  lemma {:induction false} AndSame(s: string, pos: nat, ts: Toks, valid: RegexCheck)
    requires Reads(s, pos, valid, ts) && pos <= |s|
    ensures Same(ParseAnd(s, pos, valid), ReadAnd(ts, valid), s, valid)
    decreases |s| - pos, 4
  {
    hide Reads, AndLoop, ReadAndTail;
    AndTailSame(s, pos, [], ts, valid);
  }

  lemma {:induction false} AndTailSame(s: string, pos: nat, parts: seq<Filter>, ts: Toks, valid: RegexCheck)
    requires pos <= |s| && Reads(s, pos, valid, ts)
    ensures Same(AndLoop(s, pos, parts, valid), ReadAndTail(parts, ts, valid), s, valid)
    decreases |s| - pos, 3
  {
    hide Reads, Peek, Next, ParseUnary, ReadUnary, JoinAnd;
    PeekReads(s, pos, valid, ts);
    var (t, p) := Peek(s, pos, valid);
    if !Over(ts) {
      PeekAgain(s, pos, valid);
      PeekReads(s, p, valid, ts);
      var us := if ts.head.kind == AndTok then ts.tail else ts;
      if ts.head.kind == AndTok { PeekReads(s, Next(s, p, valid).1, valid, us); }
      var q := if t.kind == AndTok then Peek(s, Next(s, p, valid).1, valid).1 else p;
      if !Over(us) {
        UnarySame(s, q, us, valid);
        var r := ReadUnary(us, valid);
        if r.Parsed? { AndTailSame(s, ParseUnary(s, q, valid).pos, parts + [r.filter], r.rest, valid); }
      }
    }
  }

  lemma {:induction false} UnarySame(s: string, pos: nat, ts: Toks, valid: RegexCheck)
    requires pos <= |s| && Reads(s, pos, valid, ts)
    ensures Same(ParseUnary(s, pos, valid), ReadUnary(ts, valid), s, valid)
    decreases |s| - pos, 2
  {
    hide Reads, Peek, Next, ParsePrimary, ReadPrimary;
    PeekReads(s, pos, valid, ts);
    var (t, p) := Peek(s, pos, valid);
    if Heads(ts, NotTok) {
      PeekAgain(s, pos, valid);
      PeekReads(s, p, valid, ts);
      UnarySame(s, Next(s, p, valid).1, ts.tail, valid);
    } else {
      PrimarySame(s, p, Peeked(ts), valid);
    }
  }

  lemma {:induction false} PrimarySame(s: string, pos: nat, ts: Toks, valid: RegexCheck)
    requires pos <= |s| && Reads(s, pos, valid, ts)
    ensures Same(ParsePrimary(s, pos, valid), ReadPrimary(ts, valid), s, valid)
    decreases |s| - pos, 1
  {
    hide Reads, Peek, Next, ParseOr, ReadOr, WordPredicate, ReadWord;
    PeekReads(s, pos, valid, ts);
    var (t, p) := Peek(s, pos, valid);
    if t != NO_TOKEN {
      PeekAgain(s, pos, valid);
      PeekReads(s, p, valid, ts);
      var q := Next(s, p, valid).1;
      if t.kind == LParen {
        OrSame(s, q, ts.tail, valid);
        var r := ReadOr(ts.tail, valid);
        if r.Parsed? { PeekReads(s, ParseOr(s, q, valid).pos, valid, r.rest); }
      } else if t.kind == Word {
        WordSame(s, p, ts, valid);
      }
    }
  }

  lemma WordSame(s: string, pos: nat, ts: Toks, valid: RegexCheck)
    requires pos <= |s| && Reads(s, pos, valid, ts) && Heads(ts, Word)
    ensures Same(WordPredicate(s, pos, ts.head.text, valid), ReadWord(ts.head.text, ts.tail, valid), s, valid)
  {
    hide Reads, Peek, Next, FieldPredicate, FieldSuffix, FieldValue, ReadValue;
    PeekReads(s, pos, valid, ts);
    var suffix := FieldSuffix(ts.head.text, 0);
    if suffix.Some? {
      ValueSame(s, Next(s, pos, valid).1, suffix.value.0, suffix.value.1, ts.head.text, ts.tail, valid);
    }
  }

  lemma ValueSame(s: string, pos: nat, field: string, op: Op, word: string, ts: Toks, valid: RegexCheck)
    requires pos <= |s| && Reads(s, pos, valid, ts)
    ensures Same(FieldValue(s, pos, field, op, word, valid), ReadValue(field, op, word, ts), s, valid)
  {
    hide Reads, Peek, Next, StarredOp;
    PeekReads(s, pos, valid, ts);
    PeekReads(s, Peek(s, pos, valid).1, valid, Peeked(ts));
  }

  /** On every text the parser reads the grammar on the tokens and faults. It accepts the search
      exactly if the grammar reads all of them, or all up to a fault. */
  lemma ParserReadsTokens(s: string, valid: RegexCheck)
    ensures match ReadOr(Lexed(s, 0, valid), valid)
            case Failed(m) => ParseFilter(s, valid) == Err(m)
            case Parsed(f, rest) =>
              if FirstOf(rest) == NO_TOKEN then ParseFilter(s, valid) == Ok(f) else ParseFilter(s, valid).Err?
  {
    hide ParseOr, ReadOr, Peek, Lexed;
    var ts := Lexed(s, 0, valid);
    OrSame(s, 0, ts, valid);
    var r := ReadOr(ts, valid);
    if r.Parsed? { PeekReads(s, ParseOr(s, 0, valid).pos, valid, r.rest); }
  }

  /** The search `a /(/`, whose expression does not compile, is accepted as `a`. */
  lemma BadRegexIsDropped(valid: RegexCheck)
    requires !valid("(")
    ensures ParseFilter("a /(/", valid) == Ok(Pred("", Contains, "a"))
  {
    var s := "a /(/";
    WordThenFault(valid);
    ParserReadsTokens(s, valid);
    WordAlone(valid);
  }

  lemma WordThenFault(valid: RegexCheck)
    requires !valid("(")
    ensures Lexed("a /(/", 0, valid) == Cons(Token(Word, "a"), Cons(NO_TOKEN, Nil))
  {
    var s := "a /(/";
    assert !IsSpace('a') && !IsSpace('/') && IsSpace(' ');
    assert SkipSpace(s, 0) == 0 && SkipSpace(s, 2) == 2 && SkipSpace(s, 1) == 2 && SkipSpace(s, 5) == 5;
    assert WordEnd(s, 1) == 1 && WordEnd(s, 0) == 1 && s[0..1] == "a" && ToLower("a") == "a";
    assert CloseAt(s, 4, false, '/') == 4 && CloseAt(s, 3, false, '/') == 4 && s[3..4] == "(";
    assert Next(s, 0, valid) == (Token(Word, "a"), 1);
    assert Next(s, 1, valid) == (NO_TOKEN, 5);
    assert Lexed(s, 5, valid) == Nil;
    assert Lexed(s, 1, valid) == Cons(NO_TOKEN, Nil);
  }

  lemma WordAlone(valid: RegexCheck)
    ensures ReadOr(Cons(Token(Word, "a"), Cons(NO_TOKEN, Nil)), valid) == Parsed(Pred("", Contains, "a"), Nil)
  {
    var fault := Cons(NO_TOKEN, Nil);
    var ts := Cons(Token(Word, "a"), fault);
    NoOperatorInA(valid);
    hide FieldPredicate, FieldSuffix;
    var a := Pred("", Contains, "a");
    assert ReadPrimary(ts, valid) == Parsed(a, fault);
    assert ReadUnary(ts, valid) == Parsed(a, fault);
    assert ReadAndTail([a], fault, valid) == Parsed(a, Nil);
    assert [] + [a] == [a];
    assert ReadAndTail([], ts, valid) == Parsed(a, Nil);
    assert ReadOrTail(a, Nil, valid) == Parsed(a, Nil);
  }

  lemma NoOperatorInA(valid: RegexCheck)
    ensures FieldPredicate("a", 0, valid) == None && FieldSuffix("a", 0) == None
  {
    assert "a"[1..] == "";
    NoneFrom(valid, 7);
    NoneFrom(valid, 6);
    NoneFrom(valid, 5);
    NoneFrom(valid, 4);
    NoneFrom(valid, 3);
    NoneFrom(valid, 2);
    NoneFrom(valid, 1);
    NoneFrom(valid, 0);
  }

  lemma NoneFrom(valid: RegexCheck, i: nat)
    requires i <= |OPERATORS|
    requires i < |OPERATORS| ==> FieldPredicate("a", i + 1, valid) == None && FieldSuffix("a", i + 1) == None
    ensures FieldPredicate("a", i, valid) == None && FieldSuffix("a", i) == None
  {
    if i < |OPERATORS| {
      var sep := OPERATORS[i].0;
      assert sep != "" && sep[0] != 'a' && sep[|sep| - 1] != 'a';
      assert "a"[1..] == "";
      assert Index("", sep) == None;
      assert !HasPrefix("a", sep);
      assert |sep| == 1 ==> "a"[1 - |sep|..] != sep;
      assert !HasSuffix("a", sep);
    }
  }

  // ---------- no empty groups ----------

  lemma {:induction false} OrIsAsked(ts: Toks, valid: RegexCheck)
    ensures ReadOr(ts, valid).Parsed? ==> Asked(ReadOr(ts, valid).filter)
    decreases Size(ts), 6
  {
    hide Asked, ReadAnd, ReadOrTail;
    AndIsAsked(ts, valid);
    var r := ReadAnd(ts, valid);
    if r.Parsed? { OrTailIsAsked(r.filter, r.rest, valid); }
  }

  lemma JoinedIsAsked(left: Filter, right: Filter)
    requires Asked(left) && Asked(right)
    ensures Asked(JoinOr(left, right))
  {
    if left.Or? {
      AllAskedMore(left.children, right);
    } else {
      AllAskedMore([], left);
      AllAskedMore([left], right);
      assert [] + [left] == [left] && [left] + [right] == [left, right];
    }
  }

  lemma {:induction false} AllAskedMore(cs: seq<Filter>, f: Filter)
    requires AllAsked(cs) && Asked(f)
    ensures AllAsked(cs + [f])
    decreases |cs|
  {
    hide Asked;
    if cs == [] {
      assert cs + [f] == [f] && [f][1..] == [];
    } else {
      assert (cs + [f])[1..] == cs[1..] + [f];
      AllAskedMore(cs[1..], f);
    }
  }

  lemma {:induction false} OrTailIsAsked(left: Filter, ts: Toks, valid: RegexCheck)
    requires Asked(left)
    ensures ReadOrTail(left, ts, valid).Parsed? ==> Asked(ReadOrTail(left, ts, valid).filter)
    decreases Size(ts), 5
  {
    hide Asked, ReadAnd, JoinOr;
    if Heads(ts, OrTok) {
      AndIsAsked(ts.tail, valid);
      var r := ReadAnd(ts.tail, valid);
      if r.Parsed? {
        JoinedIsAsked(left, r.filter);
        OrTailIsAsked(JoinOr(left, r.filter), r.rest, valid);
      }
    }
  }

  lemma {:induction false} AndIsAsked(ts: Toks, valid: RegexCheck)
    ensures ReadAnd(ts, valid).Parsed? ==> Asked(ReadAnd(ts, valid).filter)
    decreases Size(ts), 4
  {
    hide Asked, ReadAndTail;
    assert AllAsked([]);
    AndTailIsAsked([], ts, valid);
  }

  lemma JoinAndIsAsked(parts: seq<Filter>)
    requires AllAsked(parts)
    ensures JoinAnd(parts).Ok? ==> Asked(JoinAnd(parts).value)
  {
  }

  lemma {:induction false} AndTailIsAsked(parts: seq<Filter>, ts: Toks, valid: RegexCheck)
    requires AllAsked(parts)
    ensures ReadAndTail(parts, ts, valid).Parsed? ==> Asked(ReadAndTail(parts, ts, valid).filter)
    decreases Size(ts), 3
  {
    hide Asked, ReadUnary, JoinAnd;
    JoinAndIsAsked(parts);
    if !Over(ts) {
      var us := if ts.head.kind == AndTok then ts.tail else ts;
      if !Over(us) {
        UnaryIsAsked(us, valid);
        var r := ReadUnary(us, valid);
        if r.Parsed? {
          AllAskedMore(parts, r.filter);
          AndTailIsAsked(parts + [r.filter], r.rest, valid);
        }
      }
    }
  }

  lemma {:induction false} UnaryIsAsked(ts: Toks, valid: RegexCheck)
    ensures ReadUnary(ts, valid).Parsed? ==> Asked(ReadUnary(ts, valid).filter)
    decreases Size(ts), 2
  {
    hide ReadPrimary;
    if Heads(ts, NotTok) { UnaryIsAsked(ts.tail, valid); } else { PrimaryIsAsked(Peeked(ts), valid); }
  }

  lemma {:induction false} PrimaryIsAsked(ts: Toks, valid: RegexCheck)
    ensures ReadPrimary(ts, valid).Parsed? ==> Asked(ReadPrimary(ts, valid).filter)
    decreases Size(ts), 1
  {
    hide ReadOr, ReadWord;
    if Heads(ts, LParen) { OrIsAsked(ts.tail, valid); }
    if Heads(ts, Word) { WordIsAsked(ts.head.text, ts.tail, valid); }
  }

  lemma WordIsAsked(word: string, ts: Toks, valid: RegexCheck)
    ensures Asked(ReadWord(word, ts, valid).filter)
  {
    PredicateIsNamed(word, 0, valid);
    SuffixIsNamed(word, 0);
    hide FieldPredicate, FieldSuffix, HasSub;
  }

  lemma {:induction false} PredicateIsNamed(word: string, i: nat, valid: RegexCheck)
    requires i <= |OPERATORS|
    ensures FieldPredicate(word, i, valid).Some? ==>
              FieldPredicate(word, i, valid).value.Pred? && FieldPredicate(word, i, valid).value.field != ""
    decreases |OPERATORS| - i
  {
    hide Index, TrimSpace, ToLower, HasSub;
    if i < |OPERATORS| { PredicateIsNamed(word, i + 1, valid); }
  }

  lemma {:induction false} SuffixIsNamed(word: string, i: nat)
    requires i <= |OPERATORS|
    ensures FieldSuffix(word, i).Some? ==> FieldSuffix(word, i).value.0 != ""
    decreases |OPERATORS| - i
  {
    hide HasSuffix, TrimSpace, ToLower;
    if i < |OPERATORS| { SuffixIsNamed(word, i + 1); }
  }

  /** A filter as the parser makes them: no group is empty, and a leaf without a field is a search for a
      text or a regular expression. */
  predicate Asked(f: Filter)
    decreases f, 1
  {
    match f
    case And(cs) => cs != [] && AllAsked(cs)
    case Or(cs) => cs != [] && AllAsked(cs)
    case Not(c) => Asked(c)
    case Pred(field, op, _) => field != "" || op == Contains || op == Regexp
  }

  predicate AllAsked(cs: seq<Filter>)
    decreases cs, 0
  {
    cs == [] || (Asked(cs[0]) && AllAsked(cs[1..]))
  }

  lemma {:induction false} AskedIsFilled(f: Filter)
    requires Asked(f)
    ensures Filled(f)
    decreases f, 1
  {
    match f
    case And(cs) => AllAskedAreFilled(cs);
    case Or(cs) => AllAskedAreFilled(cs);
    case Not(c) => AskedIsFilled(c);
    case Pred(_, _, _) =>
  }

  lemma {:induction false} AllAskedAreFilled(cs: seq<Filter>)
    requires AllAsked(cs)
    ensures AllFilled(cs)
    decreases cs, 0
  {
    if cs != [] {
      AskedIsFilled(cs[0]);
      AllAskedAreFilled(cs[1..]);
    }
  }

  lemma SearchIsAsked(text: string, valid: RegexCheck)
    ensures match ParseSearch(text, valid)
            case Err(_) => true
            case Ok(q) => q.filter.Some? ==> Asked(q.filter.value)
  {
    hide ReadOr, Asked, SearchAndPipes, ParsePipes, ParseFilter;
    match SearchAndPipes(TrimSpace(text))
    case Err(_) =>
    case Ok(parts) =>
      var s := TrimSpace(parts.0);
      ParserReadsTokens(s, valid);
      OrIsAsked(Lexed(s, 0, valid), valid);
  }

  /** No search has an empty group. */
  lemma SearchIsFilled(text: string, valid: RegexCheck)
    ensures match ParseSearch(text, valid)
            case Err(_) => true
            case Ok(q) => q.filter.Some? ==> Filled(q.filter.value)
  {
    SearchIsAsked(text, valid);
    hide Asked, Filled, ParseSearch;
    var r := ParseSearch(text, valid);
    if r.Ok? && r.value.filter.Some? { AskedIsFilled(r.value.filter.value); }
  }

  // ---------- lexical faults ----------

  /** Every quote and regular expression that the lexer comes to is closed. */
  predicate Closed(s: string, pos: nat)
    requires pos <= |s|
    decreases |s| - pos
  {
    var p := SkipSpace(s, pos);
    if p == |s| then true
    else if s[p] == '"' || s[p] == '/' then
      var q := CloseAt(s, p + 1, false, s[p]);
      q < |s| && Closed(s, q + 1)
    else if s[p] == '(' || s[p] == ')' then Closed(s, p + 1)
    else Closed(s, WordEnd(s, p))
  }

  /** Every regular expression that the lexer comes to compiles. */
  predicate AllRegexesValid(s: string, pos: nat, valid: RegexCheck)
    requires pos <= |s|
    decreases |s| - pos
  {
    var p := SkipSpace(s, pos);
    if p == |s| then true
    else if s[p] == '"' || s[p] == '/' then
      var q := CloseAt(s, p + 1, false, s[p]);
      q < |s| ==> (s[p] == '/' ==> RegexValid(s[p + 1..q], valid)) && AllRegexesValid(s, q + 1, valid)
    else if s[p] == '(' || s[p] == ')' then AllRegexesValid(s, p + 1, valid)
    else AllRegexesValid(s, WordEnd(s, p), valid)
  }

  lemma {:induction false} ClosedIsClean(s: string, pos: nat, valid: RegexCheck)
    requires pos <= |s| && Closed(s, pos)
    ensures Clean(s, pos, valid) <==> AllRegexesValid(s, pos, valid)
    decreases |s| - pos
  {
    hide SkipSpace, CloseAt, WordEnd, UnescapeQuoted, RegexValid, WordToken, IsSpace;
    var p := SkipSpace(s, pos);
    if p < |s| {
      if s[p] == '"' || s[p] == '/' {
        ClosedIsClean(s, CloseAt(s, p + 1, false, s[p]) + 1, valid);
      } else if s[p] == '(' || s[p] == ')' {
        ClosedIsClean(s, p + 1, valid);
      } else {
        ClosedIsClean(s, WordEnd(s, p), valid);
      }
    }
  }

  /** The state of the splitting scan behind a text. */
  function Scanned(st: Scan, s: string): Scan
    decreases |s|
  {
    if s == "" then st else Scanned(Step(st, s[0]), s[1..])
  }

  lemma {:induction false} ScannedBoth(st: Scan, s: string, t: string)
    ensures Scanned(st, s + t) == Scanned(Scanned(st, s), t)
    decreases |s|
  {
    if s == "" {
      assert s + t == t;
    } else {
      assert (s + t)[1..] == s[1..] + t;
      ScannedBoth(Step(st, s[0]), s[1..], t);
    }
  }

  /** If splitting succeeds, no quote or regular expression is open where its first part ends. */
  lemma {:induction false} FirstPart(q: string, st: Scan, buf: string) returns (part: string)
    requires Split(q, st, buf).Ok?
    ensures Split(q, st, buf).value[0] == TrimSpace(buf + part) && Scanned(st, part) == Plain
    decreases |q|
  {
    hide TrimSpace;
    if q == "" || (st.Plain? && q[0] == '|') {
      part := "";
      assert buf + "" == buf;
    } else {
      var c := q[0];
      part := FirstPart(q[1..], Step(st, c), buf + [c]);
      assert buf + [c] + part == buf + ([c] + part);
      assert ([c] + part)[1..] == part;
      part := [c] + part;
    }
  }

  lemma {:induction false} TrimLeftKeeps(s: string)
    ensures Scanned(Plain, TrimLeft(s)) == Scanned(Plain, s)
    decreases |s|
  {
    if s != "" && IsSpace(s[0]) { TrimLeftKeeps(s[1..]); }
  }

  lemma {:induction false} TrimRightKeeps(s: string)
    requires Scanned(Plain, s) == Plain
    ensures Scanned(Plain, TrimRight(s)) == Plain
    decreases |s|
  {
    if s != "" && IsSpace(s[|s| - 1]) {
      var front, last := s[..|s| - 1], s[|s| - 1];
      assert s == front + [last];
      ScannedBoth(Plain, front, [last]);
      assert Scanned(Scanned(Plain, front), [last]) == Step(Scanned(Plain, front), last)
        by { assert [last][1..] == ""; }
      TrimRightKeeps(front);
    }
  }

  /** A text at whose end nothing is open is closed for the lexer, too. */
  lemma {:induction false} ScannedIsClosed(s: string, pos: nat)
    requires pos <= |s| && Scanned(Plain, s[pos..]) == Plain
    ensures Closed(s, pos)
    decreases |s| - pos
  {
    hide SkipSpace, CloseAt, WordEnd, IsSpace, Scanned;
    SkipScans(s, pos);
    var p := SkipSpace(s, pos);
    if p < |s| {
      ScanStep(Plain, s, p);
      if s[p] == '"' || s[p] == '/' {
        CloseScans(s, p + 1, false, s[p]);
        ScannedIsClosed(s, CloseAt(s, p + 1, false, s[p]) + 1);
      } else if s[p] == '(' || s[p] == ')' {
        ScannedIsClosed(s, p + 1);
      } else {
        WordScans(s, p);
        ScannedIsClosed(s, WordEnd(s, p));
      }
    }
  }

  lemma ScanStep(st: Scan, s: string, pos: nat)
    requires pos < |s|
    ensures Scanned(st, s[pos..]) == Scanned(Step(st, s[pos]), s[pos + 1..])
  {
    assert s[pos..][1..] == s[pos + 1..];
  }

  lemma {:induction false} SkipScans(s: string, pos: nat)
    requires pos <= |s|
    ensures Scanned(Plain, s[SkipSpace(s, pos)..]) == Scanned(Plain, s[pos..])
    decreases |s| - pos
  {
    if pos < |s| && IsSpace(s[pos]) {
      ScanStep(Plain, s, pos);
      SkipScans(s, pos + 1);
    }
  }

  lemma {:induction false} WordScans(s: string, pos: nat)
    requires pos <= |s|
    ensures Scanned(Plain, s[WordEnd(s, pos)..]) == Scanned(Plain, s[pos..])
    decreases |s| - pos
  {
    if pos < |s| && !EndsWord(s[pos]) {
      ScanStep(Plain, s, pos);
      WordScans(s, pos + 1);
    }
  }

  lemma {:induction false} CloseScans(s: string, pos: nat, escaped: bool, delim: char)
    requires pos <= |s| && (delim == '"' || delim == '/')
    requires Scanned(if delim == '"' then InQuote(escaped) else InRegex(escaped), s[pos..]) == Plain
    ensures var q := CloseAt(s, pos, escaped, delim); q < |s| && Scanned(Plain, s[q + 1..]) == Plain
    decreases |s| - pos
  {
    var st := if delim == '"' then InQuote(escaped) else InRegex(escaped);
    if pos < |s| {
      ScanStep(st, s, pos);
      CloseStep(s, pos, escaped, delim);
      hide Scanned, CloseAt;
      if escaped {
        CloseScans(s, pos + 1, false, delim);
      } else if s[pos] == '\\' {
        CloseScans(s, pos + 1, true, delim);
      } else if s[pos] != delim {
        CloseScans(s, pos + 1, false, delim);
      }
    }
  }

  lemma CloseStep(s: string, pos: nat, escaped: bool, delim: char)
    requires pos < |s|
    ensures CloseAt(s, pos, escaped, delim) ==
            if !escaped && s[pos] == delim && s[pos] != '\\' then pos
            else CloseAt(s, pos + 1, !escaped && s[pos] == '\\', delim)
  {
  }

  /** Where splitting at pipes succeeds, the lexer meets no unterminated quote or regular
      expression in the search part; then only a bad regular expression is a fault. */
  lemma ScannersAgree(q: string, valid: RegexCheck)
    requires Split(q, Plain, "").Ok?
    ensures var s := TrimSpace(Split(q, Plain, "").value[0]);
            Closed(s, 0) && (Clean(s, 0, valid) <==> AllRegexesValid(s, 0, valid))
  {
    hide Closed, Clean, AllRegexesValid, Split, Scanned, IsSpace;
    var part := FirstPart(q, Plain, "");
    assert "" + part == part;
    TrimLeftKeeps(part);
    TrimRightKeeps(TrimLeft(part));
    var s := TrimSpace(part);
    TrimSpaceTrims(part);
    TrimmedStays(s);
    assert s[0..] == s;
    ScannedIsClosed(s, 0);
    ClosedIsClean(s, 0, valid);
  }

  /** A quote or a regular expression ahead that is not closed, or a regular expression that
      does not compile. */
  predicate FaultAhead(s: string, pos: nat, valid: RegexCheck)
    requires pos <= |s|
  {
    var p := SkipSpace(s, pos);
    p < |s| && (s[p] == '"' || s[p] == '/') &&
    var q := CloseAt(s, p + 1, false, s[p]);
    q == |s| || (s[p] == '/' && !RegexValid(s[p + 1..q], valid))
  }

  /** The lexer returns nothing exactly at the end and at a fault. */
  lemma NothingReadIff(s: string, pos: nat, advance: bool, valid: RegexCheck)
    requires pos <= |s|
    ensures Read(s, pos, advance, valid).0 == NO_TOKEN <==> SkipSpace(s, pos) == |s| || FaultAhead(s, pos, valid)
  {
    hide SkipSpace, CloseAt, WordEnd, UnescapeQuoted, RegexValid, WordToken, IsSpace;
  }

  /** A closed regular expression ahead that does not compile: the position behind it. */
  function BehindBadRegex(s: string, pos: nat, valid: RegexCheck): (r: Option<nat>)
    requires pos <= |s|
    ensures r.Some? ==> pos < r.value <= |s|
  {
    var p := SkipSpace(s, pos);
    if p == |s| || s[p] != '/' then None
    else
      var q := CloseAt(s, p + 1, false, '/');
      if q < |s| && !RegexValid(s[p + 1..q], valid) then Some(q + 1) else None
  }

  /** Peek shows what the following next returns, except exactly when a regular expression
      that does not compile, which peek already consumes, stands in front of something that
      is neither the end nor another fault. */
  lemma PeekShowsNextIff(s: string, pos: nat, valid: RegexCheck)
    requires pos <= |s|
    ensures var (t, p) := Peek(s, pos, valid);
            t == Next(s, p, valid).0 <==>
            match BehindBadRegex(s, pos, valid)
            case None => true
            case Some(b) => SkipSpace(s, b) == |s| || FaultAhead(s, b, valid)
  {
    hide WordEnd, UnescapeQuoted, RegexValid, WordToken, IsSpace, CloseAt, FaultAhead;
    var (t, p) := Peek(s, pos, valid);
    if t != NO_TOKEN { PeekAgain(s, pos, valid); }
    NothingReadIff(s, p, true, valid);
    assert SkipSpace(s, |s|) == |s|;
  }

  /** Without faults, peek always shows the next token. */
  lemma CleanPeekShowsNext(s: string, pos: nat, valid: RegexCheck)
    requires pos <= |s| && Clean(s, pos, valid)
    ensures Peek(s, pos, valid).0 == Next(s, Peek(s, pos, valid).1, valid).0
  {
    hide Read, Clean, Lexed;
    var ts := Lexed(s, pos, valid);
    CleanIff(s, pos, valid);
    PeekReads(s, pos, valid, ts);
    PeekReads(s, Peek(s, pos, valid).1, valid, ts);
  }

  /** The search `/(/ x` with an expression that does not compile: peek shows the end, next
      returns the word. */
  lemma BadRegexHidesWord(valid: RegexCheck)
    requires !valid("(")
    ensures Peek("/(/ x", 0, valid) == (NO_TOKEN, 3) && Next("/(/ x", 3, valid) == (Token(Word, "x"), 5)
  {
    var s := "/(/ x";
    assert !IsSpace('/') && !IsSpace('x') && IsSpace(' ');
    assert SkipSpace(s, 0) == 0;
    assert CloseAt(s, 2, false, '/') == 2;
    assert CloseAt(s, 1, false, '/') == 2;
    assert s[1..2] == "(";
    assert SkipSpace(s, 4) == 4;
    assert SkipSpace(s, 3) == 4;
    assert WordEnd(s, 5) == 5;
    assert WordEnd(s, 4) == 5;
    assert s[4..5] == "x";
    assert ToLower("x") == "x";
  }
}
