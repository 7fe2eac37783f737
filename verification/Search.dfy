/** Lexer and parser of searches (splunklite/search.go). The functions say what the
    code computes; the classes below them move a position like the code. */
module Search {
  import opened Text
  import opened Filters

  datatype TokenKind = EOF | Word | Quoted | Regex | LParen | RParen | AndTok | OrTok | NotTok

  datatype Token = Token(kind: TokenKind, text: string)

  /** The zero token: the end, and also what a failed read leaves the callers of peek and
      next, which drop the error. */
  const NO_TOKEN := Token(EOF, "")

  /** Whether a non-empty pattern compiles. */
  type RegexCheck = string -> bool

  predicate RegexValid(pattern: string, valid: RegexCheck) {
    pattern == "" || valid(pattern)
  }

  // ---------- the lexer ----------

  function SkipSpace(s: string, pos: nat): (r: nat)
    requires pos <= |s|
    ensures pos <= r <= |s| && (r < |s| ==> !IsSpace(s[r]))
    decreases |s| - pos
  {
    if pos < |s| && IsSpace(s[pos]) then SkipSpace(s, pos + 1) else pos
  }

  predicate EndsWord(c: char) {
    c == '(' || c == ')' || c == '"' || c == '/' || IsSpace(c)
  }

  function WordEnd(s: string, pos: nat): (r: nat)
    requires pos <= |s|
    ensures pos <= r <= |s|
    ensures pos < |s| && !EndsWord(s[pos]) ==> pos < r
    decreases |s| - pos
  {
    if pos < |s| && !EndsWord(s[pos]) then WordEnd(s, pos + 1) else pos
  }

  /** Where the next delimiter without a backslash in front is; the length if there is none. */
  function CloseAt(s: string, pos: nat, escaped: bool, delim: char): (r: nat)
    requires pos <= |s|
    ensures pos <= r <= |s|
    decreases |s| - pos
  {
    if pos == |s| then pos
    else if escaped then CloseAt(s, pos + 1, false, delim)
    else if s[pos] == '\\' then CloseAt(s, pos + 1, true, delim)
    else if s[pos] == delim then pos
    else CloseAt(s, pos + 1, false, delim)
  }

  function UnescapeQuoted(s: string): string {
    ReplaceAll(ReplaceAll(s, "\\\"", "\""), "\\\\", "\\")
  }

  function WordToken(word: string): (t: Token)
    ensures t.kind != EOF && t.text == word
  {
    var lower := ToLower(word);
    Token(if lower == "and" then AndTok else if lower == "or" then OrTok else if lower == "not" then NotTok else Word,
          word)
  }

  /** The token at a position and the position behind it; without advance, the position at
      which it starts. A failed read is at its end in either case. */
  function Read(s: string, pos: nat, advance: bool, valid: RegexCheck): (r: (Token, nat))
    requires pos <= |s|
    ensures pos <= r.1 <= |s|
    ensures advance && SkipSpace(s, pos) < |s| ==> pos < r.1
    ensures r.0 != NO_TOKEN ==> SkipSpace(s, pos) < |s|
  {
    var p := SkipSpace(s, pos);
    if p == |s| then (NO_TOKEN, p)
    else if s[p] == '(' then (Token(LParen, "("), if advance then p + 1 else p)
    else if s[p] == ')' then (Token(RParen, ")"), if advance then p + 1 else p)
    else if s[p] == '"' then
      var q := CloseAt(s, p + 1, false, '"');
      if q == |s| then (NO_TOKEN, q)
      else (Token(Quoted, UnescapeQuoted(s[p + 1..q])), if advance then q + 1 else p)
    else if s[p] == '/' then
      var q := CloseAt(s, p + 1, false, '/');
      if q == |s| then (NO_TOKEN, q)
      else if !RegexValid(s[p + 1..q], valid) then (NO_TOKEN, q + 1)
      else (Token(Regex, s[p + 1..q]), if advance then q + 1 else p)
    else
      var e := WordEnd(s, p);
      (WordToken(s[p..e]), if advance then e else p)
  }

  function Peek(s: string, pos: nat, valid: RegexCheck): (r: (Token, nat))
    requires pos <= |s|
    ensures pos <= r.1 <= |s|
  {
    Read(s, pos, false, valid)
  }

  function Next(s: string, pos: nat, valid: RegexCheck): (r: (Token, nat))
    requires pos <= |s|
    ensures pos <= r.1 <= |s|
    ensures SkipSpace(s, pos) < |s| ==> pos < r.1
    ensures r.0 != NO_TOKEN ==> pos < r.1 && SkipSpace(s, pos) < |s|
  {
    Read(s, pos, true, valid)
  }

  lemma SkipSpaceStays(s: string, pos: nat)
    requires pos <= |s|
    ensures SkipSpace(s, SkipSpace(s, pos)) == SkipSpace(s, pos)
  {
  }

  /** A peek that shows a token may be repeated, and next then returns the same token. */
  lemma PeekAgain(s: string, pos: nat, valid: RegexCheck)
    requires pos <= |s| && Peek(s, pos, valid).0 != NO_TOKEN
    ensures var (t, p) := Peek(s, pos, valid);
            Peek(s, p, valid) == (t, p) && Next(s, p, valid).0 == t && p < Next(s, p, valid).1
  {
    hide SkipSpace, CloseAt, WordEnd, UnescapeQuoted, RegexValid, WordToken;
    SkipSpaceStays(s, pos);
  }

  // ---------- field predicates within a word ----------

  function Index(s: string, sub: string): (r: Option<nat>)
    ensures r.Some? ==> r.value + |sub| <= |s|
  {
    if HasPrefix(s, sub) then Some(0)
    else if s == "" then None
    else match Index(s[1..], sub) case None => None case Some(i) => Some(i + 1)
  }

  predicate StartsName(c: char) {
    'a' <= c <= 'z' || 'A' <= c <= 'Z' || c == '_'
  }

  predicate IsFieldName(s: string) {
    s != "" && StartsName(s[0]) && forall i :: 0 <= i < |s| ==> StartsName(s[i]) || '0' <= s[i] <= '9'
  }

  const OPERATORS: seq<(string, Op)> := [(">=", Gte), ("<=", Lte), ("!=", Ne), (">", Gt), ("<", Lt), ("=", Eq),
                                         (":", Eq)]

  /** An equality whose value has a star is a pattern. */
  function StarredOp(op: Op, value: string): Op {
    if op == Eq && HasSub(value, "*") then Like else op
  }

  /** parseFieldPredicate, from its i-th operator on. */
  function FieldPredicate(word: string, i: nat, valid: RegexCheck): Option<Filter>
    requires i <= |OPERATORS|
    decreases |OPERATORS| - i
  {
    if i == |OPERATORS| then None
    else
      var (sep, op) := OPERATORS[i];
      var at := Index(word, sep);
      if at.None? || at.value == 0 then FieldPredicate(word, i + 1, valid)
      else
        var field := ToLower(TrimSpace(word[..at.value]));
        if !IsFieldName(field) then FieldPredicate(word, i + 1, valid)
        else
          var value := TrimSpace(word[at.value + |sep|..]);
          if value == "" then None
          else if |value| >= 2 && value[0] == '/' && value[|value| - 1] == '/' then
            if RegexValid(value[1..|value| - 1], valid) then Some(Pred(field, Regexp, value[1..|value| - 1])) else None
          else Some(Pred(field, StarredOp(op, value), value))
  }

  /** fieldOpSuffix, from its i-th operator on. */
  function FieldSuffix(word: string, i: nat): Option<(string, Op)>
    requires i <= |OPERATORS|
    decreases |OPERATORS| - i
  {
    if i == |OPERATORS| then None
    else
      var (sep, op) := OPERATORS[i];
      if !HasSuffix(word, sep) then FieldSuffix(word, i + 1)
      else
        var field := ToLower(TrimSpace(word[..|word| - |sep|]));
        if IsFieldName(field) then Some((field, op)) else FieldSuffix(word, i + 1)
  }

  // ---------- the parser ----------

  /** A parsed filter or an error, and the position of the lexer. */
  datatype Outcome = Outcome(result: Result<Filter>, pos: nat)

  function JoinOr(left: Filter, right: Filter): Filter {
    if left.Or? then Or(left.children + [right]) else Or([left, right])
  }

  function JoinAnd(parts: seq<Filter>): Result<Filter> {
    if |parts| == 0 then Err("expected search term") else if |parts| == 1 then Ok(parts[0]) else Ok(And(parts))
  }

  predicate EndsAnd(k: TokenKind) {
    k == EOF || k == RParen || k == OrTok
  }

  function ParseOr(s: string, pos: nat, valid: RegexCheck): (r: Outcome)
    requires pos <= |s|
    ensures pos <= r.pos <= |s| && (r.result.Ok? ==> pos < r.pos)
    decreases |s| - pos, 6
  {
    var left := ParseAnd(s, pos, valid);
    if left.result.Err? then left else OrLoop(s, left.pos, left.result.value, valid)
  }

  function OrLoop(s: string, pos: nat, left: Filter, valid: RegexCheck): (r: Outcome)
    requires pos <= |s|
    ensures pos <= r.pos <= |s|
    decreases |s| - pos, 5
  {
    var (t, p) := Peek(s, pos, valid);
    if t.kind != OrTok then Outcome(Ok(left), p)
    else
      PeekAgain(s, pos, valid);
      var right := ParseAnd(s, Next(s, p, valid).1, valid);
      if right.result.Err? then right else OrLoop(s, right.pos, JoinOr(left, right.result.value), valid)
  }

  function ParseAnd(s: string, pos: nat, valid: RegexCheck): (r: Outcome)
    requires pos <= |s|
    ensures pos <= r.pos <= |s| && (r.result.Ok? ==> pos < r.pos)
    decreases |s| - pos, 4
  {
    AndLoop(s, pos, [], valid)
  }

  function AndLoop(s: string, pos: nat, parts: seq<Filter>, valid: RegexCheck): (r: Outcome)
    requires pos <= |s|
    ensures pos <= r.pos <= |s| && (r.result.Ok? && parts == [] ==> pos < r.pos)
    decreases |s| - pos, 3
  {
    var (t, p) := Peek(s, pos, valid);
    if EndsAnd(t.kind) then Outcome(JoinAnd(parts), p)
    else
      PeekAgain(s, pos, valid);
      var (u, q) := if t.kind == AndTok then Peek(s, Next(s, p, valid).1, valid) else (t, p);
      if EndsAnd(u.kind) then Outcome(JoinAnd(parts), q)
      else
        var part := ParseUnary(s, q, valid);
        if part.result.Err? then part else AndLoop(s, part.pos, parts + [part.result.value], valid)
  }

  function ParseUnary(s: string, pos: nat, valid: RegexCheck): (r: Outcome)
    requires pos <= |s|
    ensures pos <= r.pos <= |s| && (r.result.Ok? ==> pos < r.pos)
    decreases |s| - pos, 2
  {
    var (t, p) := Peek(s, pos, valid);
    if t.kind != NotTok then ParsePrimary(s, p, valid)
    else
      PeekAgain(s, pos, valid);
      var child := ParseUnary(s, Next(s, p, valid).1, valid);
      if child.result.Err? then child else Outcome(Ok(Not(child.result.value)), child.pos)
  }

  function ParsePrimary(s: string, pos: nat, valid: RegexCheck): (r: Outcome)
    requires pos <= |s|
    ensures pos <= r.pos <= |s| && (r.result.Ok? ==> pos < r.pos)
    decreases |s| - pos, 1
  {
    var (t, p) := Peek(s, pos, valid);
    match t.kind
    case LParen =>
      PeekAgain(s, pos, valid);
      var inner := ParseOr(s, Next(s, p, valid).1, valid);
      if inner.result.Err? then inner
      else
        var (close, q) := Next(s, inner.pos, valid);
        if close.kind == RParen then Outcome(inner.result, q) else Outcome(Err("expected )"), q)
    case Quoted =>
      PeekAgain(s, pos, valid);
      Outcome(Ok(Pred("", Contains, t.text)), Next(s, p, valid).1)
    case Regex =>
      PeekAgain(s, pos, valid);
      Outcome(Ok(Pred("", Regexp, t.text)), Next(s, p, valid).1)
    case Word =>
      PeekAgain(s, pos, valid);
      WordPredicate(s, p, t.text, valid)
    case _ => Outcome(Err("expected search term"), p)
  }

  /** parseWordPredicate: the word is still ahead. */
  function WordPredicate(s: string, pos: nat, word: string, valid: RegexCheck): (r: Outcome)
    requires pos <= |s|
    ensures pos <= r.pos <= |s| && r.result.Ok?
    ensures Next(s, pos, valid).1 <= r.pos
  {
    var p := Next(s, pos, valid).1;
    var pred := FieldPredicate(word, 0, valid);
    if pred.Some? then Outcome(Ok(pred.value), p)
    else
      var suffix := FieldSuffix(word, 0);
      if suffix.Some? then FieldValue(s, p, suffix.value.0, suffix.value.1, word, valid)
      else Outcome(Ok(Pred("", Contains, word)), p)
  }

  /** The value behind a field and an operator; without one, the word was just a word. */
  function FieldValue(s: string, pos: nat, field: string, op: Op, word: string, valid: RegexCheck): (r: Outcome)
    requires pos <= |s|
    ensures pos <= r.pos <= |s| && r.result.Ok?
  {
    var (t, p) := Peek(s, pos, valid);
    match t.kind
    case Regex => var (v, q) := Next(s, p, valid); Outcome(Ok(Pred(field, Regexp, v.text)), q)
    case Quoted => var (v, q) := Next(s, p, valid); Outcome(Ok(Pred(field, StarredOp(op, v.text), v.text)), q)
    case Word => var (v, q) := Next(s, p, valid); Outcome(Ok(Pred(field, StarredOp(op, v.text), v.text)), q)
    case _ => Outcome(Ok(Pred("", Contains, word)), p)
  }

  /** parseSearch on a trimmed text, with the demand that nothing is left. */
  function ParseFilter(s: string, valid: RegexCheck): Result<Filter> {
    var r := ParseOr(s, 0, valid);
    if r.result.Err? then r.result
    else
      var (t, p) := Peek(s, r.pos, valid);
      if t.kind == EOF then r.result else Err("unexpected token " + Peek(s, p, valid).0.text)
  }

  // ---------- pipes ----------

  /** Within quotes or a regular expression, perhaps behind a backslash. */
  datatype Scan = Plain | InQuote(escaped: bool) | InRegex(escaped: bool)

  function Step(st: Scan, c: char): Scan {
    match st
    case Plain => if c == '"' then InQuote(false) else if c == '/' then InRegex(false) else Plain
    case InQuote(escaped) =>
      if escaped then InQuote(false) else if c == '\\' then InQuote(true) else if c == '"' then Plain else st
    case InRegex(escaped) =>
      if escaped then InRegex(false) else if c == '\\' then InRegex(true) else if c == '/' then Plain else st
  }

  /** The trimmed parts of q between pipes; `buf` is what the current part has so far. */
  function Split(q: string, st: Scan, buf: string): (r: Result<seq<string>>)
    ensures r.Ok? ==> |r.value| >= 1
  {
    if q == "" then
      match st
      case Plain => Ok([TrimSpace(buf)])
      case InQuote(_) => Err("unterminated quote")
      case InRegex(_) => Err("unterminated regex")
    else if st.Plain? && q[0] == '|' then
      match Split(q[1..], Plain, "")
      case Err(m) => Err(m)
      case Ok(parts) => Ok([TrimSpace(buf)] + parts)
    else Split(q[1..], Step(st, q[0]), buf + [q[0]])
  }

  function NonEmpty(parts: seq<string>): seq<string> {
    if parts == [] then []
    else if parts[0] == "" then NonEmpty(parts[1..])
    else [parts[0]] + NonEmpty(parts[1..])
  }

  /** The search part and the commands behind pipes. */
  function SearchAndPipes(q: string): Result<(string, seq<string>)> {
    match Split(q, Plain, "")
    case Err(m) => Err(m)
    case Ok(parts) => Ok((parts[0], NonEmpty(parts[1..])))
  }

  datatype PipeCmd = Head(limit: int, args: seq<string>) | Sort(field: string, desc: bool, args: seq<string>)

  function ParsePipe(part: string): Result<PipeCmd> {
    var words := Fields(part);
    if words == [] then Err("empty pipe command")
    else
      var name := ToLower(words[0]);
      if name == "head" then
        if |words| < 2 then Err("head requires a limit")
        else
          var n := Atoi(words[1]);
          if n.None? || n.value <= 0 then Err("head limit must be a positive integer")
          else Ok(Head(n.value, words[1..]))
      else if name == "sort" then
        if |words| < 2 then Err("sort requires a field")
        else
          var desc := HasPrefix(words[1], "-");
          var field := if desc then words[1][1..] else words[1];
          if field == "" then Err("sort field required") else Ok(Sort(field, desc, words[1..]))
      else Err("unknown pipe command " + name)
  }

  function ParsePipes(parts: seq<string>): Result<seq<PipeCmd>> {
    if parts == [] then Ok([])
    else
      match ParsePipe(parts[0])
      case Err(m) => Err(m)
      case Ok(cmd) => match ParsePipes(parts[1..]) case Err(m) => Err(m) case Ok(cmds) => Ok([cmd] + cmds)
  }

  datatype Query = Query(filter: Option<Filter>, pipes: seq<PipeCmd>)

  function ParseSearch(text: string, valid: RegexCheck): Result<Query> {
    var q := TrimSpace(text);
    if q == "" || q == "*" then Ok(Query(None, []))
    else
      match SearchAndPipes(q)
      case Err(m) => Err(m)
      case Ok((search, rest)) =>
        match ParsePipes(rest)
        case Err(m) => Err(m)
        case Ok(pipes) =>
          if TrimSpace(search) == "" then Ok(Query(None, pipes))
          else match ParseFilter(TrimSpace(search), valid) case Err(m) => Err(m) case Ok(f) => Ok(Query(Some(f), pipes))
  }

  // ---------- the code ----------

  method SplitPipes(q: string) returns (r: Result<(string, seq<string>)>)
    ensures r == SearchAndPipes(q)
  {
    hide Step, TrimSpace, Split, NonEmpty, Behind;
    var parts: seq<string> := [];
    var buf := "";
    var st := Plain;
    assert q[0..] == q;
    ghost var all := Split(q, Plain, "");
    BehindNothing(all);
    for i := 0 to |q|
      invariant all == Behind(parts, Split(q[i..], st, buf))
    {
      SplitStep(q, i, st, buf);
      if st.Plain? && q[i] == '|' {
        BehindMore(parts, TrimSpace(buf), Split(q[i + 1..], Plain, ""));
        parts := parts + [TrimSpace(buf)];
        buf := "";
      } else {
        buf := buf + [q[i]];
        st := Step(st, q[i]);
      }
    }
    SplitEnds(q, parts, st, buf);
    if st.InQuote? { return Err("unterminated quote"); }
    if st.InRegex? { return Err("unterminated regex"); }
    parts := parts + [TrimSpace(buf)];
    var pipes: seq<string> := [];
    for i := 1 to |parts|
      invariant NonEmpty(parts[1..]) == pipes + NonEmpty(parts[i..])
    {
      NonEmptyStep(parts, i);
      if parts[i] != "" { pipes := pipes + [parts[i]]; }
    }
    NonEmptyEnds(parts);
    assert pipes + [] == pipes;
    return Ok((parts[0], pipes));
  }

  lemma SplitStep(q: string, i: nat, st: Scan, buf: string)
    requires i < |q|
    ensures Split(q[i..], st, buf) ==
            if st.Plain? && q[i] == '|' then
              match Split(q[i + 1..], Plain, "") case Err(m) => Err(m) case Ok(parts) => Ok([TrimSpace(buf)] + parts)
            else Split(q[i + 1..], Step(st, q[i]), buf + [q[i]])
  {
    hide Step, TrimSpace;
    assert q[i..][0] == q[i] && q[i..][1..] == q[i + 1..];
  }

  lemma SplitEnds(q: string, parts: seq<string>, st: Scan, buf: string)
    ensures Behind(parts, Split(q[|q|..], st, buf)) ==
            match st
            case Plain => Ok(parts + [TrimSpace(buf)])
            case InQuote(_) => Err("unterminated quote")
            case InRegex(_) => Err("unterminated regex")
  {
    hide TrimSpace;
  }

  lemma NonEmptyStep(parts: seq<string>, i: nat)
    requires i < |parts|
    ensures NonEmpty(parts[i..]) == (if parts[i] == "" then [] else [parts[i]]) + NonEmpty(parts[i + 1..])
  {
    assert parts[i..][0] == parts[i] && parts[i..][1..] == parts[i + 1..];
  }

  lemma NonEmptyEnds(parts: seq<string>)
    ensures NonEmpty(parts[|parts|..]) == []
  {
  }

  class Lexer {
    const input: string
    const valid: RegexCheck
    var pos: nat

    constructor (text: string, valid: RegexCheck)
      ensures input == TrimSpace(text) && this.valid == valid && pos == 0
    {
      input := TrimSpace(text);
      this.valid := valid;
      pos := 0;
    }

    method SkipSpaces()
      requires pos <= |input|
      modifies this`pos
      ensures pos == SkipSpace(input, old(pos))
    {
      while pos < |input| && IsSpace(input[pos])
        invariant old(pos) <= pos <= |input|
        invariant SkipSpace(input, pos) == SkipSpace(input, old(pos))
      {
        pos := pos + 1;
      }
    }

    /** Behind an opening quote or slash: moves behind the closing one, or to the end. */
    method ScanToClose(delim: char) returns (closed: bool)
      requires pos <= |input|
      modifies this`pos
      ensures var q := CloseAt(input, old(pos), false, delim);
              closed == (q < |input|) && pos == if closed then q + 1 else q
    {
      var escaped := false;
      ghost var q := CloseAt(input, pos, false, delim);
      while pos < |input|
        invariant old(pos) <= pos <= |input| && CloseAt(input, pos, escaped, delim) == q
        decreases |input| - pos
      {
        var ch := input[pos];
        if escaped {
          escaped := false;
          pos := pos + 1;
          continue;
        }
        if ch == '\\' {
          escaped := true;
          pos := pos + 1;
          continue;
        }
        if ch == delim {
          pos := pos + 1;
          return true;
        }
        pos := pos + 1;
      }
      return false;
    }

    method ReadToken(advance: bool) returns (t: Token)
      requires pos <= |input|
      modifies this`pos
      ensures (t, pos) == Read(input, old(pos), advance, valid)
    {
      hide SkipSpace, CloseAt, IsSpace, WordToken, UnescapeQuoted, RegexValid;
      SkipSpaces();
      if pos >= |input| { return NO_TOKEN; }
      var start := pos;
      var ch := input[pos];
      if ch == '(' {
        if advance { pos := pos + 1; }
        return Token(LParen, "(");
      }
      if ch == ')' {
        if advance { pos := pos + 1; }
        return Token(RParen, ")");
      }
      if ch == '"' || ch == '/' {
        pos := pos + 1;
        var closed := ScanToClose(ch);
        if !closed { return NO_TOKEN; }
        var text := input[start + 1..pos - 1];
        if ch == '/' && !RegexValid(text, valid) { return NO_TOKEN; }
        if !advance { pos := start; }
        return if ch == '"' then Token(Quoted, UnescapeQuoted(text)) else Token(Regex, text);
      }
      while pos < |input| && !EndsWord(input[pos])
        invariant start <= pos <= |input| && WordEnd(input, pos) == WordEnd(input, start)
      {
        pos := pos + 1;
      }
      var word := input[start..pos];
      if !advance { pos := start; }
      return WordToken(word);
    }
  }

  class Parser {
    const lex: Lexer

    constructor (lex: Lexer)
      ensures this.lex == lex
    {
      this.lex := lex;
    }

    method PeekToken() returns (t: Token)
      requires lex.pos <= |lex.input|
      modifies lex`pos
      ensures (t, lex.pos) == Peek(lex.input, old(lex.pos), lex.valid)
    {
      t := lex.ReadToken(false);
    }

    method NextToken() returns (t: Token)
      requires lex.pos <= |lex.input|
      modifies lex`pos
      ensures (t, lex.pos) == Next(lex.input, old(lex.pos), lex.valid)
    {
      t := lex.ReadToken(true);
    }

    method Or() returns (r: Result<Filter>)
      requires lex.pos <= |lex.input|
      modifies lex`pos
      ensures Outcome(r, lex.pos) == ParseOr(lex.input, old(lex.pos), lex.valid)
      decreases |lex.input| - lex.pos, 6
    {
      hide Peek, Next, ParseAnd, JoinOr;
      var first := And();
      if first.Err? { return first; }
      var left := first.value;
      ghost var all := OrLoop(lex.input, lex.pos, left, lex.valid);
      OrLoopFromPeek(lex.input, lex.pos, left, lex.valid);
      var t := PeekToken();
      while t.kind == OrTok
        invariant lex.pos <= |lex.input| && old(lex.pos) < lex.pos
        invariant t.kind == OrTok ==> Peek(lex.input, lex.pos, lex.valid) == (t, lex.pos)
        invariant t.kind == OrTok ==> OrLoop(lex.input, lex.pos, left, lex.valid) == all
        invariant t.kind != OrTok ==> all == Outcome(Ok(left), lex.pos)
        decreases |lex.input| - lex.pos
      {
        PeekAgain(lex.input, lex.pos, lex.valid);
        var _ := NextToken();
        var right := And();
        if right.Err? { return right; }
        left := JoinOr(left, right.value);
        ghost var behind := lex.pos;
        t := PeekToken();
        OrLoopFromPeek(lex.input, behind, left, lex.valid);
      }
      return Ok(left);
    }

    /** Nothing more to conjoin; the code looks up to three times. */
    method AtEndOfAnd() returns (ends: bool)
      requires lex.pos <= |lex.input|
      modifies lex`pos
      ensures var (t, p) := Peek(lex.input, old(lex.pos), lex.valid);
              lex.pos == p && ends == EndsAnd(t.kind) && (!ends ==> Peek(lex.input, p, lex.valid) == (t, p))
    {
      hide Peek, Next;
      var t := PeekToken();
      if t.kind == EOF { return true; }
      PeekAgain(lex.input, old(lex.pos), lex.valid);
      t := PeekToken();
      if t.kind == RParen { return true; }
      t := PeekToken();
      return t.kind == OrTok;
    }

    method And() returns (r: Result<Filter>)
      requires lex.pos <= |lex.input|
      modifies lex`pos
      ensures Outcome(r, lex.pos) == ParseAnd(lex.input, old(lex.pos), lex.valid)
      decreases |lex.input| - lex.pos, 4
    {
      hide Peek, Next, ParseUnary, JoinAnd;
      var parts: seq<Filter> := [];
      ghost var all := ParseAnd(lex.input, lex.pos, lex.valid);
      while true
        invariant old(lex.pos) <= lex.pos <= |lex.input|
        invariant AndLoop(lex.input, lex.pos, parts, lex.valid) == all
        decreases |lex.input| - lex.pos
      {
        ghost var at := lex.pos;
        var ends := AtEndOfAnd();
        if ends { break; }
        PeekAgain(lex.input, at, lex.valid);
        var t := PeekToken();
        if t.kind == AndTok {
          var _ := NextToken();
        }
        ends := AtEndOfAnd();
        if ends { break; }
        var part := Unary();
        if part.Err? { return part; }
        parts := parts + [part.value];
      }
      return JoinAnd(parts);
    }

    method Unary() returns (r: Result<Filter>)
      requires lex.pos <= |lex.input|
      modifies lex`pos
      ensures Outcome(r, lex.pos) == ParseUnary(lex.input, old(lex.pos), lex.valid)
      decreases |lex.input| - lex.pos, 2
    {
      hide Peek, Next, ParsePrimary;
      var t := PeekToken();
      if t.kind == NotTok {
        PeekAgain(lex.input, old(lex.pos), lex.valid);
        var _ := NextToken();
        var child := Unary();
        if child.Err? { return child; }
        return Ok(Not(child.value));
      }
      r := Primary();
    }

    method Primary() returns (r: Result<Filter>)
      requires lex.pos <= |lex.input|
      modifies lex`pos
      ensures Outcome(r, lex.pos) == ParsePrimary(lex.input, old(lex.pos), lex.valid)
      decreases |lex.input| - lex.pos, 1
    {
      hide Peek, Next, ParseOr, WordPredicate;
      var t := PeekToken();
      if t != NO_TOKEN { PeekAgain(lex.input, old(lex.pos), lex.valid); }
      match t.kind
      case LParen =>
        var _ := NextToken();
        var inner := Or();
        if inner.Err? { return inner; }
        var close := NextToken();
        if close.kind != RParen { return Err("expected )"); }
        return inner;
      case Quoted =>
        var _ := NextToken();
        return Ok(Pred("", Contains, t.text));
      case Regex =>
        var _ := NextToken();
        return Ok(Pred("", Regexp, t.text));
      case Word =>
        r := WordOrField(t.text);
      case _ =>
        return Err("expected search term");
    }

    method WordOrField(word: string) returns (r: Result<Filter>)
      requires lex.pos <= |lex.input|
      modifies lex`pos
      ensures Outcome(r, lex.pos) == WordPredicate(lex.input, old(lex.pos), word, lex.valid)
    {
      hide Peek, Next, FieldPredicate, FieldSuffix, StarredOp;
      var _ := NextToken();
      var pred := FieldPredicate(word, 0, lex.valid);
      if pred.Some? { return Ok(pred.value); }
      var suffix := FieldSuffix(word, 0);
      if suffix.Some? {
        var (field, op) := suffix.value;
        var t := PeekToken();
        match t.kind {
          case Regex =>
            var v := NextToken();
            return Ok(Pred(field, Regexp, v.text));
          case Quoted =>
            var v := NextToken();
            return Ok(Pred(field, StarredOp(op, v.text), v.text));
          case Word =>
            var v := NextToken();
            return Ok(Pred(field, StarredOp(op, v.text), v.text));
          case _ =>
        }
      }
      return Ok(Pred("", Contains, word));
    }
  }

  /** From behind a peek, the loop goes on as from before it. */
  lemma OrLoopFromPeek(s: string, pos: nat, left: Filter, valid: RegexCheck)
    requires pos <= |s|
    ensures var (t, p) := Peek(s, pos, valid);
            if t.kind == OrTok then
              Peek(s, p, valid) == (t, p) && OrLoop(s, p, left, valid) == OrLoop(s, pos, left, valid)
            else OrLoop(s, pos, left, valid) == Outcome(Ok(left), p)
  {
    hide Peek, Next, ParseAnd, JoinOr;
    if Peek(s, pos, valid).0.kind == OrTok { PeekAgain(s, pos, valid); }
  }

  /** Parsing a whole search. */
  method RunParser(text: string, valid: RegexCheck) returns (r: Result<Query>)
    ensures r == ParseSearch(text, valid)
  {
    hide TrimSpace, SearchAndPipes, ParseOr, Peek, ParsePipe;
    var q := TrimSpace(text);
    if q == "" || q == "*" { return Ok(Query(None, [])); }
    var split := SplitPipes(q);
    if split.Err? { return Err(split.error); }
    var (search, rest) := split.value;
    var pipes: seq<PipeCmd> := [];
    assert rest[0..] == rest;
    BehindNothing(ParsePipes(rest));
    for i := 0 to |rest|
      invariant ParsePipes(rest) == Behind(pipes, ParsePipes(rest[i..]))
    {
      assert rest[i..][0] == rest[i] && rest[i..][1..] == rest[i + 1..];
      var cmd := ParsePipe(rest[i]);
      if cmd.Err? { return Err(cmd.error); }
      BehindMore(pipes, cmd.value, ParsePipes(rest[i + 1..]));
      pipes := pipes + [cmd.value];
    }
    assert rest[|rest|..] == [];
    assert pipes + [] == pipes;
    if TrimSpace(search) == "" { return Ok(Query(None, pipes)); }
    var lex := new Lexer(search, valid);
    var parser := new Parser(lex);
    var filter := parser.Or();
    if filter.Err? { return Err(filter.error); }
    var t := parser.PeekToken();
    if t.kind != EOF {
      t := parser.PeekToken();
      return Err("unexpected token " + t.text);
    }
    return Ok(Query(Some(filter.value), pipes));
  }
}
