/** Searches of one word (splunklite/search.go, parseWordPredicate and parseFieldPredicate): when it is a
    comparison of a field, and when it is just a word. */
module Words {
  import opened Text
  import opened Filters
  import opened Search
  import opened Tokens

  predicate NameChar(c: char) {
    'a' <= c <= 'z' || 'A' <= c <= 'Z' || c == '_' || '0' <= c <= '9'
  }

  predicate IsName(s: string) {
    s != "" && !('0' <= s[0] <= '9') && forall c <- s :: NameChar(c)
  }

  /** The signs that compare a field with a value. */
  predicate SignFor(sign: string, op: Op) {
    match op
    case Gte => sign == ">="
    case Lte => sign == "<="
    case Ne => sign == "!="
    case Gt => sign == ">"
    case Lt => sign == "<"
    case Eq => sign == "=" || sign == ":"
    case _ => false
  }

  /** No blank, no pipe, and nothing that ends a word. */
  predicate Bare(word: string) {
    word != "" && forall c <- word :: !IsSpace(c) && c !in {'(', ')', '"', '/', '|'}
  }

  predicate Keyword(word: string) {
    ToLower(word) in {"and", "or", "not"}
  }

  /** A name, a sign and a value; a greater or less sign in front of an equality sign is one with it. */
  predicate Says(word: string, name: string, sign: string, op: Op, value: string) {
    && word == name + sign + value && IsName(name) && SignFor(sign, op) && value != ""
    && !((op == Gt || op == Lt) && value[0] == '=')
  }

  /** How the comparison is read: names without regard to case, and an equality with a star as a pattern. */
  function Comparison(name: string, op: Op, value: string): Filter {
    Pred(ToLower(name), if op == Eq && '*' in value then Like else op, value)
  }

  // ---------- signs in a word ----------

  lemma {:induction false} IndexMeans(s: string, sub: string)
    requires sub != ""
    ensures match Index(s, sub)
            case None => forall i :: 0 <= i <= |s| ==> !HasPrefix(s[i..], sub)
            case Some(at) => HasPrefix(s[at..], sub) && forall i :: 0 <= i < at ==> !HasPrefix(s[i..], sub)
    decreases |s|
  {
    assert s[0..] == s;
    if !HasPrefix(s, sub) && s != "" {
      IndexMeans(s[1..], sub);
      forall i | 0 < i <= |s| ensures s[i..] == s[1..][i - 1..] {}
    }
  }

  lemma SignChars(k: nat)
    requires k < |OPERATORS|
    ensures var sep := OPERATORS[k].0;
            sep != "" && !NameChar(sep[0]) && sep[0] in {'>', '<', '!', '=', ':'} && SignFor(sep, OPERATORS[k].1) &&
            |sep| <= 2
  {
  }

  lemma NoBlanks(s: string)
    requires forall c <- s :: !IsSpace(c)
    ensures TrimSpace(s) == s
  {
    if s != "" { assert s[0] in s && s[|s| - 1] in s; }
    TrimmedStays(s);
  }

  lemma NamesAlike(s: string)
    ensures IsFieldName(ToLower(s)) <==> IsName(s)
  {
    var t := ToLower(s);
    if IsFieldName(t) {
      forall c | c in s ensures NameChar(c) {
        var i :| 0 <= i < |s| && s[i] == c;
        assert t[i] == Lower(c);
      }
      assert t[0] == Lower(s[0]);
    }
    if IsName(s) {
      forall i | 0 <= i < |t| ensures StartsName(t[i]) || '0' <= t[i] <= '9' { assert s[i] in s; }
      assert s[0] in s && t[0] == Lower(s[0]);
    }
  }

  lemma NoSignInName(word: string, n: nat, sep: string)
    requires n <= |word| && IsName(word[..n]) && sep != "" && !NameChar(sep[0])
    ensures forall i :: 0 <= i < n ==> !HasPrefix(word[i..], sep)
  {
    forall i | 0 <= i < n ensures !HasPrefix(word[i..], sep) {
      assert word[..n][i] in word[..n];
      assert word[i..][0] == word[i];
    }
  }

  /** Where the name ends the k-th operator does not begin, and so it is passed over. */
  lemma PassedOver(word: string, n: nat, k: nat, valid: RegexCheck)
    requires Bare(word) && 0 < n < |word| && IsName(word[..n]) && !NameChar(word[n])
    requires k < |OPERATORS| && !HasPrefix(word[n..], OPERATORS[k].0)
    ensures FieldPredicate(word, k, valid) == FieldPredicate(word, k + 1, valid)
  {
    var sep := OPERATORS[k].0;
    SignChars(k);
    IndexMeans(word, sep);
    NoSignInName(word, n, sep);
    var at := Index(word, sep);
    if at.Some? && at.value > 0 {
      var i := at.value;
      assert HasPrefix(word[i..], sep);
      assert i > n;
      NoBlanks(word[..i]) by { assert forall c <- word[..i] :: c in word; }
      NamesAlike(word[..i]);
      assert word[..i][n] in word[..i];
    }
  }

  /** At the sign the comparison is read. */
  lemma ReadAt(word: string, n: nat, k: nat, valid: RegexCheck)
    requires Bare(word) && 0 < n < |word| && IsName(word[..n]) && k < |OPERATORS| &&
             HasPrefix(word[n..], OPERATORS[k].0)
    ensures var (sep, op) := OPERATORS[k];
            n + |sep| <= |word| &&
            var value := word[n + |sep|..];
            FieldPredicate(word, k, valid) == if value == "" then None else Some(Comparison(word[..n], op, value))
  {
    AroundSign(word, n, OPERATORS[k].0) by { SignChars(k); }
    hide *;
    ReadThere(word, n, k, valid);
  }

  lemma AroundSign(word: string, n: nat, sep: string)
    requires Bare(word) && 0 < n < |word| && IsName(word[..n]) && HasPrefix(word[n..], sep) && sep != "" &&
             !NameChar(sep[0])
    ensures n + |sep| <= |word| && Index(word, sep) == Some(n) && TrimSpace(word[..n]) == word[..n] &&
            IsFieldName(ToLower(word[..n]))
    ensures var value := word[n + |sep|..];
            TrimSpace(value) == value && (HasSub(value, "*") <==> '*' in value) && (value != "" ==> value[0] != '/')
  {
    hide TrimSpace, IsFieldName, ToLower, HasSub, IsName;
    IndexMeans(word, sep);
    NoSignInName(word, n, sep);
    var value := word[n + |sep|..];
    assert forall c <- word[..n] :: c in word;
    assert forall c <- value :: c in word;
    NoBlanks(word[..n]);
    NoBlanks(value);
    NamesAlike(word[..n]);
    StarWithin(value);
    assert value != "" ==> value[0] in value;
  }

  lemma ReadThere(word: string, n: nat, k: nat, valid: RegexCheck)
    requires 0 < n && k < |OPERATORS| && n + |OPERATORS[k].0| <= |word| && Index(word, OPERATORS[k].0) == Some(n)
    requires TrimSpace(word[..n]) == word[..n] && IsFieldName(ToLower(word[..n]))
    requires var value := word[n + |OPERATORS[k].0|..];
             TrimSpace(value) == value && (HasSub(value, "*") <==> '*' in value) && (value != "" ==> value[0] != '/')
    ensures var (sep, op) := OPERATORS[k];
            var value := word[n + |sep|..];
            FieldPredicate(word, k, valid) == if value == "" then None else Some(Comparison(word[..n], op, value))
  {
    hide Index, HasSub, TrimSpace, ToLower, IsFieldName, RegexValid;
  }

  lemma StarWithin(s: string)
    ensures HasSub(s, "*") <==> '*' in s
  {
    if HasSub(s, "*") {
      var i :| 0 <= i <= |s| && HasPrefix(s[i..], "*");
      assert s[i] == s[i..][..1][0];
    }
    if '*' in s {
      var i :| 0 <= i < |s| && s[i] == '*';
      assert s[i..][..1] == "*";
      assert HasPrefix(s[i..], "*");
    }
  }

  /** The operators in their order. */
  lemma Signs()
    ensures |OPERATORS| == 7 && OPERATORS[0] == (">=", Gte) && OPERATORS[1] == ("<=", Lte) && OPERATORS[2] == ("!=", Ne)
    ensures OPERATORS[3] == (">", Gt) && OPERATORS[4] == ("<", Lt) && OPERATORS[5] == ("=", Eq) &&
            OPERATORS[6] == (":", Eq)
  {
  }

  lemma {:induction false} FirstSign(word: string, n: nat, from: nat, k: nat, valid: RegexCheck)
    requires Bare(word) && 0 < n < |word| && IsName(word[..n]) && !NameChar(word[n]) && from <= k < |OPERATORS|
    requires forall j :: from <= j < k ==> !HasPrefix(word[n..], OPERATORS[j].0)
    ensures FieldPredicate(word, from, valid) == FieldPredicate(word, k, valid)
    decreases k - from
  {
    hide *;
    if from < k {
      PassedOver(word, n, from, valid);
      FirstSign(word, n, from + 1, k, valid);
    }
  }

  lemma SaysIsRead(word: string, name: string, sign: string, op: Op, value: string, valid: RegexCheck)
    requires Bare(word) && Says(word, name, sign, op, value)
    ensures FieldPredicate(word, 0, valid) == Some(Comparison(name, op, value))
  {
    var n := |name|;
    var k := PlaceOf(name, sign, op, value);
    assert word[..n] == name && word[n..] == sign + value && word[n..][0] == sign[0];
    hide FieldPredicate, Says, IsName, SignFor;
    FirstSign(word, n, 0, k, valid);
    assert word[n + |sign|..] == value;
    ReadAt(word, n, k, valid);
  }

  /** The place of the sign among the operators, none of which comes before it. */
  lemma PlaceOf(name: string, sign: string, op: Op, value: string) returns (k: nat)
    requires SignFor(sign, op) && value != "" && !((op == Gt || op == Lt) && value[0] == '=')
    ensures k < |OPERATORS| && OPERATORS[k] == (sign, op) && sign != "" && !NameChar(sign[0])
    ensures HasPrefix(sign + value, sign) && forall j :: 0 <= j < k ==> !HasPrefix(sign + value, OPERATORS[j].0)
  {
    Signs();
    k := if op == Gte then 0 else if op == Lte then 1 else if op == Ne then 2 else if op == Gt then 3
         else if op == Lt then 4 else if sign == "=" then 5 else 6;
    var rest := sign + value;
    assert rest[..|sign|] == sign && rest[..1] == [sign[0]];
    assert rest[..2] == if |sign| == 1 then [sign[0], value[0]] else sign;
  }

  // ---------- words that say nothing ----------

  /** Nothing but a name and a sign of two characters. */
  predicate Unfinished(word: string) {
    |word| > 2 && IsName(word[..|word| - 2]) && word[|word| - 2..] in {">=", "<="}
  }

  lemma UnfinishedSaysNothing(word: string, valid: RegexCheck)
    requires Bare(word) && Unfinished(word)
    ensures FieldPredicate(word, 0, valid) == None
  {
    Signs();
    var n := |word| - 2;
    var k := if word[n..] == ">=" then 0 else 1;
    assert word[n] == word[n..][0];
    assert word[n..][..2] == word[n..];
    FirstSign(word, n, 0, k, valid);
    ReadAt(word, n, k, valid);
  }

  ghost predicate SaysSomething(word: string) {
    exists name, sign, op, value :: Says(word, name, sign, op, value)
  }

  lemma {:induction false} NothingSaid(word: string, k: nat, valid: RegexCheck)
    requires Bare(word) && !SaysSomething(word) && !Unfinished(word) && k <= |OPERATORS|
    ensures FieldPredicate(word, k, valid) == None
    decreases |OPERATORS| - k
  {
    if k < |OPERATORS| {
      NothingSaid(word, k + 1, valid);
      var (sep, op) := OPERATORS[k];
      SignChars(k);
      IndexMeans(word, sep);
      var at := Index(word, sep);
      if at.Some? && at.value > 0 {
        var n := at.value;
        assert forall c <- word[..n] :: c in word;
        NoBlanks(word[..n]);
        NamesAlike(word[..n]);
        if IsName(word[..n]) { NothingThere(word, n, k, valid); }
      }
    }
  }

  /** A name, an operator and more. */
  lemma SomethingThere(word: string, n: nat, k: nat)
    requires 0 < n < |word| && IsName(word[..n])
    requires k < |OPERATORS| && HasPrefix(word[n..], OPERATORS[k].0) && |word| > n + |OPERATORS[k].0|
    ensures SaysSomething(word) || Unfinished(word)
  {
    hide IsName;
    var (sep, op) := OPERATORS[k];
    SignChars(k);
    var name, value := word[..n], word[n + |sep|..];
    assert word[n..] == sep + value;
    assert word == name + sep + value;
    if (op == Gt || op == Lt) && value[0] == '=' {
      Signs();
      assert |sep| == 1;
      var sign, more, cmp := sep + "=", value[1..], if op == Gt then Gte else Lte;
      assert value == "=" + more;
      assert word == name + sign + more;
      if more != "" {
        assert Says(word, name, sign, cmp, more);
      } else {
        assert sign == if op == Gt then ">=" else "<=";
        assert word[|word| - 2..] == sign && word[..|word| - 2] == name;
      }
    } else {
      assert Says(word, name, sep, op, value);
    }
  }

  lemma NothingThere(word: string, n: nat, k: nat, valid: RegexCheck)
    requires Bare(word) && !SaysSomething(word) && !Unfinished(word) && 0 < n < |word| && IsName(word[..n])
    requires k < |OPERATORS| && HasPrefix(word[n..], OPERATORS[k].0)
    ensures FieldPredicate(word, k, valid) == None
  {
    hide SaysSomething, Unfinished, FieldPredicate, IsName;
    ReadAt(word, n, k, valid);
    if |word| > n + |OPERATORS[k].0| { SomethingThere(word, n, k); }
  }

  // ---------- the whole search ----------

  lemma {:induction false} OnePart(q: string, buf: string)
    requires forall c <- q :: c !in {'"', '/', '|'}
    ensures Split(q, Plain, buf) == Ok([TrimSpace(buf + q)])
    decreases |q|
  {
    hide TrimSpace;
    if q == "" {
      assert buf + q == buf;
    } else {
      assert q[0] in q && forall c <- q[1..] :: c in q;
      OnePart(q[1..], buf + [q[0]]);
      assert buf + [q[0]] + q[1..] == buf + q;
    }
  }

  lemma {:induction false} WordRuns(s: string, pos: nat)
    requires pos <= |s| && forall c <- s :: !EndsWord(c)
    ensures WordEnd(s, pos) == |s|
    decreases |s| - pos
  {
    if pos < |s| {
      assert s[pos] in s;
      WordRuns(s, pos + 1);
    }
  }

  lemma OneToken(word: string, valid: RegexCheck)
    requires Bare(word) && !Keyword(word)
    ensures Lexed(word, 0, valid) == Cons(Token(Word, word), Nil)
  {
    assert word[0] in word;
    WordRuns(word, 0);
    assert word[0..|word|] == word;
    assert Next(word, 0, valid) == (Token(Word, word), |word|);
    assert Lexed(word, |word|, valid) == Nil;
  }

  lemma OneWordIsRead(word: string, valid: RegexCheck)
    requires Bare(word) && !Keyword(word) && word != "*"
    ensures ParseSearch(word, valid) == Ok(Query(Some(
              match FieldPredicate(word, 0, valid) case Some(p) => p case None => Pred("", Contains, word)), []))
  {
    OneToken(word, valid);
    OneWordIsSplit(word);
    var token := Token(Word, word);
    var p := match FieldPredicate(word, 0, valid) case Some(p) => p case None => Pred("", Contains, word);
    WordRead(word, p, valid);
    OneLeaf(token, p, valid);
    hide FieldPredicate, ReadOr, Lexed, SearchAndPipes, TrimSpace;
    ParserReadsTokens(word, valid);
    assert ParseFilter(word, valid) == Ok(p);
    hide ParseFilter;
  }

  lemma OneWordIsSplit(word: string)
    requires Bare(word)
    ensures TrimSpace(word) == word && SearchAndPipes(word) == Ok((word, []))
  {
    NoBlanks(word);
    hide TrimSpace;
    OnePart(word, "");
    assert "" + word == word && [word][1..] == [];
  }

  lemma WordRead(word: string, p: Filter, valid: RegexCheck)
    requires p == match FieldPredicate(word, 0, valid) case Some(p) => p case None => Pred("", Contains, word)
    ensures ReadWord(word, Nil, valid) == Parsed(p, Nil)
  {
    hide FieldPredicate, FieldSuffix;
  }

  lemma OneLeaf(token: Token, p: Filter, valid: RegexCheck)
    requires token.kind == Word && ReadWord(token.text, Nil, valid) == Parsed(p, Nil)
    ensures ReadOr(Cons(token, Nil), valid) == Parsed(p, Nil)
  {
    hide ReadWord;
    var ts := Cons(token, Nil);
    assert ReadPrimary(ts, valid) == Parsed(p, Nil);
    assert ReadUnary(ts, valid) == Parsed(p, Nil);
    assert ReadAndTail([p], Nil, valid) == Parsed(p, Nil);
    assert [] + [p] == [p];
    assert ReadAndTail([], ts, valid) == Parsed(p, Nil);
    assert ReadOrTail(p, Nil, valid) == Parsed(p, Nil);
  }

  lemma SaysNoKeyword(word: string, name: string, sign: string, op: Op, value: string)
    requires Says(word, name, sign, op, value)
    ensures !Keyword(word) && word != "*"
  {
    var c := sign[0];
    assert word[|name|] == c && ToLower(word)[|name|] == Lower(c) == c;
    assert word[0] == name[0] && name[0] in name;
  }

  /** A search that is a name, a sign and a bare value compares that field by that sign with that value. */
  lemma FieldWordIsRead(name: string, sign: string, op: Op, value: string, valid: RegexCheck)
    requires Bare(name + sign + value) && Says(name + sign + value, name, sign, op, value)
    ensures ParseSearch(name + sign + value, valid) == Ok(Query(Some(Comparison(name, op, value)), []))
  {
    var word := name + sign + value;
    SaysNoKeyword(word, name, sign, op, value);
    SaysIsRead(word, name, sign, op, value, valid);
    hide ParseSearch, FieldPredicate;
    OneWordIsRead(word, valid);
  }

  lemma NameIsNotEmpty(word: string, name: string, sign: string, op: Op, value: string)
    requires Says(word, name, sign, op, value)
    ensures ToLower(name) != ""
  {
  }

  /** Any other bare word is searched as it is, and these are all: a bare word is a search for itself exactly
      if it is no name, sign and value. */
  lemma PlainWordIff(word: string, valid: RegexCheck)
    requires Bare(word) && !Keyword(word) && word != "*"
    ensures ParseSearch(word, valid) == Ok(Query(Some(Pred("", Contains, word)), [])) <==>
              !exists name, sign, op, value :: Says(word, name, sign, op, value)
  {
    hide ParseSearch, FieldPredicate, Says, Unfinished;
    OneWordIsRead(word, valid);
    if name, sign, op, value :| Says(word, name, sign, op, value) {
      SaysIsRead(word, name, sign, op, value, valid);
      NameIsNotEmpty(word, name, sign, op, value);
    } else if Unfinished(word) {
      UnfinishedSaysNothing(word, valid);
    } else {
      NothingSaid(word, 0, valid);
    }
  }

  // ---------- a value behind the word ----------

  lemma SameName(word: string, a: string, b: string)
    requires a <= word && b <= word && IsName(a) && IsName(b)
    requires |a| < |word| && |b| < |word| && !NameChar(word[|a|]) && !NameChar(word[|b|])
    ensures a == b
  {
    assert forall i :: 0 <= i < |a| ==> a[i] in a && word[i] == a[i];
    assert forall i :: 0 <= i < |b| ==> b[i] in b && word[i] == b[i];
  }

  lemma NameAndSignSayNothing(name: string, sign: string, op: Op)
    requires IsName(name) && SignFor(sign, op)
    ensures !SaysSomething(name + sign)
  {
    forall n, s, o, v ensures !Says(name + sign, n, s, o, v) { NotSaid(name, sign, op, n, s, o, v); }
  }

  lemma NotSaid(name: string, sign: string, op: Op, n: string, s: string, o: Op, v: string)
    requires IsName(name) && SignFor(sign, op)
    ensures !Says(name + sign, n, s, o, v)
  {
    var word := name + sign;
    if word == n + s + v && IsName(n) && SignFor(s, o) && v != "" {
      assert word[|name|] == sign[0] && word[|n|] == s[0];
      SameName(word, name, n);
      assert sign == word[|name|..] == s + v;
      if !((o == Gt || o == Lt) && v[0] == '=') { SignsApart(sign, op, s, o, v); }
    }
  }

  lemma SignsApart(sign: string, op: Op, s: string, o: Op, v: string)
    requires SignFor(sign, op) && SignFor(s, o) && v != "" && !((o == Gt || o == Lt) && v[0] == '=')
    ensures sign != s + v
  {
    assert |sign| == 2 ==> sign[1] == '=' && sign[0] != '=' && sign[0] != ':';
    assert (s + v)[0] == s[0];
    assert |s| == 1 ==> (s + v)[1] == v[0];
  }

  /** A name and a sign wait for a value. */
  lemma SuffixIsFound(name: string, sign: string, op: Op)
    requires IsName(name) && SignFor(sign, op)
    ensures FieldSuffix(name + sign, 0) == Some((ToLower(name), op))
  {
    Signs();
    var word := name + sign;
    var k := if op == Gte then 0 else if op == Lte then 1 else if op == Ne then 2 else if op == Gt then 3
             else if op == Lt then 4 else if sign == "=" then 5 else 6;
    assert OPERATORS[k] == (sign, op);
    NoEarlierSuffix(name, sign, op, 0, k);
    assert word[|word| - |sign|..] == sign && word[..|word| - |sign|] == name;
    NamesAlike(name);
    NameHasNoBlanks(name);
  }

  lemma NameHasNoBlanks(name: string)
    requires IsName(name)
    ensures TrimSpace(name) == name
  {
    assert forall c :: NameChar(c) ==> !IsSpace(c);
    NoBlanks(name);
  }

  lemma {:induction false} NoEarlierSuffix(name: string, sign: string, op: Op, from: nat, k: nat)
    requires IsName(name) && SignFor(sign, op) && from <= k < |OPERATORS| && OPERATORS[k] == (sign, op)
    ensures FieldSuffix(name + sign, from) == FieldSuffix(name + sign, k)
    decreases k - from
  {
    hide *;
    if from < k {
      OneSignEarlier(name, sign, op, from, k);
      NoEarlierSuffix(name, sign, op, from + 1, k);
    }
  }

  lemma OneSignEarlier(name: string, sign: string, op: Op, from: nat, k: nat)
    requires IsName(name) && from < k < |OPERATORS| && OPERATORS[k] == (sign, op)
    ensures FieldSuffix(name + sign, from) == FieldSuffix(name + sign, from + 1)
  {
    hide *;
    EarlierSign(sign, op, from, k);
    NotSuffix(name, sign, OPERATORS[from].0);
    SuffixStep(name + sign, from);
  }

  lemma EarlierSign(sign: string, op: Op, from: nat, k: nat)
    requires from < k < |OPERATORS| && OPERATORS[k] == (sign, op)
    ensures var sep := OPERATORS[from].0; 0 < |sign| <= |sep| <= 2 && sep != sign && !NameChar(sep[0])
  {
    Signs();
    SignChars(from);
  }

  lemma SuffixStep(word: string, k: nat)
    requires k < |OPERATORS| && !HasSuffix(word, OPERATORS[k].0)
    ensures FieldSuffix(word, k) == FieldSuffix(word, k + 1)
  {
    hide HasSuffix, IsFieldName, ToLower, TrimSpace;
  }

  lemma NotSuffix(name: string, sign: string, sep: string)
    requires IsName(name) && 0 < |sign| <= |sep| <= 2 && sep != sign && !NameChar(sep[0])
    ensures !HasSuffix(name + sign, sep)
  {
    var word, last := name + sign, name[|name| - 1];
    assert last in name;
    if |sep| == |sign| {
      assert word[|word| - |sep|..] == sign;
    } else {
      assert word[|word| - 2..] == [last] + sign;
      assert ([last] + sign)[0] == last;
    }
  }

  /** A name and a sign, for themselves just a word, are read with the value behind them: a word, a quoted
      text or a regular expression. */
  lemma ValueBehindIsRead(name: string, sign: string, op: Op, token: Token, rest: Toks, valid: RegexCheck)
    requires IsName(name) && SignFor(sign, op) && token.kind in {Word, Quoted, Regex}
    ensures ReadWord(name + sign, Cons(token, rest), valid) ==
              Parsed(if token.kind == Regex then Pred(ToLower(name), Regexp, token.text)
                     else Pred(ToLower(name), if op == Eq && '*' in token.text then Like else op, token.text), rest)
    ensures ReadWord(name + sign, Nil, valid) == Parsed(Pred("", Contains, name + sign), Nil)
  {
    var word := name + sign;
    NameAndSignSayNothing(name, sign, op);
    NameIsBare(name, sign, op);
    SuffixIsFound(name, sign, op);
    StarWithin(token.text);
    hide SaysSomething, FieldPredicate, FieldSuffix, HasSub, ToLower, IsName, SignFor, Unfinished;
    if Unfinished(word) { UnfinishedSaysNothing(word, valid); } else { NothingSaid(word, 0, valid); }
    hide *;
    ReadsValue(word, ToLower(name), op, token, rest, valid);
  }

  lemma ReadsValue(word: string, field: string, op: Op, token: Token, rest: Toks, valid: RegexCheck)
    requires FieldPredicate(word, 0, valid) == None && FieldSuffix(word, 0) == Some((field, op))
    requires token.kind in {Word, Quoted, Regex} && (HasSub(token.text, "*") <==> '*' in token.text)
    ensures ReadWord(word, Cons(token, rest), valid) ==
              Parsed(if token.kind == Regex then Pred(field, Regexp, token.text)
                     else Pred(field, if op == Eq && '*' in token.text then Like else op, token.text), rest)
    ensures ReadWord(word, Nil, valid) == Parsed(Pred("", Contains, word), Nil)
  {
    hide FieldPredicate, FieldSuffix, HasSub;
  }

  lemma NameIsBare(name: string, sign: string, op: Op)
    requires IsName(name) && SignFor(sign, op)
    ensures Bare(name + sign)
  {
    assert forall c :: NameChar(c) ==> !IsSpace(c) && c !in {'(', ')', '"', '/', '|'};
    assert forall c <- sign :: c in {'>', '<', '!', '=', ':'};
  }

  // ---------- pipes ----------

  lemma {:induction false} FieldRuns(a: string, b: string, word: string)
    requires (forall c <- a :: !IsSpace(c)) && (b == "" || IsSpace(b[0]))
    ensures FieldsFrom(a + b, word) == FieldsFrom(b, word + a)
    decreases |a|
  {
    if a == "" {
      assert a + b == b && word + a == word;
    } else {
      assert a[0] in a && (a + b)[0] == a[0] && (a + b)[1..] == a[1..] + b;
      assert forall c <- a[1..] :: c in a;
      FieldRuns(a[1..], b, word + [a[0]]);
      assert word + [a[0]] + a[1..] == word + a;
    }
  }

  lemma TwoFields(a: string, b: string)
    requires a != "" && b != "" && (forall c <- a :: !IsSpace(c)) && (forall c <- b :: !IsSpace(c))
    ensures Fields(a + " " + b) == [a, b]
  {
    var rest := " " + b;
    assert a + " " + b == a + rest && rest[1..] == b && b + "" == b;
    FieldRuns(a, rest, "");
    FieldRuns(b, "", "");
    assert "" + a == a && "" + b == b;
  }

  /** `head` with a positive number takes so many events. */
  lemma HeadIsRead(n: nat)
    requires 0 < n < 0x8000_0000_0000_0000
    ensures ParsePipe("head " + Decimal(n)) == Ok(Head(n, [Decimal(n)]))
  {
    var number := Decimal(n);
    DecimalDigits(n);
    DigitsOfDecimal(n);
    assert number[0] in number;
    assert "head" + " " + number == "head " + number;
    TwoFields("head", number);
    assert ToLower("head") == "head";
    assert ["head", number][1..] == [number];
    assert Atoi(number) == Some(n);
    hide Decimal, Fields, Atoi;
  }

  /** `sort` with a field sorts by it, downwards with a minus sign in front. */
  lemma SortIsRead(field: string, down: bool)
    requires field != "" && field[0] != '-' && forall c <- field :: !IsSpace(c)
    ensures var arg := if down then "-" + field else field; ParsePipe("sort " + arg) == Ok(Sort(field, down, [arg]))
  {
    var arg := if down then "-" + field else field;
    assert forall c <- arg :: c == '-' || c in field;
    assert "sort" + " " + arg == "sort " + arg;
    TwoFields("sort", arg);
    assert ToLower("sort") == "sort";
    assert ["sort", arg][1..] == [arg];
    assert HasPrefix(arg, "-") == down by { assert arg[..1] == [arg[0]]; }
    assert down ==> arg[1..] == field;
    hide Fields, HasPrefix;
  }

  lemma {:induction false} TwoPartsFrom(q: string, more: string, buf: string)
    requires (forall c <- q :: c !in {'"', '/', '|'}) && (forall c <- more :: c !in {'"', '/', '|'})
    ensures Split(q + "|" + more, Plain, buf) == Ok([TrimSpace(buf + q), TrimSpace(more)])
    decreases |q|
  {
    hide TrimSpace;
    var s := q + "|" + more;
    if q == "" {
      assert s[0] == '|' && s[1..] == more && buf + q == buf && "" + more == more;
      OnePart(more, "");
      assert [TrimSpace(buf)] + [TrimSpace(more)] == [TrimSpace(buf), TrimSpace(more)];
    } else {
      assert q[0] in q && forall c <- q[1..] :: c in q;
      assert s[0] == q[0] && s[1..] == q[1..] + "|" + more;
      TwoPartsFrom(q[1..], more, buf + [q[0]]);
      assert buf + [q[0]] + q[1..] == buf + q;
    }
  }

  /** A bare word, a pipe and a command: the search is that for the word, and the command follows. */
  lemma PipedWordIsRead(word: string, part: string, cmd: PipeCmd, valid: RegexCheck)
    requires Bare(word) && !Keyword(word) && word != "*"
    requires part != "" && Trimmed(part) && (forall c <- part :: c !in {'"', '/', '|'}) && ParsePipe(part) == Ok(cmd)
    ensures ParseSearch(word, valid).Ok? &&
            ParseSearch(word + "|" + part, valid) == Ok(Query(ParseSearch(word, valid).value.filter, [cmd]))
  {
    OneWordIsRead(word, valid);
    OneWordIsSplit(word);
    PipedIsSplit(word, part);
    OnePipe(part, cmd);
    assert word != "" && word + "|" + part != "";
    hide SearchAndPipes, ParseFilter, TrimSpace, FieldPredicate, ParsePipes, Bare, Keyword;
    assert ParsePipes([]) == Ok([]) by { NoPipe(); }
  }

  lemma NoPipe()
    ensures ParsePipes([]) == Ok([])
  {
  }

  lemma OnePipe(part: string, cmd: PipeCmd)
    requires ParsePipe(part) == Ok(cmd)
    ensures ParsePipes([part]) == Ok([cmd])
  {
    hide ParsePipe;
    assert [part][1..] == [] && [cmd] + [] == [cmd];
  }

  lemma OneNonEmpty(part: string)
    requires part != ""
    ensures NonEmpty([part]) == [part]
  {
    assert [part][1..] == [];
  }

  lemma PipedIsSplit(word: string, part: string)
    requires Bare(word) && part != "" && Trimmed(part) && forall c <- part :: c !in {'"', '/', '|'}
    ensures var q := word + "|" + part; TrimSpace(q) == q && q != "*" && SearchAndPipes(q) == Ok((word, [part]))
  {
    var q := word + "|" + part;
    assert word[0] in word && q[0] == word[0] && q[|q| - 1] == part[|part| - 1];
    TrimmedStays(q);
    TrimmedStays(part);
    NoBlanks(word);
    TwoPartsFrom(word, part, "");
    assert "" + word == word && [word, part][1..] == [part] && [part][1..] == [];
    hide TrimSpace, Split;
    OneNonEmpty(part);
  }

  /** Empty parts between pipes do not count; the others stay in order. */
  lemma {:induction false} EmptyPartsDoNotCount(a: seq<string>, part: string, b: seq<string>)
    ensures NonEmpty(a + [part] + b) == NonEmpty(a) + (if part == "" then [] else [part]) + NonEmpty(b)
    decreases |a|
  {
    var all := a + [part] + b;
    if a == [] {
      assert all[0] == part && all[1..] == b;
      assert [] + ((if part == "" then [] else [part]) + NonEmpty(b)) ==
               (if part == "" then [] else [part]) + NonEmpty(b);
    } else {
      assert all[0] == a[0] && all[1..] == a[1..] + [part] + b;
      EmptyPartsDoNotCount(a[1..], part, b);
    }
  }

  // ---------- several words ----------

  function Reading(word: string, valid: RegexCheck): Filter {
    match FieldPredicate(word, 0, valid) case Some(p) => p case None => Pred("", Contains, word)
  }

  function Readings(words: seq<string>, valid: RegexCheck): seq<Filter> {
    if words == [] then [] else [Reading(words[0], valid)] + Readings(words[1..], valid)
  }

  /** A name and a sign, and nothing behind. */
  ghost predicate Waits(word: string) {
    exists name, sign, op :: IsName(name) && SignFor(sign, op) && word == name + sign
  }

  lemma {:induction false} OnlyWaitingWordsHaveSuffix(word: string, k: nat)
    requires Bare(word) && k <= |OPERATORS| && FieldSuffix(word, k).Some?
    ensures Waits(word)
    decreases |OPERATORS| - k
  {
    var (sep, op) := OPERATORS[k];
    SignChars(k);
    var name := word[..if |sep| <= |word| then |word| - |sep| else 0];
    assert forall c <- name :: c in word;
    NoBlanks(name);
    NamesAlike(name);
    if HasSuffix(word, sep) && IsName(name) {
      assert word == name + sep;
    } else {
      hide Bare, IsName, Waits, HasSuffix, IsFieldName, ToLower, TrimSpace, SignFor;
      assert FieldSuffix(word, k) == FieldSuffix(word, k + 1) by { SuffixPasses(word, k); }
      OnlyWaitingWordsHaveSuffix(word, k + 1);
    }
  }

  lemma SuffixPasses(word: string, k: nat)
    requires k < |OPERATORS| && var sep := OPERATORS[k].0;
             HasSuffix(word, sep) ==> !IsFieldName(ToLower(TrimSpace(word[..|word| - |sep|])))
    ensures FieldSuffix(word, k) == FieldSuffix(word, k + 1)
  {
    hide HasSuffix, IsFieldName, ToLower, TrimSpace;
  }

  ghost predicate Simple(words: seq<string>) {
    forall w <- words :: Bare(w) && !Keyword(w) && !Waits(w)
  }

  function WordTokens(words: seq<string>): Toks {
    if words == [] then Nil else Cons(Token(Word, words[0]), WordTokens(words[1..]))
  }

  lemma OneOfWords(word: string, rest: Toks, valid: RegexCheck)
    requires Bare(word) && !Waits(word)
    ensures ReadUnary(Cons(Token(Word, word), rest), valid) == Parsed(Reading(word, valid), rest)
  {
    if FieldSuffix(word, 0).Some? { OnlyWaitingWordsHaveSuffix(word, 0); }
    hide FieldPredicate, FieldSuffix, Waits, Bare;
    assert ReadPrimary(Cons(Token(Word, word), rest), valid) == ReadWord(word, rest, valid);
  }

  lemma {:induction false} WordsConjoin(parts: seq<Filter>, words: seq<string>, valid: RegexCheck)
    requires Simple(words)
    ensures ReadAndTail(parts, WordTokens(words), valid) == Conjunction(parts + Readings(words, valid), Nil)
    decreases |words|
  {
    hide *;
    if words == [] {
      NoneConjoin(parts, valid);
    } else {
      var word, rest := words[0], words[1..];
      SimpleRest(words);
      OneOfWords(word, WordTokens(rest), valid);
      TokensStep(words);
      AndTailStep(parts, Token(Word, word), WordTokens(rest), Reading(word, valid), valid);
      ReadingsStep(words, valid);
      assert parts + [Reading(word, valid)] + Readings(rest, valid) ==
               parts + ([Reading(word, valid)] + Readings(rest, valid));
      WordsConjoin(parts + [Reading(word, valid)], rest, valid);
    }
  }

  lemma SimpleRest(words: seq<string>)
    requires words != [] && Simple(words)
    ensures Simple(words[1..]) && Bare(words[0]) && !Keyword(words[0]) && !Waits(words[0]) && words[0] != ""
  {
    hide Keyword, Waits;
    assert words[0] in words && forall w <- words[1..] :: w in words;
  }

  lemma ReadingsStep(words: seq<string>, valid: RegexCheck)
    requires words != []
    ensures Readings(words, valid) == [Reading(words[0], valid)] + Readings(words[1..], valid)
  {
  }

  lemma NoneConjoin(parts: seq<Filter>, valid: RegexCheck)
    ensures ReadAndTail(parts, WordTokens([]), valid) == Conjunction(parts + Readings([], valid), Nil)
  {
    assert parts + [] == parts;
  }

  lemma AndTailStep(parts: seq<Filter>, token: Token, rest: Toks, part: Filter, valid: RegexCheck)
    requires token.kind == Word && ReadUnary(Cons(token, rest), valid) == Parsed(part, rest)
    ensures ReadAndTail(parts, Cons(token, rest), valid) == ReadAndTail(parts + [part], rest, valid)
  {
    hide ReadUnary;
  }

  lemma {:induction false} WordRunsTo(s: string, pos: nat, end: nat)
    requires pos <= end <= |s| && (forall i :: pos <= i < end ==> !EndsWord(s[i])) && (end < |s| ==> EndsWord(s[end]))
    ensures WordEnd(s, pos) == end
    decreases end - pos
  {
    if pos < end { WordRunsTo(s, pos + 1, end); }
  }

  /** One word of several, perhaps behind a blank. */
  lemma NextWord(s: string, pos: nat, start: nat, word: string, valid: RegexCheck)
    requires pos <= start <= pos + 1 && start + |word| <= |s| && s[start..start + |word|] == word && Bare(word) &&
             !Keyword(word)
    requires pos < start ==> s[pos] == ' '
    requires start + |word| < |s| ==> s[start + |word|] == ' '
    ensures SkipSpace(s, pos) == start && Next(s, pos, valid) == (Token(Word, word), start + |word|)
  {
    var end := start + |word|;
    WordChars(s, start, word);
    WordRunsTo(s, start, end);
    SkipOne(s, pos, start);
    NoKeyword(word);
    hide *;
    ReadsWordAt(s, pos, start, end, valid);
  }

  lemma NoKeyword(word: string)
    requires !Keyword(word)
    ensures WordToken(word) == Token(Word, word)
  {
  }

  lemma WordChars(s: string, start: nat, word: string)
    requires start + |word| <= |s| && s[start..start + |word|] == word && Bare(word)
    ensures forall i :: start <= i < start + |word| ==> !EndsWord(s[i])
    ensures |word| > 0 && s[start] !in {'(', ')', '"', '/'} && !IsSpace(s[start])
  {
    forall i | start <= i < start + |word| ensures s[i] in word { assert s[i] == s[start..start + |word|][i - start]; }
  }

  lemma ReadsWordAt(s: string, pos: nat, start: nat, end: nat, valid: RegexCheck)
    requires pos <= start < end <= |s| && SkipSpace(s, pos) == start && WordEnd(s, start) == end
    requires s[start] !in {'(', ')', '"', '/'}
    ensures Next(s, pos, valid) == (WordToken(s[start..end]), end)
  {
    hide SkipSpace, WordEnd, CloseAt, UnescapeQuoted, RegexValid, WordToken;
  }

  lemma SkipOne(s: string, pos: nat, start: nat)
    requires pos <= start <= pos + 1 && start < |s| && !IsSpace(s[start]) && (pos < start ==> s[pos] == ' ')
    ensures SkipSpace(s, pos) == start
  {
    assert SkipSpace(s, start) == start;
  }

  lemma {:induction false} WordsLex(s: string, pos: nat, start: nat, words: seq<string>, valid: RegexCheck)
    requires pos <= start <= |s| && start <= pos + 1 && s[start..] == Join(words, " ") && Simple(words)
    requires pos < start ==> s[pos] == ' '
    requires words != [] || pos == |s|
    ensures Lexed(s, pos, valid) == WordTokens(words)
    decreases |words|
  {
    hide *;
    if words == [] {
      NothingLexed(s, valid);
    } else {
      var word, rest := words[0], words[1..];
      var end := start + |word|;
      SimpleRest(words);
      FirstJoined(s, start, words);
      NextWord(s, pos, start, word, valid);
      NothingJoined();
      LexedStep(s, pos, valid);
      TokensStep(words);
      WordsLex(s, end, if rest == [] then end else end + 1, rest, valid);
    }
  }

  lemma NothingLexed(s: string, valid: RegexCheck)
    ensures Lexed(s, |s|, valid) == WordTokens([])
  {
    assert SkipSpace(s, |s|) == |s|;
    hide Read;
  }

  lemma LexedStep(s: string, pos: nat, valid: RegexCheck)
    requires pos <= |s| && SkipSpace(s, pos) < |s|
    ensures Lexed(s, pos, valid) == Cons(Next(s, pos, valid).0, Lexed(s, Next(s, pos, valid).1, valid))
  {
    hide Read, SkipSpace;
  }

  lemma TokensStep(words: seq<string>)
    requires words != []
    ensures WordTokens(words) == Cons(Token(Word, words[0]), WordTokens(words[1..]))
  {
  }

  /** The first of joined words, and what is behind it. */
  lemma FirstJoined(s: string, start: nat, words: seq<string>)
    requires start <= |s| && words != [] && s[start..] == Join(words, " ")
    ensures var end := start + |words[0]|;
            end <= |s| && s[start..end] == words[0] &&
            if words[1..] == [] then s[end..] == Join(words[1..], " ") && end == |s|
            else end < |s| && s[end] == ' ' && s[end + 1..] == Join(words[1..], " ")
  {
    var word, rest := words[0], words[1..];
    var joined, more := Join(words, " "), Join(rest, " ");
    var end := start + |word|;
    NothingJoined();
    hide Join;
    assert joined == if rest == [] then word else word + " " + more by { JoinStep(words); }
    assert s[start..end] == joined[..|word|];
    if rest != [] {
      assert s[end] == joined[|word|];
      assert s[end + 1..] == joined[|word| + 1..];
    }
  }

  lemma JoinStep(words: seq<string>)
    requires words != []
    ensures Join(words, " ") == if words[1..] == [] then words[0] else words[0] + " " + Join(words[1..], " ")
  {
  }

  lemma NothingJoined()
    ensures Join([], " ") == ""
  {
  }

  lemma {:induction false} JoinedChars(words: seq<string>)
    requires Simple(words) && words != []
    ensures var s := Join(words, " "); s != "" && Trimmed(s) && forall c <- s :: c !in {'"', '/', '|'}
    decreases |words|
  {
    var word, rest := words[0], words[1..];
    assert word in words && forall w <- rest :: w in words;
    assert word[0] in word && word[|word| - 1] in word;
    if rest != [] {
      JoinedChars(rest);
      var s, more := Join(words, " "), Join(rest, " ");
      assert s == word + " " + more;
      assert s[0] == word[0] && s[|s| - 1] == more[|more| - 1];
    }
  }

  /** Words with blanks between them are searched together: all of them have to be there, each read for itself. */
  lemma WordsAreRead(words: seq<string>, valid: RegexCheck)
    requires |words| >= 2 && Simple(words)
    ensures ParseSearch(Join(words, " "), valid) == Ok(Query(Some(And(Readings(words, valid))), []))
  {
    var s := Join(words, " ");
    var all := Readings(words, valid);
    JoinedChars(words);
    assert words[0] in words;
    JoinedIsLong(words);
    assert s[0..] == s;
    WordsLex(s, 0, 0, words, valid);
    WordsConjoin([], words, valid);
    ReadingsCount(words, valid);
    assert [] + all == all;
    WordsAreSplit(s);
    OnlyAnd(all, WordTokens(words), valid);
    hide ReadOr, Lexed, SearchAndPipes, TrimSpace, Simple, Join, Readings, WordTokens, ReadAndTail;
    ParserReadsTokens(s, valid);
    assert ParseFilter(s, valid) == Ok(And(all));
    hide ParseFilter;
  }

  lemma OnlyAnd(all: seq<Filter>, ts: Toks, valid: RegexCheck)
    requires |all| >= 2 && ReadAndTail([], ts, valid) == Conjunction(all, Nil)
    ensures ReadOr(ts, valid) == Parsed(And(all), Nil)
  {
    hide ReadAndTail;
  }

  lemma JoinedIsLong(words: seq<string>)
    requires |words| >= 2 && words[0] != ""
    ensures |Join(words, " ")| >= 2
  {
    assert Join(words, " ") == words[0] + " " + Join(words[1..], " ");
  }

  lemma {:induction false} ReadingsCount(words: seq<string>, valid: RegexCheck)
    ensures |Readings(words, valid)| == |words|
  {
    if words != [] { ReadingsCount(words[1..], valid); }
  }

  lemma WordsAreSplit(s: string)
    requires s != "" && Trimmed(s) && forall c <- s :: c !in {'"', '/', '|'}
    ensures TrimSpace(s) == s && SearchAndPipes(s) == Ok((s, []))
  {
    TrimmedStays(s);
    hide TrimSpace;
    OnePart(s, "");
    assert "" + s == s && [s][1..] == [];
  }

  /** A command is read exactly if it is head, in any case, with a positive number of 64 bits behind it, or sort
      with a field. */
  lemma PipeIsReadIff(part: string)
    ensures var words := Fields(part);
            ParsePipe(part).Ok? <==>
              |words| >= 2 &&
              ((ToLower(words[0]) == "head" && Atoi(words[1]).Some? && Atoi(words[1]).value > 0) ||
               (ToLower(words[0]) == "sort" && words[1] != "" && words[1] != "-"))
  {
    hide Fields, Atoi, ToLower;
    var words := Fields(part);
    if |words| >= 2 && HasPrefix(words[1], "-") {
      assert words[1] == "-" + words[1][1..];
    }
  }

  /** A search that is blank or a star asks for everything, and so does one that begins with a pipe. */
  lemma EverythingIsAsked(text: string, part: string, cmd: PipeCmd, valid: RegexCheck)
    requires TrimSpace(text) == "" || TrimSpace(text) == "*"
    requires part != "" && Trimmed(part) && (forall c <- part :: c !in {'"', '/', '|'}) && ParsePipe(part) == Ok(cmd)
    ensures ParseSearch(text, valid) == Ok(Query(None, []))
    ensures ParseSearch("|" + part, valid) == Ok(Query(None, [cmd]))
  {
    var q := "|" + part;
    assert q == "" + "|" + part;
    assert q[0] == '|' && q[|q| - 1] == part[|part| - 1] && |q| >= 2;
    TrimmedStays(q);
    TrimmedStays(part);
    TrimmedStays("");
    TwoPartsFrom("", part, "");
    assert "" + "" == "" && ["", part][1..] == [part];
    OneNonEmpty(part);
    OnePipe(part, cmd);
    assert SearchAndPipes(q) == Ok(("", [part]));
    hide SearchAndPipes, ParsePipes, TrimSpace;
  }

  /** The commands are those of the parts, in order, and one that cannot be read is an error. */
  lemma {:induction false} PipesAreReadEach(parts: seq<string>)
    ensures match ParsePipes(parts)
            case Ok(cmds) => |cmds| == |parts| && forall i :: 0 <= i < |parts| ==> ParsePipe(parts[i]) == Ok(cmds[i])
            case Err(_) => exists i :: 0 <= i < |parts| && ParsePipe(parts[i]).Err?
  {
    hide ParsePipe;
    if parts != [] {
      PipesAreReadEach(parts[1..]);
      var rest := ParsePipes(parts[1..]);
      if ParsePipe(parts[0]).Ok? && rest.Err? {
        var i :| 0 <= i < |parts[1..]| && ParsePipe(parts[1..][i]).Err?;
        assert parts[i + 1] == parts[1..][i];
      }
    }
  }
}
