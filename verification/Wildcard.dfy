/** Wildcards: the tail matches a pattern with stars, the database matches LIKE on a
    pattern that was rewritten in three passes (splunklite/compile.go). */
module Wildcard {
  import opened Text
  import opened Compile
  import opened Eval

  /** SQLite's LIKE, without regard to case. With ESCAPE '\' the character behind a
      backslash stands for itself, and a last backslash for nothing. */
  predicate LikeMatch(v: string, p: string, escaped: bool)
    decreases |v| + |p|
  {
    if p == "" then v == ""
    else if escaped && p[0] == '\\' then
      |p| >= 2 && v != "" && Lower(v[0]) == Lower(p[1]) && LikeMatch(v[1..], p[2..], escaped)
    else if p[0] == '%' then LikeMatch(v, p[1..], escaped) || (v != "" && LikeMatch(v[1..], p, escaped))
    else if p[0] == '_' then v != "" && LikeMatch(v[1..], p[1..], escaped)
    else v != "" && Lower(v[0]) == Lower(p[0]) && LikeMatch(v[1..], p[1..], escaped)
  }

  predicate OneLine(s: string) {
    '\n' !in s
  }

  // ---------- the three passes ----------

  /** What becomes of one character of a pattern. */
  function Rewritten(c: char): string {
    if c == '%' then "\\%" else if c == '_' then "\\_" else if c == '*' then "%" else [c]
  }

  function Flat(p: string): string {
    if p == "" then "" else Rewritten(p[0]) + Flat(p[1..])
  }

  lemma ReplaceOne(c: char, s: string, n: char, sub: string)
    ensures ReplaceAll([c] + s, [n], sub) == (if c == n then sub else [c]) + ReplaceAll(s, [n], sub)
  {
    var cs := [c] + s;
    assert cs[1..] == s && cs[..1] == [c];
    assert HasPrefix(cs, [n]) <==> c == n;
  }

  lemma {:induction false} PassesCombine(p: string)
    ensures LikePattern(p) == Flat(p)
  {
    if p != "" {
      PassesCombine(p[1..]);
      var c, s := p[0], p[1..];
      assert p == [c] + s;
      ReplaceOne(c, s, '%', "\\%");
      var first := ReplaceAll(s, "%", "\\%");
      PassBehind(c, first);
      var second := ReplaceAll(first, "_", "\\_");
      LastPass(c, second);
    }
  }

  /** The second pass over what the first makes of one character, and the rest. */
  lemma PassBehind(c: char, s: string)
    ensures ReplaceAll((if c == '%' then "\\%" else [c]) + s, "_", "\\_") ==
            (if c == '%' then "\\%" else if c == '_' then "\\_" else [c]) + ReplaceAll(s, "_", "\\_")
  {
    hide ReplaceAll;
    if c == '%' {
      assert "\\%" + s == ['\\'] + (['%'] + s);
      ReplaceOne('\\', ['%'] + s, '_', "\\_");
      ReplaceOne('%', s, '_', "\\_");
    } else {
      ReplaceOne(c, s, '_', "\\_");
    }
  }

  lemma LastPass(c: char, s: string)
    ensures ReplaceAll((if c == '%' then "\\%" else if c == '_' then "\\_" else [c]) + s, "*", "%") ==
            Rewritten(c) + ReplaceAll(s, "*", "%")
  {
    hide ReplaceAll;
    if c == '%' || c == '_' {
      assert ['\\', c] + s == ['\\'] + ([c] + s);
      ReplaceOne('\\', [c] + s, '*', "%");
      ReplaceOne(c, s, '*', "%");
    } else {
      ReplaceOne(c, s, '*', "%");
    }
  }

  // ---------- without backslash ----------

  predicate Translated(v: string, p: string) {
    LikeMatch(v, Flat(p), true)
  }

  /** LIKE on the translation of a pattern, by the pattern's first character. */
  lemma TranslatedStep(v: string, p: string)
    requires p != "" && p[0] != '\\'
    ensures Translated(v, p) <==>
            if p[0] == '*' then Translated(v, p[1..]) || (v != "" && Translated(v[1..], p))
            else v != "" && Lower(v[0]) == Lower(p[0]) && Translated(v[1..], p[1..])
  {
    var c, s := p[0], Flat(p[1..]);
    var f := Flat(p);
    assert f == Rewritten(c) + s;
    if c == '%' || c == '_' {
      assert f[0] == '\\' && f[1] == c && f[2..] == s;
    } else {
      assert f[1..] == s;
    }
  }

  lemma GlobStep(v: string, p: string)
    requires p != "" && OneLine(v)
    ensures Glob(ToLower(v), ToLower(p)) <==>
            if p[0] == '*' then Glob(ToLower(v), ToLower(p[1..])) || (v != "" && Glob(ToLower(v[1..]), ToLower(p)))
            else v != "" && Lower(v[0]) == Lower(p[0]) && Glob(ToLower(v[1..]), ToLower(p[1..]))
  {
    assert ToLower(p)[1..] == ToLower(p[1..]);
    if v != "" { assert ToLower(v)[1..] == ToLower(v[1..]); }
  }

  lemma {:induction false} SameWithoutBackslash(v: string, p: string)
    requires '\\' !in p && OneLine(v)
    ensures Translated(v, p) == Glob(ToLower(v), ToLower(p))
    decreases |v| + |p|
  {
    if p != "" {
      hide Translated, Glob, ToLower;
      TranslatedStep(v, p);
      GlobStep(v, p);
      if p[0] == '*' { SameWithoutBackslash(v, p[1..]); }
      if v != "" {
        if p[0] == '*' { SameWithoutBackslash(v[1..], p); } else { SameWithoutBackslash(v[1..], p[1..]); }
      }
    }
  }

  // ---------- with a backslash ----------

  /** A backslash without a character behind it ends the pattern. */
  predicate Dangling(p: string) {
    p != "" && if p[0] == '\\' then |p| == 1 || Dangling(p[2..]) else Dangling(p[1..])
  }

  /** Behind a backslash: what LIKE then asks for, at the least. */
  function Escaped(c: char): string {
    if c == '*' then "%" else if c == '%' then "\\" else if c == '_' then "\\x" else [c]
  }

  /** The shortest value that LIKE accepts. */
  function Least(p: string): string
    requires !Dangling(p)
  {
    if p == "" then ""
    else if p[0] == '\\' then Escaped(p[1]) + Least(p[2..])
    else if p[0] == '*' then Least(p[1..])
    else [p[0]] + Least(p[1..])
  }

  /** The shortest value that the wildcard accepts. */
  function WithoutStars(p: string): string {
    if p == "" then "" else (if p[0] == '*' then "" else [p[0]]) + WithoutStars(p[1..])
  }

  /** A value that tells LIKE from the wildcard. */
  function Telltale(p: string): string {
    if Dangling(p) then WithoutStars(p) else Least(p)
  }

  lemma {:induction false} DanglingNeverLikes(v: string, p: string)
    requires Dangling(p)
    ensures !Translated(v, p)
    decreases |v| + |p|, 0
  {
    if p[0] == '\\' {
      if |p| >= 2 {
        EscapedStep(v, p);
        if v != "" { DanglingNeverLikes(v[1..], p[2..]); }
        if |v| >= 2 { DanglingNeverLikes(v[2..], p[2..]); }
        if p[1] == '%' && v != "" { DanglingAfterAny(v[1..], p[2..]); }
      } else {
        assert Flat(p) == "\\" + Flat(p[1..]);
      }
    } else {
      TranslatedStep(v, p);
      if p[0] == '*' { DanglingNeverLikes(v, p[1..]); }
      if v != "" {
        if p[0] == '*' { DanglingNeverLikes(v[1..], p); } else { DanglingNeverLikes(v[1..], p[1..]); }
      }
    }
  }

  /** LIKE behind any characters. */
  predicate AfterAny(v: string, p: string) {
    Translated(v, p) || (v != "" && AfterAny(v[1..], p))
  }

  lemma {:induction false} DanglingAfterAny(v: string, p: string)
    requires Dangling(p)
    ensures !AfterAny(v, p)
    decreases |v| + |p|, 1
  {
    DanglingNeverLikes(v, p);
    if v != "" { DanglingAfterAny(v[1..], p); }
  }

  /** What LIKE accepts if the pattern begins with a backslash and a character. */
  lemma EscapedStep(v: string, p: string)
    requires |p| >= 2 && p[0] == '\\'
    ensures Translated(v, p) <==>
            v != "" &&
            if p[1] == '*' then v[0] == '%' && Translated(v[1..], p[2..])
            else if p[1] == '%' then v[0] == '\\' && AfterAny(v[1..], p[2..])
            else if p[1] == '_' then v[0] == '\\' && |v| >= 2 && Translated(v[2..], p[2..])
            else Lower(v[0]) == Lower(p[1]) && Translated(v[1..], p[2..])
  {
    var c, s := p[1], Flat(p[2..]);
    var f := Flat(p);
    assert p[1..][0] == c && p[1..][1..] == p[2..];
    assert Flat(p[1..]) == Rewritten(c) + s;
    assert f == Rewritten('\\') + (Rewritten(c) + s);
    assert f[1..] == Rewritten(c) + s;
    if c == '*' {
      assert f[1] == '%' && f[2..] == s;
    } else if c == '%' {
      assert f[1] == '\\' && f[2..] == "%" + s;
      if v != "" { LikeAfterAny(v[1..], p[2..]); }
    } else if c == '_' {
      assert f[1] == '\\' && f[2..] == "_" + s;
      if v != "" {
        assert ("_" + s)[1..] == s;
        LikeOne(v[1..], s);
        if |v| >= 2 { assert v[1..][1..] == v[2..]; }
      }
    } else {
      assert f[1] == c && f[2..] == s;
    }
  }

  lemma LikeOne(v: string, s: string)
    ensures LikeMatch(v, "_" + s, true) <==> v != "" && LikeMatch(v[1..], s, true)
  {
    assert ("_" + s)[1..] == s;
  }

  lemma {:induction false} LikeAfterAny(v: string, p: string)
    ensures LikeMatch(v, "%" + Flat(p), true) == AfterAny(v, p)
  {
    assert ("%" + Flat(p))[1..] == Flat(p);
    if v != "" { LikeAfterAny(v[1..], p); }
  }

  lemma {:induction false} LikesLeast(p: string)
    requires !Dangling(p)
    ensures Translated(Least(p), p)
  {
    if p != "" {
      var v := Least(p);
      if p[0] == '\\' {
        LikesLeast(p[2..]);
        EscapedStep(v, p);
        assert v[|Escaped(p[1])|..] == Least(p[2..]);
      } else {
        LikesLeast(p[1..]);
        TranslatedStep(v, p);
        if p[0] != '*' { assert v[1..] == Least(p[1..]); }
      }
    }
  }

  lemma {:induction false} GlobsWithoutStars(p: string)
    requires OneLine(p)
    ensures Glob(ToLower(WithoutStars(p)), ToLower(p)) && OneLine(WithoutStars(p))
  {
    if p != "" {
      hide Glob, ToLower;
      GlobsWithoutStars(p[1..]);
      var v := WithoutStars(p);
      assert OneLine(v);
      GlobStep(v, p);
      if p[0] == '*' { assert v == WithoutStars(p[1..]); } else { assert v[1..] == WithoutStars(p[1..]); }
    } else {
      assert ToLower("") == "";
    }
  }

  /** Backslashes count double. */
  function Weight(s: string): nat {
    if s == "" then 0 else (if s[0] == '\\' then 2 else if s[0] == '%' || s[0] == '_' then 1 else 0) + Weight(s[1..])
  }

  lemma {:induction false} WeightOfBoth(s: string, t: string)
    ensures Weight(s + t) == Weight(s) + Weight(t)
  {
    if s == "" {
      assert s + t == t;
    } else {
      assert (s + t)[1..] == s[1..] + t;
      WeightOfBoth(s[1..], t);
    }
  }

  /** The wildcard asks for every character of the pattern but the stars. */
  lemma {:induction false} GlobWeighs(v: string, p: string)
    requires Glob(ToLower(v), ToLower(p)) && OneLine(v)
    ensures Weight(v) >= Weight(p)
    decreases |v| + |p|
  {
    if p != "" {
      hide Glob, ToLower;
      GlobStep(v, p);
      if p[0] == '*' {
        if Glob(ToLower(v), ToLower(p[1..])) { GlobWeighs(v, p[1..]); } else { GlobWeighs(v[1..], p); }
      } else {
        GlobWeighs(v[1..], p[1..]);
      }
    }
  }

  lemma {:induction false} LeastIsLight(p: string)
    requires !Dangling(p) && OneLine(p)
    ensures Weight(Least(p)) <= Weight(p) && OneLine(Least(p))
    ensures '\\' in p ==> Weight(Least(p)) < Weight(p)
  {
    if p != "" {
      if p[0] == '\\' {
        LeastIsLight(p[2..]);
        WeightOfBoth(Escaped(p[1]), Least(p[2..]));
        EscapedIsLight(p[1]);
        assert p[1..][1..] == p[2..];
        assert Weight(p) == 2 + Weight(p[1..]);
      } else {
        LeastIsLight(p[1..]);
        if p[0] != '*' { WeightOfBoth([p[0]], Least(p[1..])); }
        assert p == [p[0]] + p[1..];
      }
    }
  }

  lemma EscapedIsLight(c: char)
    ensures Weight(Escaped(c)) < 2 + Weight([c])
  {
    assert Weight("") == 0;
    assert "\\x"[1..] == "x" && "x"[1..] == "" && "\\"[1..] == "" && "%"[1..] == "" && [c][1..] == "";
  }

  lemma BackslashShows(p: string)
    requires '\\' in p && OneLine(p)
    ensures OneLine(Telltale(p)) && Translated(Telltale(p), p) != Glob(ToLower(Telltale(p)), ToLower(p))
  {
    hide Glob, ToLower, Translated;
    if Dangling(p) {
      DanglingNeverLikes(Telltale(p), p);
      GlobsWithoutStars(p);
    } else {
      LikesLeast(p);
      LeastIsLight(p);
      if Glob(ToLower(Telltale(p)), ToLower(p)) { GlobWeighs(Telltale(p), p); }
    }
  }

  lemma StarStays(p: string)
    requires HasSub(p, "*")
    ensures HasSub(ToLower(p), "*")
  {
    var i :| 0 <= i <= |p| && HasPrefix(p[i..], "*");
    assert p[i] == p[i..][0] == '*';
    var low := ToLower(p);
    assert low[i] == '*';
    assert low[i..][..1] == [low[i]];
    assert HasPrefix(low[i..], "*");
  }

  /** Query and tail match the same one-line values by a pattern with stars exactly if it
      has no backslash. */
  lemma WildcardsAgreeIff(p: string)
    requires HasSub(p, "*") && OneLine(p)
    ensures (forall v :: OneLine(v) ==> LikeMatch(v, LikePattern(p), true) == MatchWildcard(v, p)) <==> '\\' !in p
  {
    StarStays(p);
    PassesCombine(p);
    hide HasSub, Glob, LikePattern, Flat, LikeMatch, ToLower;
    if '\\' in p {
      BackslashShows(p);
      var v := Telltale(p);
      assert LikeMatch(v, LikePattern(p), true) == Translated(v, p);
    } else {
      forall v | OneLine(v) ensures LikeMatch(v, LikePattern(p), true) == MatchWildcard(v, p) {
        SameWithoutBackslash(v, p);
      }
    }
  }
}
