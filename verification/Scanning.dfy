/** Reading lines as Go's bufio.Scanner does. */
module Scanning {
  import opened Text

  function DropCr(line: string): string {
    if HasSuffix(line, "\r") then line[..|line| - 1] else line
  }

  /** bufio.ScanLines: the lines of s, of which cur is already read. */
  function LinesFrom(s: string, cur: string): seq<string> {
    if s == "" then if cur == "" then [] else [DropCr(cur)]
    else if s[0] == '\n' then [DropCr(cur)] + LinesFrom(s[1..], "")
    else LinesFrom(s[1..], cur + [s[0]])
  }

  /** Some line does not fit the buffer; n characters of the first one are already read. */
  predicate TooLong(s: string, n: nat, limit: nat) {
    n >= limit || (s != "" && TooLong(s[1..], if s[0] == '\n' then 0 else n + 1, limit))
  }

  /** Empty, or ended by a line feed. */
  predicate WholeLines(s: string) {
    s == "" || s[|s| - 1] == '\n'
  }

  lemma {:induction false} LinesOfParts(a: string, b: string, cur: string)
    requires WholeLines(a) && (a == "" ==> cur == "")
    ensures LinesFrom(a + b, cur) == LinesFrom(a, cur) + LinesFrom(b, "")
    decreases |a|
  {
    if a == "" {
      assert a + b == b;
    } else {
      assert (a + b)[0] == a[0] && (a + b)[1..] == a[1..] + b;
      if a[0] == '\n' { LinesOfParts(a[1..], b, ""); } else { LinesOfParts(a[1..], b, cur + [a[0]]); }
    }
  }

  lemma {:induction false} LongInParts(a: string, b: string, n: nat, limit: nat)
    requires WholeLines(a) && (a == "" ==> n == 0)
    ensures TooLong(a + b, n, limit) <==> TooLong(a, n, limit) || TooLong(b, 0, limit)
    decreases |a|
  {
    if a == "" {
      assert a + b == b;
    } else if n < limit {
      assert (a + b)[0] == a[0] && (a + b)[1..] == a[1..] + b;
      LongInParts(a[1..], b, if a[0] == '\n' then 0 else n + 1, limit);
    }
  }

  lemma NextChar(c: char, s: string, cur: string)
    ensures LinesFrom([c] + s, cur) ==
            if c == '\n' then [DropCr(cur)] + LinesFrom(s, "") else LinesFrom(s, cur + [c])
  {
    var all := [c] + s;
    assert all[0] == c && all[1..] == s;
    hide DropCr;
  }

  lemma {:induction false} LineIsRead(l: string, rest: string, cur: string)
    requires '\n' !in l
    ensures LinesFrom(l + (['\n'] + rest), cur) == [DropCr(cur + l)] + LinesFrom(rest, "")
    decreases |l|
  {
    hide LinesFrom, DropCr;
    var ended := ['\n'] + rest;
    if l == "" {
      assert l + ended == ended && cur + l == cur;
      NextChar('\n', rest, cur);
    } else {
      var c, more := l[0], l[1..];
      assert l == [c] + more;
      assert c in l && '\n' !in more;
      NextChar(c, more + ended, cur);
      assert l + ended == [c] + (more + ended);
      LineIsRead(more, rest, cur + [c]);
      assert cur + [c] + more == cur + l;
    }
  }

  lemma {:induction false} LastLineIsRead(l: string, cur: string)
    requires '\n' !in l
    ensures LinesFrom(l, cur) == if cur + l == "" then [] else [DropCr(cur + l)]
    decreases |l|
  {
    if l == "" {
      assert cur + l == cur;
    } else {
      hide LinesFrom, DropCr;
      var c, more := l[0], l[1..];
      assert l == [c] + more;
      assert c in l && '\n' !in more;
      NextChar(c, more, cur);
      LastLineIsRead(more, cur + [c]);
      assert cur + [c] + more == cur + l;
    }
  }

  /** Lines end at line feeds, and lose one carriage return in front of them; the last one need not be ended. */
  lemma LinesAre(l: string, rest: string)
    requires '\n' !in l
    ensures var line := if l != "" && l[|l| - 1] == '\r' then l[..|l| - 1] else l;
            LinesFrom(l + "\n" + rest, "") == [line] + LinesFrom(rest, "") &&
            LinesFrom(l, "") == if l == "" then [] else [line]
  {
    hide LinesFrom;
    LineIsRead(l, rest, "");
    assert l + "\n" + rest == l + (['\n'] + rest);
    LastLineIsRead(l, "");
    assert "" + l == l;
    if l != "" { assert l[|l| - 1..] == [l[|l| - 1]]; }
  }

  /** So many characters without a line feed, somewhere. */
  predicate LongRun(s: string, limit: nat) {
    exists i, j :: 0 <= i <= j <= |s| && j - i >= limit && '\n' !in s[i..j]
  }

  predicate LongStart(s: string, n: nat, limit: nat) {
    exists j :: 0 <= j <= |s| && n + j >= limit && '\n' !in s[..j]
  }

  lemma {:induction false} TooLongRuns(s: string, n: nat, limit: nat)
    requires limit > 0
    ensures TooLong(s, n, limit) <==> LongStart(s, n, limit) || LongRun(s, limit)
    decreases |s|
  {
    if n >= limit {
      assert s[..0] == "" && '\n' !in s[..0];
    } else if s != "" {
      var m := if s[0] == '\n' then 0 else n + 1;
      TooLongRuns(s[1..], m, limit);
      TailRuns(s, n, limit);
    }
  }

  lemma TailRuns(s: string, n: nat, limit: nat)
    requires s != "" && n < limit
    ensures var m := if s[0] == '\n' then 0 else n + 1;
            LongStart(s[1..], m, limit) || LongRun(s[1..], limit) <==> LongStart(s, n, limit) || LongRun(s, limit)
  {
    var m := if s[0] == '\n' then 0 else n + 1;
    if j :| 0 <= j <= |s[1..]| && m + j >= limit && '\n' !in s[1..][..j] {
      if s[0] == '\n' {
        assert s[1..j + 1] == s[1..][..j];
      } else {
        assert s[..j + 1] == [s[0]] + s[1..][..j];
      }
    }
    if i, j :| 0 <= i <= j <= |s[1..]| && j - i >= limit && '\n' !in s[1..][i..j] {
      assert forall k :: 0 <= k < j - i ==> s[i + 1..j + 1][k] == s[1..][i..j][k];
      assert s[i + 1..j + 1] == s[1..][i..j];
    }
    if j :| 0 <= j <= |s| && n + j >= limit && '\n' !in s[..j] {
      assert s[..j][0] == s[0];
      assert s[1..][..j - 1] == s[..j][1..];
      assert forall c <- s[..j][1..] :: c in s[..j];
    }
    if i, j :| 0 <= i <= j <= |s| && j - i >= limit && '\n' !in s[i..j] {
      if i > 0 {
        assert s[1..][i - 1..j - 1] == s[i..j];
      } else {
        assert s[i..j][0] == s[0];
        assert s[1..][..j - 1] == s[i..j][1..];
        assert forall c <- s[i..j][1..] :: c in s[i..j];
      }
    }
  }

  /** A text is too long for the scanner exactly if somewhere in it the limit is reached without a line feed. */
  lemma TooLongIff(s: string, limit: nat)
    requires limit > 0
    ensures TooLong(s, 0, limit) <==> exists i, j :: 0 <= i <= j <= |s| && j - i >= limit && '\n' !in s[i..j]
  {
    TooLongRuns(s, 0, limit);
    if j :| 0 <= j <= |s| && 0 + j >= limit && '\n' !in s[..j] { assert s[0..j] == s[..j]; }
  }
}
