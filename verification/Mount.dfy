/** The table of mounts (mount/service.go): entries are checked, written one to a line, read
    back and parsed. */
module Mount {
  import opened Text
  import opened Scanning
  import S3Options

  datatype Entry = Entry(device: string, dir: string, kind: string, options: string, dump: string, fsck: string)

  /** The buffer of a scanner that was not given another one. */
  const LIMIT: nat := 64 * 1024

  // ---------- one line ----------

  /** formatEntry. */
  function Format(e: Entry): string {
    e.device + " " + e.dir + " " + e.kind + " " + e.options + " " + e.dump + " " + e.fsck
  }

  /** parseFstabLine. */
  function Parse(line: string): Option<Entry> {
    var f := Fields(line);
    if |f| == 6 then Some(Entry(f[0], f[1], f[2], f[3], f[4], f[5])) else None
  }

  predicate IsS3Type(kind: string) {
    ToLower(TrimSpace(kind)) in {"fuse.s3fs", "s3", "s3fs"}
  }

  /** strings.ContainsAny(s, " \t\r\n"). */
  predicate HasWhite(s: string) {
    exists c :: c in s && c in {' ', '\t', '\r', '\n'}
  }

  function Default(s: string, d: string): string {
    if s == "" then d else s
  }

  /** normalizeEntry: the entry without outer blanks and with defaults, or an error. */
  function Normalize(e: Entry): Option<Entry> {
    var kind := TrimSpace(e.kind);
    var n := Entry(TrimSpace(e.device), TrimSpace(e.dir), if IsS3Type(kind) then "fuse.s3fs" else kind,
                   Default(TrimSpace(e.options), "defaults"), Default(TrimSpace(e.dump), "0"),
                   Default(TrimSpace(e.fsck), "0"));
    if n.device == "" || n.dir == "" || n.kind == "" then None
    else if HasWhite(n.device) || HasWhite(n.dir) || HasWhite(n.kind) || HasWhite(n.options) then None
    else if HasWhite(n.dump) || HasWhite(n.fsck) then None
    else if !HasPrefix(n.dir, "/") || Atoi(n.dump) == None || Atoi(n.fsck) == None then None
    else Some(n)
  }

  /** A word: neither empty nor blank at an end nor with one of the four characters. */
  predicate Word(s: string) {
    s != "" && Trimmed(s) && forall c <- s :: c !in {' ', '\t', '\r', '\n'}
  }

  predicate Normal(e: Entry) {
    Word(e.device) && Word(e.dir) && Word(e.kind) && Word(e.options) && Word(e.dump) && Word(e.fsck)
  }

  predicate NoSpace(s: string) {
    forall c <- s :: !IsSpace(c)
  }

  /** What normalizeEntry does not see to: blanks other than the four, inside a field. */
  predicate Seamless(e: Entry) {
    NoSpace(e.device) && NoSpace(e.dir) && NoSpace(e.kind) && NoSpace(e.options) && NoSpace(e.dump) && NoSpace(e.fsck)
  }

  lemma NormalizeIsNormal(e: Entry)
    ensures Normalize(e).Some? ==>
              var n := Normalize(e).value;
              Normal(n) && n.dir[0] == '/' && Atoi(n.dump).Some? && Atoi(n.fsck).Some?
  {
    hide TrimSpace, Atoi;
    TrimSpaceTrims(e.device);
    TrimSpaceTrims(e.dir);
    TrimSpaceTrims(e.kind);
    TrimSpaceTrims(e.options);
    TrimSpaceTrims(e.dump);
    TrimSpaceTrims(e.fsck);
  }

  /** What a checked entry has in its fields: each its own, without outer blanks, with a default where there
      was nothing. */
  lemma NormalizeKeepsFields(e: Entry)
    ensures Normalize(e).Some? ==>
              var n := Normalize(e).value;
              && n.device == TrimSpace(e.device) && n.dir == TrimSpace(e.dir)
              && n.kind == (if ToLower(TrimSpace(TrimSpace(e.kind))) in {"fuse.s3fs", "s3", "s3fs"} then "fuse.s3fs"
                            else TrimSpace(e.kind))
              && (if TrimSpace(e.options) == "" then n.options == "defaults" else n.options == TrimSpace(e.options))
              && (if TrimSpace(e.dump) == "" then n.dump == "0" else n.dump == TrimSpace(e.dump))
              && (if TrimSpace(e.fsck) == "" then n.fsck == "0" else n.fsck == TrimSpace(e.fsck))
  {
    hide TrimSpace, HasWhite, Atoi, HasPrefix;
  }

  /** A clean entry passes the checks as it is, and so checking twice is checking once. */
  lemma NormalIsKept(e: Entry)
    requires Normal(e) && HasPrefix(e.dir, "/") && Atoi(e.dump).Some? && Atoi(e.fsck).Some?
    requires IsS3Type(e.kind) ==> e.kind == "fuse.s3fs"
    ensures Normalize(e) == Some(e)
  {
    TrimmedStays(e.device);
    TrimmedStays(e.dir);
    TrimmedStays(e.kind);
    TrimmedStays(e.options);
    TrimmedStays(e.dump);
    TrimmedStays(e.fsck);
    hide TrimSpace, Atoi, HasPrefix;
  }

  lemma NormalizeTwice(e: Entry)
    ensures Normalize(e).Some? ==> Normalize(Normalize(e).value) == Normalize(e)
  {
    if Normalize(e).Some? {
      NormalizeIsNormal(e);
      S3KindStays();
      TrimSpaceTrims(e.kind);
      TrimmedStays(TrimSpace(e.kind));
      NormalIsKept(Normalize(e).value) by { hide TrimSpace, HasWhite, Atoi, HasPrefix, Normal; }
    }
  }

  lemma S3KindStays()
    ensures IsS3Type("fuse.s3fs")
  {
    var s := "fuse.s3fs";
    assert s[0] == 'f' && s[8] == 's';
    TrimmedStays(s);
    assert ToLower(s) == s;
  }

  lemma {:induction false} FieldsOfJoined(a: string, b: string, word: string)
    ensures FieldsFrom(a + " " + b, word) == FieldsFrom(a, word) + Fields(b)
    decreases |a|
  {
    hide Fields;
    var s := a + " " + b;
    if a == "" {
      assert s[0] == ' ' && s[1..] == b;
      assert FieldsFrom(b, "") == Fields(b) by { FieldsAre(b); }
    } else {
      assert s[0] == a[0] && s[1..] == a[1..] + " " + b;
      FieldsOfJoined(a[1..], b, if IsSpace(a[0]) then "" else word + [a[0]]);
    }
  }

  lemma FieldsAre(s: string)
    ensures Fields(s) == FieldsFrom(s, "")
  {
  }

  lemma {:induction false} FieldsOfWord(s: string, word: string)
    requires NoSpace(s)
    ensures FieldsFrom(s, word) == if word + s == "" then [] else [word + s]
    decreases |s|
  {
    if s == "" {
      assert word + s == word;
    } else {
      assert s[0] in s;
      FieldsOfWord(s[1..], word + [s[0]]);
      assert word + [s[0]] + s[1..] == word + s;
    }
  }

  /** A text that ends in a word has at least one field, and two if a blank ends another before. */
  lemma {:induction false} FieldsOfText(s: string, word: string)
    requires s != "" && !IsSpace(s[|s| - 1])
    ensures |FieldsFrom(s, word)| >= 1
    ensures !NoSpace(s) && (word != "" || !IsSpace(s[0])) ==> |FieldsFrom(s, word)| >= 2
    decreases |s|
  {
    if |s| > 1 {
      FieldsOfText(s[1..], if IsSpace(s[0]) then "" else word + [s[0]]);
      assert NoSpace(s) <==> !IsSpace(s[0]) && NoSpace(s[1..]) by { assert s == [s[0]] + s[1..]; }
    } else {
      assert s == [s[0]];
    }
  }

  lemma FieldsOfNormal(s: string)
    requires Word(s)
    ensures NoSpace(s) ==> Fields(s) == [s]
    ensures |Fields(s)| >= 1 && (!NoSpace(s) ==> |Fields(s)| >= 2)
  {
    FieldsOfText(s, "");
    if NoSpace(s) {
      FieldsOfWord(s, "");
      assert "" + s == s;
    }
  }

  lemma FieldsOfFormat(e: Entry)
    ensures Fields(Format(e)) ==
              Fields(e.device) + Fields(e.dir) + Fields(e.kind) + Fields(e.options) + Fields(e.dump) + Fields(e.fsck)
  {
    hide FieldsFrom;
    var s := e.device + " " + e.dir + " " + e.kind + " " + e.options + " " + e.dump;
    FieldsOfJoined(s, e.fsck, "");
    FieldsOfJoined(e.device + " " + e.dir + " " + e.kind + " " + e.options, e.dump, "");
    FieldsOfJoined(e.device + " " + e.dir + " " + e.kind, e.options, "");
    FieldsOfJoined(e.device + " " + e.dir, e.kind, "");
    FieldsOfJoined(e.device, e.dir, "");
  }

  /** A checked entry is read back from its line exactly when no field has a blank inside;
      otherwise the line is no entry at all. */
  lemma FormatParsesIff(e: Entry)
    requires Normal(e)
    ensures Parse(Format(e)) == if Seamless(e) then Some(e) else None
  {
    hide Fields, Word, NoSpace, Format;
    FieldsOfFormat(e);
    FieldsOfNormal(e.device);
    FieldsOfNormal(e.dir);
    FieldsOfNormal(e.kind);
    FieldsOfNormal(e.options);
    FieldsOfNormal(e.dump);
    FieldsOfNormal(e.fsck);
  }

  // ---------- the file ----------

  /** readLines, once the text is split: without blank lines and comments. */
  function Kept(lines: seq<string>): seq<string> {
    if lines == [] then []
    else
      var line := TrimSpace(lines[0]);
      (if line == "" || HasPrefix(line, "#") then [] else [line]) + Kept(lines[1..])
  }

  function ReadLines(content: string): Option<seq<string>> {
    if TooLong(content, 0, LIMIT) then None else Some(Kept(LinesFrom(content, "")))
  }

  function WriteLines(lines: seq<string>): string {
    var content := Join(lines, "\n");
    if content != "" then content + "\n" else content
  }

  /** The lines that parse, as entries. */
  function Entries(lines: seq<string>): seq<Entry> {
    if lines == [] then []
    else
      var e := Parse(lines[0]);
      (if e.Some? then [e.value] else []) + Entries(lines[1..])
  }

  function List(content: string): Option<seq<Entry>> {
    match ReadLines(content)
    case None => None
    case Some(lines) => Some(Entries(lines))
  }

  /** A line that comes back as it was written. */
  predicate CleanLine(l: string) {
    l != "" && Trimmed(l) && '\n' !in l && l[0] != '#' && |l| < LIMIT
  }

  predicate Clean(lines: seq<string>) {
    forall l <- lines :: CleanLine(l)
  }

  lemma {:induction false} WriteEnds(lines: seq<string>)
    requires forall l <- lines :: l != ""
    ensures WriteLines(lines) == Ended(lines)
  {
    if |lines| == 1 {
      assert lines == [lines[0]];
      assert Ended(lines[1..]) == "";
      assert lines[0] in lines;
    } else if |lines| > 1 {
      assert forall l <- lines[1..] :: l in lines;
      WriteEnds(lines[1..]);
      assert lines[1] in lines && lines[1] != "";
      assert Ended(lines[1..]) != "";
    }
  }

  lemma {:induction false} OneLine(l: string, cur: string)
    requires '\n' !in l
    ensures LinesFrom(l + "\n", cur) == [DropCr(cur + l)]
    decreases |l|
  {
    hide DropCr;
    var s := l + "\n";
    if l == "" {
      assert s == "\n" && s[1..] == "" && cur + l == cur;
      assert LinesFrom("", "") == [];
    } else {
      assert s[0] == l[0] && s[1..] == l[1..] + "\n";
      assert l[0] in l;
      OneLine(l[1..], cur + [l[0]]);
      assert cur + [l[0]] + l[1..] == cur + l;
    }
  }

  lemma {:induction false} OneLength(l: string, n: nat)
    requires '\n' !in l
    ensures TooLong(l + "\n", n, LIMIT) <==> n + |l| >= LIMIT
    decreases |l|
  {
    var s := l + "\n";
    if l == "" {
      assert s == "\n" && s[1..] == "";
    } else if n < LIMIT {
      assert s[0] == l[0] && s[1..] == l[1..] + "\n";
      assert l[0] in l;
      OneLength(l[1..], n + 1);
    }
  }

  lemma {:induction false} ReadEnded(lines: seq<string>)
    requires forall l <- lines :: l != "" && Trimmed(l) && '\n' !in l
    ensures TooLong(Ended(lines), 0, LIMIT) <==> exists l :: l in lines && |l| >= LIMIT
    ensures LinesFrom(Ended(lines), "") == lines
  {
    hide LinesFrom, TooLong;
    if lines == [] {
      NothingToRead();
    } else {
      var l, more := lines[0], lines[1..];
      assert lines == [l] + more;
      assert l in lines && forall m <- more :: m in lines;
      ReadEnded(more);
      LinesOfParts(l + "\n", Ended(more), "");
      LongInParts(l + "\n", Ended(more), 0, LIMIT);
      OneLine(l, "");
      OneLength(l, 0);
      NoCrAtEnd(l);
      assert "" + l == l;
    }
  }

  lemma NothingToRead()
    ensures LinesFrom("", "") == [] && !TooLong("", 0, LIMIT)
  {
  }

  lemma NoCrAtEnd(l: string)
    requires l != "" && Trimmed(l)
    ensures DropCr(l) == l
  {
    assert l[|l| - 1..] == [l[|l| - 1]];
  }

  lemma {:induction false} KeptClean(lines: seq<string>)
    requires Clean(lines)
    ensures Kept(lines) == lines
  {
    hide TrimSpace, Trimmed, Kept;
    if lines == [] {
      KeptNothing();
    } else {
      var l, rest := lines[0], lines[1..];
      assert l in lines && forall m <- rest :: m in lines;
      KeptClean(rest);
      TrimmedStays(l);
      KeptOne(l);
      KeptConcat([l], rest);
      assert [l] + rest == lines;
    }
  }

  lemma KeptNothing()
    ensures Kept([]) == []
  {
  }

  /** What is written is read back, if no line is too long. */
  lemma ReadWrite(lines: seq<string>)
    requires Clean(lines)
    ensures ReadLines(WriteLines(lines)) == Some(lines)
  {
    WriteEnds(lines);
    ReadEnded(lines);
    KeptClean(lines);
  }

  // ---------- the whole table ----------

  function Formats(entries: seq<Entry>): seq<string> {
    if entries == [] then [] else [Format(entries[0])] + Formats(entries[1..])
  }

  /** A checked entry that comes back from the file. */
  predicate Lasting(e: Entry) {
    Seamless(e) && !HasPrefix(e.device, "#") && |Format(e)| < LIMIT
  }

  lemma FormatIsLine(e: Entry)
    requires Normal(e)
    ensures var l := Format(e); l != "" && Trimmed(l) && '\n' !in l && l[0] == e.device[0]
  {
    var l := Format(e);
    assert l[0] == e.device[0] && l[|l| - 1] == e.fsck[|e.fsck| - 1];
    NoNewline(e.device);
    NoNewline(e.dir);
    NoNewline(e.kind);
    NoNewline(e.options);
    NoNewline(e.dump);
    NoNewline(e.fsck);
  }

  lemma NoNewline(s: string)
    requires !HasWhite(s)
    ensures '\n' !in s
  {
  }

  lemma {:induction false} FormatsAreLines(entries: seq<Entry>)
    requires forall e <- entries :: Normal(e)
    ensures forall l <- Formats(entries) :: l != "" && Trimmed(l) && '\n' !in l
    ensures (exists l :: l in Formats(entries) && |l| >= LIMIT) <==> exists e :: e in entries && |Format(e)| >= LIMIT
    ensures |Formats(entries)| == |entries|
  {
    hide Format, Normal, Trimmed;
    if entries != [] {
      assert entries[0] in entries && forall e <- entries[1..] :: e in entries;
      assert forall e <- entries :: e == entries[0] || e in entries[1..]
        by { assert entries == [entries[0]] + entries[1..]; }
      FormatsAreLines(entries[1..]);
      FormatIsLine(entries[0]);
    }
  }

  lemma {:induction false} FormatsParse(entries: seq<Entry>)
    requires forall e <- entries :: Normal(e)
    ensures var r := Entries(Kept(Formats(entries)));
            |r| <= |entries| &&
            (r == entries <==> forall e <- entries :: Seamless(e) && !HasPrefix(e.device, "#"))
  {
    if entries != [] {
      var e, rest := entries[0], entries[1..];
      assert e in entries && forall f <- rest :: f in entries;
      assert entries == [e] + rest;
      FormatKept(e, rest);
      FormatEntry(e, Kept(Formats(rest)));
      assert forall f <- entries :: f == e || f in rest;
      assert ([e] + rest)[1..] == rest;
      var tail := Entries(Kept(Formats(rest)));
      assert ([e] + tail)[1..] == tail;
      assert rest == tail ==> entries == [e] + tail;
      hide *;
      FormatsParse(rest);
    }
  }

  lemma FormatKept(e: Entry, rest: seq<Entry>)
    requires Normal(e)
    ensures Kept(Formats([e] + rest)) ==
            if HasPrefix(e.device, "#") then Kept(Formats(rest)) else [Format(e)] + Kept(Formats(rest))
  {
    FormatIsLine(e);
    TrimmedStays(Format(e));
    hide Format, Trimmed, Word, TrimSpace, HasWhite;
    var all := [e] + rest;
    assert all[1..] == rest && Formats(all)[0] == Format(e);
    assert Formats(all)[1..] == Formats(rest);
    assert HasPrefix(Format(e), "#") <==> HasPrefix(e.device, "#");
  }

  lemma FormatEntry(e: Entry, kept: seq<string>)
    requires Normal(e)
    ensures Entries([Format(e)] + kept) == if Seamless(e) then [e] + Entries(kept) else Entries(kept)
  {
    FormatParsesIff(e);
    hide Format, Parse, Seamless, Trimmed, Word, TrimSpace, HasWhite;
    assert ([Format(e)] + kept)[1..] == kept;
  }

  /** A table of checked entries that is written is listed again exactly when every entry
      lasts: no odd blank inside a field, no device that looks like a comment, and no line
      beyond the buffer. */
  lemma ListedIff(entries: seq<Entry>)
    requires forall e <- entries :: Normal(e)
    ensures List(WriteLines(Formats(entries))) == Some(entries) <==> forall e <- entries :: Lasting(e)
  {
    hide Format, Normal, Seamless, Trimmed, HasPrefix;
    var lines := Formats(entries);
    FormatsAreLines(entries);
    WriteEnds(lines);
    ReadEnded(lines);
    FormatsParse(entries);
  }

  lemma OneBlank(s: string)
    requires |s| == 1 && !IsSpace(s[0])
    ensures TrimSpace(s) == s && !HasWhite(s)
  {
    TrimmedStays(s);
    assert forall c <- s :: c == s[0];
  }

  lemma Accepted(e: Entry)
    requires e.device in ["#", "d"] && e.dir == "/" && e.kind == "k" && e.options in ["o", "a\U{000B}b"] &&
             e.dump == "0" == e.fsck
    ensures Normalize(e) == Some(e)
  {
    hide TrimSpace, HasWhite, Atoi, IsS3Type;
    OneBlank(e.device);
    OneBlank("/");
    OneBlank("k");
    OneBlank("0");
    if e.options == "o" { OneBlank("o"); } else { VerticalTab(); }
    assert Atoi("0") == Some(0) by { Zero(); }
    assert !IsS3Type("k") by { NoS3(); }
    assert HasPrefix("/", "/");
  }

  lemma Zero()
    ensures Atoi("0") == Some(0)
  {
    assert Digits("0") == Some(0);
  }

  lemma NoS3()
    ensures !IsS3Type("k")
  {
    TrimmedStays("k");
  }

  lemma VerticalTab()
    ensures TrimSpace("a\U{000B}b") == "a\U{000B}b" && !HasWhite("a\U{000B}b") && !NoSpace("a\U{000B}b")
  {
    var s := "a\U{000B}b";
    TrimmedStays(s);
    assert s[1] == '\U{000B}' && IsSpace(s[1]) && s[1] in s;
    assert forall c <- s :: c == s[0] || c == s[1] || c == s[2];
  }

  /** A device that looks like a comment, and a vertical tab in the options: both entries pass
      the checks and are not listed again. */
  lemma AcceptedAndLost()
    ensures var comment, tab := Entry("#", "/", "k", "o", "0", "0"), Entry("d", "/", "k", "a\U{000B}b", "0", "0");
            && Normalize(comment) == Some(comment) && List(WriteLines(Formats([comment]))) != Some([comment])
            && Normalize(tab) == Some(tab) && List(WriteLines(Formats([tab]))) != Some([tab])
  {
    hide Normalize, List, WriteLines, Formats, Normal, Seamless, NoSpace;
    var comment, tab := Entry("#", "/", "k", "o", "0", "0"), Entry("d", "/", "k", "a\U{000B}b", "0", "0");
    Accepted(comment);
    Accepted(tab);
    NormalizeIsNormal(comment);
    NormalizeIsNormal(tab);
    ListedIff([comment]);
    ListedIff([tab]);
    assert comment in [comment] && HasPrefix("#", "#");
    VerticalTab();
    assert tab in [tab] && !Seamless(tab) by { NotSeamless(tab); }
  }

  lemma NotSeamless(e: Entry)
    requires !NoSpace(e.options)
    ensures !Seamless(e)
  {
  }

  // ---------- changing the table ----------

  predicate Matches(e: Entry, device: string, dir: string) {
    e.device == device && e.dir == dir
  }

  predicate ValidLookup(device: string, dir: string) {
    TrimSpace(dir) != "" && !HasWhite(device) && !HasWhite(dir) && HasPrefix(dir, "/")
  }

  predicate LineMatches(line: string, device: string, dir: string) {
    Parse(line).Some? && Matches(Parse(line).value, device, dir)
  }

  predicate AnyMatch(lines: seq<string>, device: string, dir: string) {
    lines != [] && (LineMatches(lines[0], device, dir) || AnyMatch(lines[1..], device, dir))
  }

  function Without(lines: seq<string>, device: string, dir: string): seq<string> {
    if lines == [] then []
    else (if LineMatches(lines[0], device, dir) then [] else [lines[0]]) + Without(lines[1..], device, dir)
  }

  /** The first matching line is replaced. */
  function Replaced(lines: seq<string>, device: string, dir: string, line: string): seq<string> {
    if lines == [] then []
    else if LineMatches(lines[0], device, dir) then [line] + lines[1..]
    else [lines[0]] + Replaced(lines[1..], device, dir, line)
  }

  /** Add: the new content of the file, or an error. */
  function Add(content: string, e: Entry): Option<string> {
    match Normalize(e)
    case None => None
    case Some(n) =>
      match ReadLines(content)
      case None => None
      case Some(lines) =>
        if AnyMatch(lines, n.device, n.dir) then None else Some(WriteLines(lines + [Format(n)]))
  }

  function Delete(content: string, device: string, dir: string): Option<string> {
    if !ValidLookup(device, dir) then None
    else
      match ReadLines(content)
      case None => None
      case Some(lines) =>
        if !AnyMatch(lines, device, dir) then None else Some(WriteLines(Without(lines, device, dir)))
  }

  function Update(content: string, device: string, dir: string, e: Entry): Option<string> {
    if !ValidLookup(device, dir) then None
    else
      match ReadLines(content)
      case None => None
      case Some(lines) =>
        match Normalize(e)
        case None => None
        case Some(n) =>
          if !AnyMatch(lines, device, dir) then None else Some(WriteLines(Replaced(lines, device, dir, Format(n))))
  }

  /** The same on entries. */
  function Dropped(entries: seq<Entry>, device: string, dir: string): seq<Entry> {
    if entries == [] then []
    else (if Matches(entries[0], device, dir) then [] else [entries[0]]) + Dropped(entries[1..], device, dir)
  }

  function Exchanged(entries: seq<Entry>, device: string, dir: string, e: Entry): seq<Entry> {
    if entries == [] then []
    else if Matches(entries[0], device, dir) then [e] + entries[1..]
    else [entries[0]] + Exchanged(entries[1..], device, dir, e)
  }

  lemma {:induction false} LinesAreShort(s: string, cur: string)
    requires '\n' !in cur && !TooLong(s, |cur|, LIMIT)
    ensures forall l <- LinesFrom(s, cur) :: '\n' !in l && |l| < LIMIT
    decreases |s|
  {
    if s != "" {
      LinesAreShort(s[1..], if s[0] == '\n' then "" else cur + [s[0]]);
    }
  }

  lemma {:induction false} KeptIsClean(lines: seq<string>)
    requires forall l <- lines :: '\n' !in l && |l| < LIMIT
    ensures Clean(Kept(lines))
  {
    hide TrimSpace, Trimmed;
    if lines != [] {
      assert lines[0] in lines && forall l <- lines[1..] :: l in lines;
      KeptIsClean(lines[1..]);
      TrimSpaceWithin(lines[0]);
      TrimSpaceTrims(lines[0]);
    }
  }

  lemma ReadIsClean(content: string)
    ensures ReadLines(content).Some? ==> Clean(ReadLines(content).value)
  {
    if ReadLines(content).Some? {
      LinesAreShort(content, "");
      KeptIsClean(LinesFrom(content, ""));
    }
  }

  lemma EntriesStep(lines: seq<string>)
    requires lines != []
    ensures Entries(lines) == (if Parse(lines[0]).Some? then [Parse(lines[0]).value] else []) + Entries(lines[1..])
  {
    hide Parse;
  }

  lemma {:induction false} EntriesConcat(a: seq<string>, b: seq<string>)
    ensures Entries(a + b) == Entries(a) + Entries(b)
    decreases |a|
  {
    hide Parse, Entries;
    if a == [] {
      assert a + b == b;
      EntriesOne("");
    } else {
      assert (a + b)[0] == a[0] && (a + b)[1..] == a[1..] + b;
      EntriesStep(a + b);
      EntriesStep(a);
      EntriesConcat(a[1..], b);
    }
  }

  lemma KeptStep(lines: seq<string>)
    requires lines != []
    ensures var line := TrimSpace(lines[0]);
            Kept(lines) == (if line == "" || HasPrefix(line, "#") then [] else [line]) + Kept(lines[1..])
  {
    hide TrimSpace, HasPrefix;
  }

  lemma {:induction false} KeptConcat(a: seq<string>, b: seq<string>)
    ensures Kept(a + b) == Kept(a) + Kept(b)
    decreases |a|
  {
    hide TrimSpace, HasPrefix, Kept;
    if a == [] {
      assert a + b == b;
      KeptNothing();
    } else {
      assert (a + b)[0] == a[0] && (a + b)[1..] == a[1..] + b;
      KeptStep(a + b);
      KeptStep(a);
      KeptConcat(a[1..], b);
    }
  }

  /** What is listed of written lines. */
  lemma ListWritten(lines: seq<string>)
    requires forall l <- lines :: l != "" && Trimmed(l) && '\n' !in l
    ensures List(WriteLines(lines)) ==
            if exists l :: l in lines && |l| >= LIMIT then None else Some(Entries(Kept(lines)))
  {
    hide Entries, Kept, Trimmed;
    WriteEnds(lines);
    ReadEnded(lines);
  }

  lemma EntriesAround(before: seq<string>, n: Entry, after: seq<string>)
    requires Clean(before) && Clean(after) && Normal(n)
    ensures Entries(Kept(before + [Format(n)] + after))
            == Entries(before) + (if Seamless(n) && !HasPrefix(n.device, "#") then [n] else []) + Entries(after)
  {
    hide Normal, Clean, Trimmed, TrimSpace, Parse, Format, Entries, Kept, Seamless;
    var line := Format(n);
    FormatIsLine(n);
    KeptClean(before);
    KeptClean(after);
    KeptConcat(before + [line], after);
    KeptConcat(before, [line]);
    TrimmedStays(line);
    KeptOne(line);
    FormatParsesIff(n);
    assert HasPrefix(line, "#") <==> HasPrefix(n.device, "#") by { Comment(n); }
    var kept := if HasPrefix(line, "#") then [] else [line];
    EntriesConcat(before + kept, after);
    EntriesConcat(before, kept);
    EntriesOne(line);
  }

  lemma Comment(e: Entry)
    requires Normal(e)
    ensures HasPrefix(Format(e), "#") <==> HasPrefix(e.device, "#")
  {
    assert Format(e)[0] == e.device[0];
  }

  /** Clean lines with the line of a checked entry among them, written and listed. */
  lemma ListAround(before: seq<string>, n: Entry, after: seq<string>)
    requires Clean(before) && Clean(after) && Normal(n)
    ensures var r := List(WriteLines(before + [Format(n)] + after));
            if |Format(n)| >= LIMIT then r == None
            else r == Some(Entries(before) + (if Lasting(n) then [n] else []) + Entries(after))
  {
    hide Normal, Seamless, Trimmed, Format, Entries, Kept, List, WriteLines, HasPrefix;
    var line := Format(n);
    var lines := before + [line] + after;
    FormatIsLine(n);
    assert forall l <- lines :: l in before || l == line || l in after;
    assert line in lines;
    ListWritten(lines);
    EntriesAround(before, n, after);
  }

  lemma KeptOne(line: string)
    requires line != "" && TrimSpace(line) == line
    ensures Kept([line]) == if HasPrefix(line, "#") then [] else [line]
  {
    assert [line][1..] == [];
  }

  lemma EntriesOne(line: string)
    ensures Entries([line]) == if Parse(line).Some? then [Parse(line).value] else []
    ensures Entries([]) == []
  {
    assert [line][1..] == [];
  }

  /** An added entry is listed after those that were there exactly when it lasts. */
  lemma AddListsIff(content: string, e: Entry)
    requires Add(content, e).Some?
    ensures List(Add(content, e).value) == Some(List(content).value + [Normalize(e).value]) <==>
              Lasting(Normalize(e).value)
  {
    hide Normalize, Lasting, Format;
    ReadIsClean(content);
    NormalizeIsNormal(e);
    var lines, n := ReadLines(content).value, Normalize(e).value;
    ListAround(lines, n, []);
    assert lines + [Format(n)] + [] == lines + [Format(n)];
    EntriesOne("");
    LastingIsShort(n);
    assert Entries(lines) + [n] + [] == Entries(lines) + [n];
    assert |Entries(lines) + [] + []| < |Entries(lines) + [n]|;
  }

  lemma LastingIsShort(e: Entry)
    ensures Lasting(e) ==> |Format(e)| < LIMIT
  {
  }

  lemma {:induction false} WithoutMeans(lines: seq<string>, device: string, dir: string)
    ensures Entries(Without(lines, device, dir)) == Dropped(Entries(lines), device, dir)
    ensures forall l <- Without(lines, device, dir) :: l in lines
  {
    hide Parse;
    if lines != [] {
      var line, rest := lines[0], Without(lines[1..], device, dir);
      WithoutMeans(lines[1..], device, dir);
      EntriesConcat([line], rest);
      EntriesConcat([line], lines[1..]);
      EntriesOne(line);
      assert lines == [line] + lines[1..];
      var all := Entries(lines);
      if Parse(line).Some? {
        assert all[0] == Parse(line).value && all[1..] == Entries(lines[1..]);
      } else {
        assert all == Entries(lines[1..]);
      }
      if LineMatches(line, device, dir) {
        assert Without(lines, device, dir) == rest;
        assert Dropped(all, device, dir) == Dropped(all[1..], device, dir);
      } else {
        assert Without(lines, device, dir) == [line] + rest;
      }
    }
  }

  /** Delete takes every matching entry from the list, and nothing else. */
  lemma DeleteLists(content: string, device: string, dir: string)
    requires Delete(content, device, dir).Some?
    ensures List(Delete(content, device, dir).value) == Some(Dropped(List(content).value, device, dir))
  {
    hide Without, Dropped, Entries;
    ReadIsClean(content);
    var lines := ReadLines(content).value;
    WithoutMeans(lines, device, dir);
    ReadWrite(Without(lines, device, dir));
  }

  lemma {:induction false} FirstMatch(lines: seq<string>, device: string, dir: string) returns (i: nat)
    requires AnyMatch(lines, device, dir)
    ensures i < |lines| && LineMatches(lines[i], device, dir) && !AnyMatch(lines[..i], device, dir)
    ensures forall line :: Replaced(lines, device, dir, line) == lines[..i] + [line] + lines[i + 1..]
  {
    if LineMatches(lines[0], device, dir) {
      i := 0;
    } else {
      i := FirstMatch(lines[1..], device, dir);
      assert lines[..i + 1][1..] == lines[1..][..i];
      assert lines[..i + 1] == [lines[0]] + lines[1..][..i];
      i := i + 1;
    }
  }

  lemma {:induction false} NoMatchInEntries(lines: seq<string>, device: string, dir: string)
    requires !AnyMatch(lines, device, dir)
    ensures forall e <- Entries(lines) :: !Matches(e, device, dir)
  {
    hide Parse;
    if lines != [] { NoMatchInEntries(lines[1..], device, dir); }
  }

  lemma {:induction false} ExchangedAt(before: seq<Entry>, e: Entry, after: seq<Entry>, device: string, dir: string,
                                       n: Entry)
    requires Matches(e, device, dir) && forall b <- before :: !Matches(b, device, dir)
    ensures Exchanged(before + [e] + after, device, dir, n) == before + [n] + after
    decreases |before|
  {
    var all := before + [e] + after;
    if before == [] {
      assert all[1..] == after;
    } else {
      assert before[0] in before && forall b <- before[1..] :: b in before;
      assert all[1..] == before[1..] + [e] + after;
      ExchangedAt(before[1..], e, after, device, dir, n);
      assert [before[0]] + (before[1..] + [n] + after) == before + [n] + after;
    }
  }

  /** Update exchanges the first matching entry in the list exactly when the new one lasts. */
  lemma UpdateListsIff(content: string, device: string, dir: string, e: Entry)
    requires Update(content, device, dir, e).Some?
    ensures List(Update(content, device, dir, e).value) ==
              Some(Exchanged(List(content).value, device, dir, Normalize(e).value))
            <==> Lasting(Normalize(e).value)
  {
    hide Normalize, Lasting, Format, Replaced, AnyMatch, Exchanged, Entries, Parse, Word, ReadLines, WriteLines, Kept,
         ValidLookup, LineMatches, Matches;
    ReadIsClean(content);
    NormalizeIsNormal(e);
    var lines, n := ReadLines(content).value, Normalize(e).value;
    var i := FirstMatch(lines, device, dir);
    var was := Parse(lines[i]).value;
    assert forall l <- lines[..i] :: l in lines;
    assert forall l <- lines[i + 1..] :: l in lines;
    ListAround(lines[..i], n, lines[i + 1..]);
    assert lines == lines[..i] + [lines[i]] + lines[i + 1..];
    EntriesConcat(lines[..i] + [lines[i]], lines[i + 1..]);
    EntriesConcat(lines[..i], [lines[i]]);
    EntriesOne(lines[i]);
    NoMatchInEntries(lines[..i], device, dir);
    ExchangedAt(Entries(lines[..i]), was, Entries(lines[i + 1..]), device, dir, n);
    LastingIsShort(n);
  }

  lemma {:induction false} DroppedNone(entries: seq<Entry>, e: Entry)
    requires forall b <- entries :: !Matches(b, e.device, e.dir)
    ensures Dropped(entries + [e], e.device, e.dir) == entries
  {
    if entries == [] {
      assert entries + [e] == [e];
      assert Dropped([e][1..], e.device, e.dir) == [];
    } else {
      assert entries[0] in entries && forall b <- entries[1..] :: b in entries;
      assert (entries + [e])[1..] == entries[1..] + [e];
      DroppedNone(entries[1..], e);
    }
  }

  lemma {:induction false} AnyMatchConcat(a: seq<string>, b: seq<string>, device: string, dir: string)
    ensures AnyMatch(a + b, device, dir) <==> AnyMatch(a, device, dir) || AnyMatch(b, device, dir)
    decreases |a|
  {
    hide LineMatches;
    if a == [] {
      assert a + b == b;
    } else {
      assert (a + b)[1..] == a[1..] + b;
      AnyMatchConcat(a[1..], b, device, dir);
    }
  }

  lemma AddedIsFound(content: string, e: Entry)
    requires Add(content, e).Some? && Lasting(Normalize(e).value)
    ensures Delete(Add(content, e).value, Normalize(e).value.device, Normalize(e).value.dir).Some?
  {
    hide Format, Parse, Kept, Clean, WriteLines, TrimSpace, Trimmed;
    ReadIsClean(content);
    NormalizeIsNormal(e);
    var lines, n := ReadLines(content).value, Normalize(e).value;
    FormatIsLine(n);
    FormatParsesIff(n);
    assert Clean(lines + [Format(n)]) by { CleanMore(lines, n); }
    ReadWrite(lines + [Format(n)]);
    AnyMatchConcat(lines, [Format(n)], n.device, n.dir);
    TrimmedStays(n.dir);
  }

  lemma CleanMore(lines: seq<string>, n: Entry)
    requires Clean(lines) && Normal(n) && Lasting(n)
    ensures Clean(lines + [Format(n)])
  {
    hide Format, Trimmed;
    FormatIsLine(n);
    Comment(n);
  }

  lemma {:induction false} AnyMatchIff(lines: seq<string>, device: string, dir: string)
    ensures AnyMatch(lines, device, dir) <==> exists x <- Entries(lines) :: x.device == device && x.dir == dir
  {
    hide Parse;
    if lines != [] {
      AnyMatchIff(lines[1..], device, dir);
      EntriesStep(lines);
    }
  }

  predicate Listed(content: string, device: string, dir: string) {
    List(content).Some? && exists x <- List(content).value :: x.device == device && x.dir == dir
  }

  /** An entry is added exactly if it passes the checks, the table can be read and lists no entry with its
      device and directory. */
  lemma AddIff(content: string, e: Entry)
    ensures Add(content, e).Some? <==>
              Normalize(e).Some? && List(content).Some? &&
              !Listed(content, Normalize(e).value.device, Normalize(e).value.dir)
  {
    hide Normalize, Format, Entries, AnyMatch;
    if Normalize(e).Some? && ReadLines(content).Some? {
      AnyMatchIff(ReadLines(content).value, Normalize(e).value.device, Normalize(e).value.dir);
    }
  }

  /** An entry is deleted, or exchanged for one that passes the checks, exactly if it is listed and its
      device and directory are such as an entry can have. */
  lemma DeleteAndUpdateIff(content: string, device: string, dir: string, e: Entry)
    ensures Delete(content, device, dir).Some? <==> ValidLookup(device, dir) && Listed(content, device, dir)
    ensures Update(content, device, dir, e).Some? <==>
              ValidLookup(device, dir) && Listed(content, device, dir) && Normalize(e).Some?
    ensures ValidLookup(device, dir) <==>
              TrimSpace(dir) != "" && |dir| >= 1 && dir[0] == '/' &&
              forall c <- device + dir :: c !in {' ', '\t', '\r', '\n'}
  {
    hide Normalize, Format, Entries, AnyMatch, TrimSpace;
    if ReadLines(content).Some? { AnyMatchIff(ReadLines(content).value, device, dir); }
    if dir != "" { assert dir[..1] == [dir[0]]; }
    assert forall c :: c in device + dir <==> c in device || c in dir;
  }

  /** Deleting what was just added restores the list. */
  lemma AddThenDelete(content: string, e: Entry)
    requires Add(content, e).Some? && Lasting(Normalize(e).value)
    ensures Delete(Add(content, e).value, Normalize(e).value.device, Normalize(e).value.dir).Some?
    ensures List(Delete(Add(content, e).value, Normalize(e).value.device, Normalize(e).value.dir).value) ==
              List(content)
  {
    AddedIsFound(content, e);
    var n := Normalize(e).value;
    hide Normalize, Lasting, Delete, Format, Entries, AnyMatch;
    AddListsIff(content, e);
    DeleteLists(Add(content, e).value, n.device, n.dir);
    NoMatchInEntries(ReadLines(content).value, n.device, n.dir);
    DroppedNone(List(content).value, n);
  }

  // ---------- the code ----------

  lemma {:induction false} WithoutConcat(a: seq<string>, b: seq<string>, device: string, dir: string)
    ensures Without(a + b, device, dir) == Without(a, device, dir) + Without(b, device, dir)
    decreases |a|
  {
    hide LineMatches;
    if a == [] {
      assert a + b == b;
    } else {
      assert (a + b)[1..] == a[1..] + b;
      WithoutConcat(a[1..], b, device, dir);
    }
  }

  lemma {:induction false} ReplacedAt(lines: seq<string>, i: nat, device: string, dir: string, line: string)
    requires i < |lines| && LineMatches(lines[i], device, dir) && !AnyMatch(lines[..i], device, dir)
    ensures Replaced(lines, device, dir, line) == lines[i := line] && AnyMatch(lines, device, dir)
  {
    hide LineMatches;
    if i > 0 {
      assert lines[..i][1..] == lines[1..][..i - 1];
      ReplacedAt(lines[1..], i - 1, device, dir, line);
      assert [lines[0]] + lines[1..][i - 1 := line] == lines[i := line];
    } else {
      assert [line] + lines[1..] == lines[0 := line];
    }
  }

  /** applyS3Entry: from an entry with its S3 settings and the password file to keep, the entry to
      be written, or an error. */
  type Preparation = (Entry, string) -> Option<Entry>

  function Prepared(e: Entry, prepare: Preparation, keep: string): Option<Entry> {
    if IsS3Type(e.kind) then prepare(e, keep) else Some(e)
  }

  /** The options of the first matching entry. */
  function FirstOptions(lines: seq<string>, device: string, dir: string): string {
    if lines == [] then ""
    else if LineMatches(lines[0], device, dir) then Parse(lines[0]).value.options
    else FirstOptions(lines[1..], device, dir)
  }

  function KeptPassword(content: string, device: string, dir: string): string {
    match ReadLines(content)
    case None => ""
    case Some(lines) => S3Options.ParsePasswd(FirstOptions(lines, device, dir))
  }

  lemma MatchParses(line: string, device: string, dir: string)
    requires LineMatches(line, device, dir)
    ensures Parse(line).Some?
  {
  }

  lemma NoPassword()
    ensures S3Options.ParsePasswd("") == ""
  {
    assert SplitOn("", ',') == [""] && TrimSpace("") == "";
    assert [""][1..] == [];
  }

  lemma {:induction false} FirstOptionsAt(lines: seq<string>, i: nat, device: string, dir: string)
    requires i <= |lines| && !AnyMatch(lines[..i], device, dir) && (i < |lines| ==> LineMatches(lines[i], device, dir))
    ensures FirstOptions(lines, device, dir) == if i < |lines| then Parse(lines[i]).value.options else ""
    decreases i
  {
    hide Parse;
    if i > 0 {
      assert lines[..i][1..] == lines[1..][..i - 1] && lines[..i][0] == lines[0];
      FirstOptionsAt(lines[1..], i - 1, device, dir);
    }
  }

  /** The password file that an update keeps is that of the first entry listed with the device and directory. */
  lemma KeptPasswordIs(content: string, device: string, dir: string, i: nat)
    requires List(content).Some? && i < |List(content).value|
    requires List(content).value[i].device == device && List(content).value[i].dir == dir
    requires forall j :: 0 <= j < i ==> !(List(content).value[j].device == device && List(content).value[j].dir == dir)
    ensures KeptPassword(content, device, dir) == S3Options.ParsePasswd(List(content).value[i].options)
  {
    hide Entries, FirstOptions;
    FirstOptionsListed(ReadLines(content).value, device, dir, i);
  }

  lemma {:induction false} FirstOptionsListed(lines: seq<string>, device: string, dir: string, i: nat)
    requires var entries := Entries(lines);
             i < |entries| && entries[i].device == device && entries[i].dir == dir &&
             forall j :: 0 <= j < i ==> !(entries[j].device == device && entries[j].dir == dir)
    ensures FirstOptions(lines, device, dir) == Entries(lines)[i].options
    decreases |lines|
  {
    hide Parse;
    EntriesStep(lines);
    var entries, rest := Entries(lines), Entries(lines[1..]);
    if Parse(lines[0]).None? {
      assert entries == rest;
      FirstOptionsListed(lines[1..], device, dir, i);
    } else {
      assert entries[0] == Parse(lines[0]).value && entries[1..] == rest;
      if i > 0 {
        forall j | 0 <= j < i - 1
          ensures !(rest[j].device == device && rest[j].dir == dir) { assert rest[j] == entries[j + 1]; }
        FirstOptionsListed(lines[1..], device, dir, i - 1);
      }
    }
  }

  /** The file of the mount table. A file that does not exist reads like an empty one. */
  class MountTable {
    var content: string

    constructor (content: string)
      ensures this.content == content
    {
      this.content := content;
    }

    method ReadAll() returns (r: Option<seq<string>>)
      ensures r == ReadLines(content)
    {
      hide TrimSpace, HasPrefix, TooLong, LinesFrom;
      if TooLong(content, 0, LIMIT) { return None; }
      var scanned := LinesFrom(content, "");
      var lines: seq<string> := [];
      for i := 0 to |scanned|
        invariant lines == Kept(scanned[..i])
      {
        var line := TrimSpace(scanned[i]);
        assert scanned[..i + 1] == scanned[..i] + [scanned[i]];
        KeptConcat(scanned[..i], [scanned[i]]);
        assert [scanned[i]][1..] == [];
        if line == "" || HasPrefix(line, "#") { continue; }
        lines := lines + [line];
      }
      assert scanned[..|scanned|] == scanned;
      return Some(lines);
    }

    /** The first line with this device and directory, or the number of lines. */
    method Find(lines: seq<string>, device: string, dir: string) returns (i: nat)
      ensures i <= |lines| && !AnyMatch(lines[..i], device, dir)
      ensures i < |lines| ==> LineMatches(lines[i], device, dir)
    {
      hide LineMatches;
      i := 0;
      while i < |lines| && !LineMatches(lines[i], device, dir)
        invariant i <= |lines| && !AnyMatch(lines[..i], device, dir)
      {
        assert lines[..i + 1] == lines[..i] + [lines[i]];
        AnyMatchConcat(lines[..i], [lines[i]], device, dir);
        assert [lines[i]][1..] == [];
        i := i + 1;
      }
    }

    /** An S3 entry is prepared first, which may fail. */
    method AddEntry(e: Entry, prepare: Preparation) returns (ok: bool)
      modifies this
      ensures ok <==> Prepared(e, prepare, "").Some? && Add(old(content), Prepared(e, prepare, "").value).Some?
      ensures content == if ok then Add(old(content), Prepared(e, prepare, "").value).value else old(content)
    {
      hide Normalize, ReadLines, WriteLines, LineMatches, Replaced, IsS3Type;
      var prepared := Some(e);
      if IsS3Type(e.kind) { prepared := prepare(e, ""); }
      if prepared == None { return false; }
      var n := Normalize(prepared.value);
      if n == None { return false; }
      var lines := ReadAll();
      if lines == None { return false; }
      var i := Find(lines.value, n.value.device, n.value.dir);
      if i < |lines.value| {
        ReplacedAt(lines.value, i, n.value.device, n.value.dir, "");
        return false;
      }
      assert lines.value[..i] == lines.value;
      content := WriteLines(lines.value + [Format(n.value)]);
      return true;
    }

    /** A new S3 entry keeps the password file of the old one. */
    method UpdateEntry(device: string, dir: string, e: Entry, prepare: Preparation) returns (ok: bool)
      modifies this
      ensures var x := Prepared(e, prepare, KeptPassword(old(content), device, dir));
              (ok <==> x.Some? && Update(old(content), device, dir, x.value).Some?) &&
              content == if ok then Update(old(content), device, dir, x.value).value else old(content)
    {
      hide Normalize, ReadLines, WriteLines, LineMatches, Replaced, ValidLookup, IsS3Type;
      if !ValidLookup(device, dir) { return false; }
      var lines := ReadAll();
      if lines == None { return false; }
      var i := Find(lines.value, device, dir);
      var keep := "";
      if i < |lines.value| {
        MatchParses(lines.value[i], device, dir);
        keep := S3Options.ParsePasswd(Parse(lines.value[i]).value.options);
      }
      FirstOptionsAt(lines.value, i, device, dir);
      NoPassword();
      var prepared := Some(e);
      if IsS3Type(e.kind) { prepared := prepare(e, keep); }
      if prepared == None { return false; }
      var n := Normalize(prepared.value);
      if n == None { return false; }
      if i == |lines.value| {
        assert lines.value[..i] == lines.value;
        return false;
      }
      ReplacedAt(lines.value, i, device, dir, Format(n.value));
      content := WriteLines(lines.value[i := Format(n.value)]);
      return true;
    }

    method DeleteEntry(device: string, dir: string) returns (ok: bool)
      modifies this
      ensures ok <==> Delete(old(content), device, dir).Some?
      ensures content == if ok then Delete(old(content), device, dir).value else old(content)
    {
      hide ReadLines, WriteLines, LineMatches, ValidLookup;
      if !ValidLookup(device, dir) { return false; }
      var lines := ReadAll();
      if lines == None { return false; }
      var filtered: seq<string> := [];
      var removed := false;
      for i := 0 to |lines.value|
        invariant filtered == Without(lines.value[..i], device, dir)
        invariant removed <==> AnyMatch(lines.value[..i], device, dir)
        invariant content == old(content)
      {
        var line := lines.value[i];
        assert lines.value[..i + 1] == lines.value[..i] + [line];
        WithoutConcat(lines.value[..i], [line], device, dir);
        AnyMatchConcat(lines.value[..i], [line], device, dir);
        assert [line][1..] == [];
        if LineMatches(line, device, dir) {
          removed := true;
          continue;
        }
        filtered := filtered + [line];
      }
      assert lines.value[..|lines.value|] == lines.value;
      if !removed { return false; }
      content := WriteLines(filtered);
      return true;
    }
  }
}
