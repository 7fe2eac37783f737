/** Traffic figures from the access logs (grafanalite/collector.go): each pass reads what was
    added to every log since the last one, counts it in five-minute buckets and adds the
    buckets to the table (repository/sqlite/traffic_metrics.go). */
module Collector {
  import opened Text
  import opened Scanning

  /** What the parser finds in a line. The time is in seconds since the epoch. */
  datatype Hit = Hit(time: int, status: int, bytes: int)

  type Parser = string -> Option<Hit>

  datatype Key = Key(time: int, site: string)

  datatype Bucket = Bucket(requests: int, bytes: int, s2xx: int, s3xx: int, s4xx: int, s5xx: int)

  type Buckets = map<Key, Bucket>

  const NOTHING := Bucket(0, 0, 0, 0, 0, 0)

  function Add(a: Bucket, b: Bucket): Bucket {
    Bucket(a.requests + b.requests, a.bytes + b.bytes,
           a.s2xx + b.s2xx, a.s3xx + b.s3xx, a.s4xx + b.s4xx, a.s5xx + b.s5xx)
  }

  function Get(m: Buckets, k: Key): Bucket {
    if k in m then m[k] else NOTHING
  }

  /** The table after adding buckets. */
  function Plus(m: Buckets, n: Buckets): Buckets {
    map k | k in m.Keys + n.Keys :: Add(Get(m, k), Get(n, k))
  }

  /** A line has to fit the buffer of the scanner. */
  const LIMIT: nat := 1024 * 1024

  // ---------- counting ----------

  /** The start of the five minutes that hold the time. */
  function Truncated(time: int): int {
    300 * (time / 300)
  }

  /** Five-minute buckets begin at multiples of five minutes and hold the times up to the next. */
  lemma TruncatedIff(time: int, start: int)
    ensures start == Truncated(time) <==> start % 300 == 0 && start <= time < start + 300
  {
  }

  function Parsed(parse: Parser, line: string): Option<Hit> {
    if TrimSpace(line) == "" then None else parse(line)
  }

  function KeyOf(hit: Hit, site: string): Key {
    Key(Truncated(hit.time), site)
  }

  function Counted(hit: Hit): Bucket {
    var b := Bucket(1, hit.bytes, 0, 0, 0, 0);
    if 200 <= hit.status < 300 then b.(s2xx := 1)
    else if 300 <= hit.status < 400 then b.(s3xx := 1)
    else if 400 <= hit.status < 500 then b.(s4xx := 1)
    else if hit.status >= 500 then b.(s5xx := 1)
    else b
  }

  /** consumeLine: one more line. */
  function Consumed(m: Buckets, parse: Parser, line: string, site: string): Buckets {
    match Parsed(parse, line)
    case None => m
    case Some(hit) => m[KeyOf(hit, site) := Add(Get(m, KeyOf(hit, site)), Counted(hit))]
  }

  function ConsumedAll(m: Buckets, parse: Parser, lines: seq<string>, site: string): Buckets {
    if lines == [] then m
    else Consumed(ConsumedAll(m, parse, lines[..|lines| - 1], site), parse, lines[|lines| - 1], site)
  }

  lemma GetPlus(m: Buckets, n: Buckets, k: Key)
    ensures Get(Plus(m, n), k) == Add(Get(m, k), Get(n, k))
    ensures k in Plus(m, n) <==> k in m || k in n
  {
  }

  lemma AddAssociates(a: Bucket, b: Bucket, c: Bucket)
    ensures Add(Add(a, b), c) == Add(a, Add(b, c))
    ensures Add(NOTHING, a) == a
  {
  }

  lemma SameBuckets(m: Buckets, n: Buckets)
    requires forall k :: (k in m <==> k in n) && Get(m, k) == Get(n, k)
    ensures m == n
  {
    forall k | k in m ensures k in n && m[k] == n[k] { assert Get(m, k) == Get(n, k); }
    forall k | k in n ensures k in m { assert Get(m, k) == Get(n, k); }
  }

  lemma PlusAssociates(l: Buckets, m: Buckets, n: Buckets)
    ensures Plus(Plus(l, m), n) == Plus(l, Plus(m, n))
  {
    hide Plus, Add;
    var left, right := Plus(Plus(l, m), n), Plus(l, Plus(m, n));
    forall k ensures (k in left <==> k in right) && Get(left, k) == Get(right, k) {
      GetPlus(l, m, k);
      GetPlus(Plus(l, m), n, k);
      GetPlus(m, n, k);
      GetPlus(l, Plus(m, n), k);
      AddAssociates(Get(l, k), Get(m, k), Get(n, k));
    }
    SameBuckets(left, right);
  }

  /** Adding to a bucket before or after adding to the table. */
  lemma PlusAdd(m: Buckets, n: Buckets, k: Key, b: Bucket)
    ensures Plus(m, n[k := Add(Get(n, k), b)]) == Plus(m, n)[k := Add(Get(Plus(m, n), k), b)]
  {
    hide Plus, Add;
    var n' := n[k := Add(Get(n, k), b)];
    var left, right := Plus(m, n'), Plus(m, n)[k := Add(Get(Plus(m, n), k), b)];
    forall l ensures (l in left <==> l in right) && Get(left, l) == Get(right, l) {
      GetPlus(m, n', l);
      GetPlus(m, n, l);
      AddAssociates(Get(m, k), Get(n, k), b);
    }
    SameBuckets(left, right);
  }

  lemma ConsumedPlus(m: Buckets, n: Buckets, parse: Parser, line: string, site: string)
    ensures Plus(m, Consumed(n, parse, line, site)) == Consumed(Plus(m, n), parse, line, site)
  {
    hide Parsed, Plus, Add, Get;
    var hit := Parsed(parse, line);
    if hit.Some? { PlusAdd(m, n, KeyOf(hit.value, site), Counted(hit.value)); }
  }

  lemma {:induction false} ConsumedAllPlus(m: Buckets, n: Buckets, parse: Parser, lines: seq<string>, site: string)
    ensures Plus(m, ConsumedAll(n, parse, lines, site)) == ConsumedAll(Plus(m, n), parse, lines, site)
  {
    hide Consumed, Plus;
    if lines != [] {
      ConsumedAllPlus(m, n, parse, lines[..|lines| - 1], site);
      ConsumedPlus(m, ConsumedAll(n, parse, lines[..|lines| - 1], site), parse, lines[|lines| - 1], site);
    }
  }

  lemma {:induction false} ConsumedConcat(m: Buckets, parse: Parser, a: seq<string>, b: seq<string>, site: string)
    ensures ConsumedAll(m, parse, a + b, site) == ConsumedAll(ConsumedAll(m, parse, a, site), parse, b, site)
    decreases |b|
  {
    hide Consumed;
    if b == [] {
      assert a + b == a;
    } else {
      assert (a + b)[..|a + b| - 1] == a + b[..|b| - 1];
      ConsumedConcat(m, parse, a, b[..|b| - 1], site);
    }
  }

  /** The line is not blank, it parses, and its time is in the five minutes of the bucket. */
  predicate Falls(parse: Parser, line: string, site: string, k: Key) {
    TrimSpace(line) != "" && parse(line).Some? &&
    k.site == site && k.time % 300 == 0 && k.time <= parse(line).value.time < k.time + 300
  }

  /** How many lines fall into the bucket, with a status from low up to high. */
  function HitsIn(parse: Parser, lines: seq<string>, site: string, k: Key, low: int, high: int): nat {
    if lines == [] then 0
    else
      var line := lines[|lines| - 1];
      HitsIn(parse, lines[..|lines| - 1], site, k, low, high) +
      if Falls(parse, line, site, k) && low <= parse(line).value.status < high then 1 else 0
  }

  function AllIn(parse: Parser, lines: seq<string>, site: string, k: Key): nat {
    if lines == [] then 0
    else AllIn(parse, lines[..|lines| - 1], site, k) + if Falls(parse, lines[|lines| - 1], site, k) then 1 else 0
  }

  /** The bytes of the lines that fall into the bucket. */
  function BytesIn(parse: Parser, lines: seq<string>, site: string, k: Key): int {
    if lines == [] then 0
    else
      var line := lines[|lines| - 1];
      BytesIn(parse, lines[..|lines| - 1], site, k) + if Falls(parse, line, site, k) then parse(line).value.bytes else 0
  }

  lemma FallsIff(parse: Parser, line: string, site: string, k: Key)
    ensures Falls(parse, line, site, k) <==> Parsed(parse, line).Some? && KeyOf(Parsed(parse, line).value, site) == k
    ensures Falls(parse, line, site, k) ==> Parsed(parse, line) == parse(line)
  {
    hide TrimSpace, Truncated;
    if parse(line).Some? { TruncatedIff(parse(line).value.time, k.time); }
  }

  /** Each bucket counts its parsed lines, and those of each status family, and adds up their
      bytes. */
  lemma {:induction false} BucketsCount(parse: Parser, lines: seq<string>, site: string, k: Key, top: int)
    requires forall line <- lines :: Parsed(parse, line).Some? ==> Parsed(parse, line).value.status < top
    ensures var m := ConsumedAll(map[], parse, lines, site); var b := Get(m, k);
            && (k in m <==> AllIn(parse, lines, site, k) > 0)
            && b.requests == AllIn(parse, lines, site, k)
            && b.bytes == BytesIn(parse, lines, site, k)
            && b.s2xx == HitsIn(parse, lines, site, k, 200, 300)
            && b.s3xx == HitsIn(parse, lines, site, k, 300, 400)
            && b.s4xx == HitsIn(parse, lines, site, k, 400, 500)
            && b.s5xx == HitsIn(parse, lines, site, k, 500, top)
            && b.s2xx + b.s3xx + b.s4xx + b.s5xx <= b.requests
  {
    hide Parsed, KeyOf, Falls;
    if lines != [] {
      FallsIff(parse, lines[|lines| - 1], site, k);
      var init, last := lines[..|lines| - 1], lines[|lines| - 1];
      assert last in lines && forall line <- init :: line in lines;
      BucketsCount(parse, init, site, k, top);
    }
  }

  // ---------- one pass ----------

  /** An entry of the log directory; a log that does not exist yet has no text. */
  datatype Log = Log(name: string, text: Option<string>)

  predicate IsAccessLog(name: string) {
    HasPrefix(name, "access") && HasSuffix(name, ".log")
  }

  function SiteOf(name: string): string {
    var base := if HasSuffix(name, ".log") then name[..|name| - 4] else name;
    var site := TrimPrefix(TrimPrefix(base, "access"), "-");
    if site == "" then "default" else site
  }

  /** The site of a log named after one, and of the log that is named after none. */
  lemma SiteOfLog(site: string)
    ensures IsAccessLog("access-" + site + ".log") && IsAccessLog("access.log")
    ensures SiteOf("access-" + site + ".log") == if site == "" then "default" else site
    ensures SiteOf("access.log") == "default"
  {
    var name, plain := "access-" + site + ".log", "access.log";
    assert name[|name| - 4..] == ".log" && name[..|name| - 4] == "access-" + site;
    assert name[..6] == "access" && ("access-" + site)[..6] == "access" && ("access-" + site)[6..] == "-" + site;
    assert ("-" + site)[..1] == "-" && ("-" + site)[1..] == site;
    assert plain[..6] == "access" && plain[6..] == ".log" && plain[..|plain| - 4] == "access" && "access"[6..] == "";
  }

  /** Of the entries of the log directory only those with the name of an access log are read. */
  lemma OthersAreNotRead(p: Progress, parse: Parser, log: Log)
    requires log.text == None || |log.name| < 6 || log.name[..6] != "access" || |log.name| < 4 ||
             log.name[|log.name| - 4..] != ".log"
    ensures ReadLog(p, parse, log) == Some(p)
  {
  }

  /** How far each log is read, and the buckets. */
  datatype Progress = Progress(offsets: map<string, nat>, buckets: Buckets)

  function Offset(offsets: map<string, nat>, name: string): nat {
    if name in offsets then offsets[name] else 0
  }

  predicate Skipped(log: Log) {
    !IsAccessLog(log.name) || log.text == None
  }

  /** Where reading starts: a log that became shorter is read from the beginning. */
  function Start(text: string, offset: nat): (r: nat)
    ensures r <= |text|
  {
    if |text| < offset then 0 else offset
  }

  /** collectEntry. */
  function ReadLog(p: Progress, parse: Parser, log: Log): Option<Progress> {
    if Skipped(log) then Some(p)
    else
      var text := log.text.value;
      var added := text[Start(text, Offset(p.offsets, log.name))..];
      if TooLong(added, 0, LIMIT) then None
      else Some(Progress(p.offsets[log.name := |text|],
                         ConsumedAll(p.buckets, parse, LinesFrom(added, ""), SiteOf(log.name))))
  }

  /** Reading a log fails exactly if it is an access log that is there, and somewhere in what was added the
      limit is reached without a line feed. */
  lemma ReadLogFailsIff(p: Progress, parse: Parser, log: Log)
    ensures ReadLog(p, parse, log) == None <==>
              |log.name| >= 6 && log.name[..6] == "access" && log.name[|log.name| - 4..] == ".log" && log.text.Some? &&
              var text := log.text.value;
              var offset := if log.name in p.offsets && p.offsets[log.name] <= |text| then p.offsets[log.name] else 0;
              exists i, j :: offset <= i <= j <= |text| && j - i >= 1024 * 1024 && '\n' !in text[i..j]
  {
    hide TooLong, LinesFrom, ConsumedAll, SiteOf;
    if log.text.Some? && IsAccessLog(log.name) {
      var text := log.text.value;
      var offset := Start(text, Offset(p.offsets, log.name));
      var added := text[offset..];
      TooLongIff(added, LIMIT);
      if i, j :| 0 <= i <= j <= |added| && j - i >= LIMIT && '\n' !in added[i..j] {
        PartOfRest(text, offset, offset + i, offset + j);
      }
      if i, j :| offset <= i <= j <= |text| && j - i >= LIMIT && '\n' !in text[i..j] {
        PartOfRest(text, offset, i, j);
      }
    }
  }

  lemma PartOfRest(text: string, offset: nat, i: nat, j: nat)
    requires offset <= i <= j <= |text|
    ensures text[offset..][i - offset..j - offset] == text[i..j]
  {
  }

  function ReadLogs(p: Progress, parse: Parser, logs: seq<Log>): Option<Progress> {
    if logs == [] then Some(p)
    else
      match ReadLogs(p, parse, logs[..|logs| - 1])
      case None => None
      case Some(q) => ReadLog(q, parse, logs[|logs| - 1])
  }

  /** Collect: the new buckets are added to the table, or nothing happens at all. */
  function Collect(p: Progress, parse: Parser, logs: seq<Log>): Option<Progress> {
    match ReadLogs(Progress(p.offsets, map[]), parse, logs)
    case None => None
    case Some(q) => Some(Progress(q.offsets, Plus(p.buckets, q.buckets)))
  }

  // ---------- what a pass stores ----------

  /** The lines that a pass reads of a log. */
  function Added(offsets: map<string, nat>, log: Log): seq<string> {
    if Skipped(log) then []
    else LinesFrom(log.text.value[Start(log.text.value, Offset(offsets, log.name))..], "")
  }

  /** The figures of some lines for one bucket. */
  function Tally(parse: Parser, lines: seq<string>, site: string, k: Key, top: int): Bucket {
    Bucket(AllIn(parse, lines, site, k), BytesIn(parse, lines, site, k),
           HitsIn(parse, lines, site, k, 200, 300), HitsIn(parse, lines, site, k, 300, 400),
           HitsIn(parse, lines, site, k, 400, 500), HitsIn(parse, lines, site, k, 500, top))
  }

  /** The sum over all logs, of which several may belong to one site. */
  function TallyAll(offsets: map<string, nat>, parse: Parser, logs: seq<Log>, k: Key, top: int): Bucket {
    if logs == [] then NOTHING
    else
      var log := logs[|logs| - 1];
      Add(TallyAll(offsets, parse, logs[..|logs| - 1], k, top),
          Tally(parse, Added(offsets, log), SiteOf(log.name), k, top))
  }

  predicate StatusesBelow(offsets: map<string, nat>, parse: Parser, logs: seq<Log>, top: int) {
    forall log <- logs :: forall line <- Added(offsets, log) ::
      Parsed(parse, line).Some? ==> Parsed(parse, line).value.status < top
  }

  lemma ConsumedTally(m: Buckets, parse: Parser, lines: seq<string>, site: string, k: Key, top: int)
    requires forall line <- lines :: Parsed(parse, line).Some? ==> Parsed(parse, line).value.status < top
    ensures Get(ConsumedAll(m, parse, lines, site), k) == Add(Get(m, k), Tally(parse, lines, site, k, top))
    ensures k in ConsumedAll(m, parse, lines, site) <==> k in m || AllIn(parse, lines, site, k) > 0
  {
    hide Parsed, Plus, ConsumedAll, AllIn, BytesIn, HitsIn;
    BucketsCount(parse, lines, site, k, top);
    ConsumedAllPlus(m, map[], parse, lines, site);
    PlusNothing(m);
    GetPlus(m, ConsumedAll(map[], parse, lines, site), k);
  }

  lemma TallyRequests(parse: Parser, lines: seq<string>, site: string, k: Key, top: int)
    ensures Tally(parse, lines, site, k, top).requests == AllIn(parse, lines, site, k)
  {
  }

  lemma ReadLogTally(p: Progress, q: Progress, parse: Parser, log: Log, k: Key, top: int)
    requires ReadLog(q, parse, log).Some? && StatusesBelow(p.offsets, parse, [log], top)
    requires Offset(q.offsets, log.name) == Offset(p.offsets, log.name)
    ensures Grown(q.buckets, ReadLog(q, parse, log).value.buckets, k,
                  Tally(parse, Added(p.offsets, log), SiteOf(log.name), k, top))
  {
    hide Parsed, ConsumedAll, AllIn, BytesIn, HitsIn, SiteOf, IsAccessLog, LinesFrom, TooLong, Get, Add, Tally;
    var lines := Added(p.offsets, log);
    assert log in [log];
    ConsumedTally(q.buckets, parse, lines, SiteOf(log.name), k, top);
    TallyRequests(parse, lines, SiteOf(log.name), k, top);
    if Skipped(log) { NothingConsumed(q.buckets, parse, SiteOf(log.name)); }
  }

  /** The buckets have grown by the figures of all lines read. */
  predicate Grown(before: Buckets, after: Buckets, k: Key, sum: Bucket) {
    Get(after, k) == Add(Get(before, k), sum) && (k in after <==> k in before || sum.requests > 0) && sum.requests >= 0
  }

  lemma GrownFurther(a: Buckets, b: Buckets, c: Buckets, k: Key, sum: Bucket, more: Bucket)
    requires Grown(a, b, k, sum) && Grown(b, c, k, more)
    ensures Grown(a, c, k, Add(sum, more))
  {
  }

  lemma NothingAdded(b: Bucket)
    ensures Add(b, NOTHING) == b && NOTHING.requests == 0
  {
  }

  lemma NotGrown(a: Buckets, k: Key)
    ensures Grown(a, a, k, NOTHING)
  {
    hide Add, Get;
    NothingAdded(Get(a, k));
  }

  lemma {:induction false} ReadLogsTally(p: Progress, parse: Parser, logs: seq<Log>, k: Key, top: int)
    requires Distinct(logs) && ReadLogs(p, parse, logs).Some? && StatusesBelow(p.offsets, parse, logs, top)
    ensures Grown(p.buckets, ReadLogs(p, parse, logs).value.buckets, k, TallyAll(p.offsets, parse, logs, k, top))
    decreases |logs|
  {
    if logs == [] {
      NoLogs(p, parse, k, top);
      NotGrown(p.buckets, k);
    } else {
      var init, log := logs[..|logs| - 1], logs[|logs| - 1];
      LastLogApart(p.offsets, parse, logs, top);
      LastStep(p, parse, logs, k, top);
      hide *;
      ReadLogsTally(p, parse, init, k, top);
      ReadLogsOffsets(p, parse, init);
      var q := ReadLogs(p, parse, init).value;
      ReadLogTally(p, q, parse, log, k, top);
      GrownFurther(p.buckets, q.buckets, ReadLog(q, parse, log).value.buckets, k,
                   TallyAll(p.offsets, parse, init, k, top),
                   Tally(parse, Added(p.offsets, log), SiteOf(log.name), k, top));
    }
  }

  lemma LastStep(p: Progress, parse: Parser, logs: seq<Log>, k: Key, top: int)
    requires logs != [] && ReadLogs(p, parse, logs).Some?
    ensures var init, log := logs[..|logs| - 1], logs[|logs| - 1];
            ReadLogs(p, parse, init).Some? &&
            ReadLogs(p, parse, logs) == ReadLog(ReadLogs(p, parse, init).value, parse, log) &&
            TallyAll(p.offsets, parse, logs, k, top) ==
              Add(TallyAll(p.offsets, parse, init, k, top),
                  Tally(parse, Added(p.offsets, log), SiteOf(log.name), k, top))
  {
    hide ReadLog, Tally, Add, Added, SiteOf;
  }

  lemma NoLogs(p: Progress, parse: Parser, k: Key, top: int)
    ensures ReadLogs(p, parse, []) == Some(p) && TallyAll(p.offsets, parse, [], k, top) == NOTHING
  {
  }

  lemma LastLogApart(offsets: map<string, nat>, parse: Parser, logs: seq<Log>, top: int)
    requires logs != [] && Distinct(logs) && StatusesBelow(offsets, parse, logs, top)
    ensures var init, log := logs[..|logs| - 1], logs[|logs| - 1];
            Distinct(init) && StatusesBelow(offsets, parse, init, top) && StatusesBelow(offsets, parse, [log], top) &&
            Offset(Offsets(offsets, init), log.name) == Offset(offsets, log.name)
  {
    hide Parsed, Added, Offsets;
    var init, log := logs[..|logs| - 1], logs[|logs| - 1];
    assert log in logs && forall l <- init :: l in logs;
    forall l | l in init ensures l.name != log.name {}
    OffsetOfOther(offsets, init, log.name);
  }

  lemma NothingConsumed(m: Buckets, parse: Parser, site: string)
    ensures ConsumedAll(m, parse, [], site) == m
  {
  }

  /** A pass adds to each bucket of the table the figures of the lines it reads, summed over all logs of
      the site. */
  lemma PassCounts(p: Progress, parse: Parser, logs: seq<Log>, k: Key, top: int)
    requires Distinct(logs) && Collect(p, parse, logs).Some? && StatusesBelow(p.offsets, parse, logs, top)
    ensures Grown(p.buckets, Collect(p, parse, logs).value.buckets, k, TallyAll(p.offsets, parse, logs, k, top))
  {
    hide ReadLogs, Plus, TallyAll, StatusesBelow, Distinct, Add;
    var start := Progress(p.offsets, map[]);
    ReadLogsTally(start, parse, logs, k, top);
    var n := ReadLogs(start, parse, logs).value.buckets;
    GetPlus(p.buckets, n, k);
    AddAssociates(TallyAll(p.offsets, parse, logs, k, top), NOTHING, NOTHING);
  }

  /** Two logs of one site. */
  lemma DefaultIsShared()
    ensures SiteOf("access.log") == SiteOf("access-default.log") == "default"
  {
    SiteOfLog("default");
    assert "access-" + "default" + ".log" == "access-default.log";
  }

  // ---------- several passes ----------

  /** The log has grown by whole lines. */
  predicate Grows(a: Log, b: Log) {
    && a.name == b.name
    && (a.text.Some? ==> b.text.Some? && a.text.value <= b.text.value && WholeLines(a.text.value))
  }

  predicate AllGrow(a: seq<Log>, b: seq<Log>) {
    |a| == |b| && forall i :: 0 <= i < |a| ==> Grows(a[i], b[i])
  }

  predicate Distinct(logs: seq<Log>) {
    forall i, j :: 0 <= i < j < |logs| ==> logs[i].name != logs[j].name
  }

  predicate Unread(p: Progress, logs: seq<Log>) {
    forall log <- logs :: Offset(p.offsets, log.name) == 0
  }

  /** What a pass, whether it works or not, leaves. */
  function Pass(p: Progress, parse: Parser, logs: seq<Log>): Progress {
    match Collect(p, parse, logs)
    case None => p
    case Some(q) => q
  }

  function Offsets(offsets: map<string, nat>, logs: seq<Log>): map<string, nat> {
    if logs == [] then offsets
    else
      var before, log := Offsets(offsets, logs[..|logs| - 1]), logs[|logs| - 1];
      if Skipped(log) then before else before[log.name := |log.text.value|]
  }

  lemma {:induction false} ReadLogsOffsets(p: Progress, parse: Parser, logs: seq<Log>)
    ensures var r := ReadLogs(p, parse, logs); r.Some? ==> r.value.offsets == Offsets(p.offsets, logs)
  {
    hide Skipped, ConsumedAll, LinesFrom, TooLong;
    if logs != [] { ReadLogsOffsets(p, parse, logs[..|logs| - 1]); }
  }

  lemma {:induction false} OffsetOfOther(offsets: map<string, nat>, logs: seq<Log>, name: string)
    requires forall log <- logs :: log.name != name
    ensures Offset(Offsets(offsets, logs), name) == Offset(offsets, name)
    ensures name in Offsets(offsets, logs) <==> name in offsets
  {
    hide Skipped;
    if logs != [] {
      assert logs[|logs| - 1] in logs && forall log <- logs[..|logs| - 1] :: log in logs;
      OffsetOfOther(offsets, logs[..|logs| - 1], name);
    }
  }

  lemma {:induction false} OffsetOf(offsets: map<string, nat>, logs: seq<Log>, i: nat)
    requires Distinct(logs) && i < |logs|
    ensures Offset(Offsets(offsets, logs), logs[i].name)
            == if Skipped(logs[i]) then Offset(offsets, logs[i].name) else |logs[i].text.value|
    decreases |logs|
  {
    hide Skipped;
    var init := logs[..|logs| - 1];
    if i == |logs| - 1 {
      forall log | log in init ensures log.name != logs[i].name {}
      OffsetOfOther(offsets, init, logs[i].name);
    } else {
      assert init[i] == logs[i];
      OffsetOf(offsets, init, i);
    }
  }

  /** The same is known of the log. */
  predicate Alike(m: map<string, nat>, n: map<string, nat>, name: string) {
    (name in m <==> name in n) && Offset(m, name) == Offset(n, name)
  }

  lemma OffsetsStep(offsets: map<string, nat>, logs: seq<Log>, n: nat)
    requires 0 < n <= |logs|
    ensures var before := Offsets(offsets, logs[..n - 1]);
            (!Skipped(logs[n - 1]) ==> logs[n - 1].text.Some?) &&
            Offsets(offsets, logs[..n]) ==
            if Skipped(logs[n - 1]) then before else before[logs[n - 1].name := |logs[n - 1].text.value|]
  {
    assert logs[..n][..n - 1] == logs[..n - 1];
  }

  /** The offsets after two passes are those after the second alone. */
  lemma {:induction false} OffsetsTwice(offsets: map<string, nat>, a: seq<Log>, b: seq<Log>, n: nat)
    requires AllGrow(a, b) && Distinct(a) && n <= |a|
    ensures forall name :: (forall log <- a[n..] :: log.name != name) ==>
              Alike(Offsets(Offsets(offsets, a), b[..n]), Offsets(offsets, b[..n]), name)
  {
    assert |a| == |b|;
    hide Skipped, Offsets, AllGrow, Distinct, Alike;
    forall name | forall log <- a[n..] :: log.name != name
      ensures Alike(Offsets(Offsets(offsets, a), b[..n]), Offsets(offsets, b[..n]), name)
    {
      if n == 0 {
        assert a[n..] == a && b[..n] == [];
        NoneRead(offsets, a, name);
      } else {
        var log := b[n - 1];
        SameNames(a, b, n - 1);
        OffsetsStep(offsets, b, n);
        OffsetsStep(Offsets(offsets, a), b, n);
        if name != log.name {
          NotAmong(a, n - 1, name);
          OffsetsTwice(offsets, a, b, n - 1);
        } else if Skipped(log) {
          SkippedBefore(offsets, a, b, n - 1);
        }
        AlikeUpdated(Offsets(Offsets(offsets, a), b[..n - 1]), Offsets(offsets, b[..n - 1]), log, name);
      }
    }
  }

  lemma NoneRead(offsets: map<string, nat>, a: seq<Log>, name: string)
    requires forall log <- a :: log.name != name
    ensures Alike(Offsets(Offsets(offsets, a), []), Offsets(offsets, []), name)
  {
    OffsetOfOther(offsets, a, name);
  }

  lemma NotAmong(a: seq<Log>, i: nat, name: string)
    requires i < |a| && a[i].name != name && forall log <- a[i + 1..] :: log.name != name
    ensures forall log <- a[i..] :: log.name != name
  {
    assert a[i..] == [a[i]] + a[i + 1..];
  }

  lemma AlikeUpdated(m: map<string, nat>, n: map<string, nat>, log: Log, name: string)
    ensures log.text.Some? && (name == log.name || Alike(m, n, name)) ==>
              Alike(m[log.name := |log.text.value|], n[log.name := |log.text.value|], name)
  {
  }

  lemma SameNames(a: seq<Log>, b: seq<Log>, i: nat)
    requires AllGrow(a, b) && i < |a|
    ensures |a| == |b| && a[i].name == b[i].name
  {
  }

  /** A log that is still to come was not read by an earlier pass either. */
  lemma SkippedBefore(offsets: map<string, nat>, a: seq<Log>, b: seq<Log>, i: nat)
    requires AllGrow(a, b) && Distinct(a) && i < |a| && Skipped(b[i])
    ensures Alike(Offsets(Offsets(offsets, a), b[..i + 1]), Offsets(offsets, b[..i + 1]), b[i].name)
  {
    var name := b[i].name;
    assert Skipped(a[i]) && b[..i + 1][..i] == b[..i];
    forall log | log in b[..i] ensures log.name != name {}
    OffsetOfOther(offsets, b[..i], name);
    OffsetOfOther(Offsets(offsets, a), b[..i], name);
    NameOfSkipped(offsets, a, i);
  }

  lemma {:induction false} NameOfSkipped(offsets: map<string, nat>, logs: seq<Log>, i: nat)
    requires Distinct(logs) && i < |logs| && Skipped(logs[i])
    ensures Alike(Offsets(offsets, logs), offsets, logs[i].name)
    decreases |logs|
  {
    hide Skipped;
    var init := logs[..|logs| - 1];
    if i == |logs| - 1 {
      forall log | log in init ensures log.name != logs[i].name {}
      OffsetOfOther(offsets, init, logs[i].name);
    } else {
      assert init[i] == logs[i];
      NameOfSkipped(offsets, init, i);
    }
  }

  function TextOf(log: Log): string {
    if Skipped(log) then "" else log.text.value
  }

  lemma {:induction false} PlusCommutes(m: Buckets, n: Buckets)
    ensures Plus(m, n) == Plus(n, m)
  {
    forall k | k in m.Keys + n.Keys ensures Plus(m, n)[k] == Plus(n, m)[k] {}
  }

  lemma PlusNothing(m: Buckets)
    ensures Plus(m, map[]) == m && Plus(map[], m) == m
  {
  }

  /** The new lines of a log, after what an earlier pass read. */
  lemma LogInTwoPasses(m: Buckets, n: Buckets, parse: Parser, prior: string, text: string, site: string)
    requires prior <= text && WholeLines(prior)
    ensures Plus(ConsumedAll(m, parse, LinesFrom(prior, ""), site),
                 ConsumedAll(n, parse, LinesFrom(text[|prior|..], ""), site))
            == ConsumedAll(Plus(m, n), parse, LinesFrom(text, ""), site)
    ensures TooLong(text, 0, LIMIT) <==> TooLong(prior, 0, LIMIT) || TooLong(text[|prior|..], 0, LIMIT)
  {
    hide ConsumedAll, Plus, LinesFrom, TooLong;
    var first, second := LinesFrom(prior, ""), LinesFrom(text[|prior|..], "");
    assert prior + text[|prior|..] == text;
    LinesOfParts(prior, text[|prior|..], "");
    LongInParts(prior, text[|prior|..], 0, LIMIT);
    ConsumedAllPlus(ConsumedAll(m, parse, first, site), n, parse, second, site);
    PlusCommutes(ConsumedAll(m, parse, first, site), n);
    ConsumedAllPlus(n, m, parse, first, site);
    PlusCommutes(n, m);
    ConsumedConcat(Plus(m, n), parse, first, second, site);
  }

  /** Reading one log from where earlier reading stopped. */
  lemma ReadLogMeans(p: Progress, parse: Parser, log: Log, done: nat)
    requires done <= |TextOf(log)| && (!Skipped(log) ==> Offset(p.offsets, log.name) == done)
    ensures var r := ReadLog(p, parse, log); var added := TextOf(log)[done..];
            (r.Some? <==> !TooLong(added, 0, LIMIT)) &&
            (r.Some? ==> r.value.buckets == ConsumedAll(p.buckets, parse, LinesFrom(added, ""), SiteOf(log.name)))
  {
    assert Skipped(log) ==> TextOf(log)[done..] == "";
  }

  /** One log: what the first pass and the second pass count is what one pass counts. */
  lemma OneLogAdds(x: Progress, y: Progress, z: Progress, parse: Parser, a: Log, b: Log)
    requires Grows(a, b) && z.buckets == Plus(x.buckets, y.buckets)
    requires Offset(x.offsets, a.name) == 0 && Offset(y.offsets, b.name) == |TextOf(a)| &&
             Offset(z.offsets, b.name) == 0
    ensures var x', y', z' := ReadLog(x, parse, a), ReadLog(y, parse, b), ReadLog(z, parse, b);
            (z'.Some? <==> x'.Some? && y'.Some?) &&
            (z'.Some? ==> z'.value.buckets == Plus(x'.value.buckets, y'.value.buckets))
  {
    hide ConsumedAll, Plus, LinesFrom, TooLong, Skipped, ReadLog, TextOf;
    TextsGrow(a, b);
    ReadLogMeans(x, parse, a, 0);
    ReadLogMeans(y, parse, b, |TextOf(a)|);
    ReadLogMeans(z, parse, b, 0);
    LogInTwoPasses(x.buckets, y.buckets, parse, TextOf(a), TextOf(b), SiteOf(a.name));
    assert TextOf(a)[0..] == TextOf(a) && TextOf(b)[0..] == TextOf(b);
  }

  lemma ReadLogsStep(p: Progress, parse: Parser, logs: seq<Log>, n: nat)
    requires 0 < n <= |logs|
    ensures ReadLogs(p, parse, logs[..n]) ==
            match ReadLogs(p, parse, logs[..n - 1]) case None => None case Some(q) => ReadLog(q, parse, logs[n - 1])
  {
    hide ReadLog;
    assert logs[..n][..n - 1] == logs[..n - 1];
  }

  /** Log by log: the two passes count what one pass counts. */
  lemma {:induction false} PassesAdd(offsets: map<string, nat>, parse: Parser, a: seq<Log>, b: seq<Log>, n: nat)
    requires AllGrow(a, b) && Distinct(a) && n <= |a| && forall log <- a :: Offset(offsets, log.name) == 0
    ensures var x := ReadLogs(Progress(offsets, map[]), parse, a[..n]);
            var y := ReadLogs(Progress(Offsets(offsets, a), map[]), parse, b[..n]);
            var z := ReadLogs(Progress(offsets, map[]), parse, b[..n]);
            (z.Some? <==> x.Some? && y.Some?) && (z.Some? ==> z.value.buckets == Plus(x.value.buckets, y.value.buckets))
  {
    if n == 0 {
      PlusNothing(map[]);
    } else {
      assert |a| == |b| && Grows(a[n - 1], b[n - 1]);
      hide Plus, ReadLog, ReadLogs, Offsets, Grows, TextOf;
      var i := n - 1;
      PassesAdd(offsets, parse, a, b, i);
      ReadLogsStep(Progress(offsets, map[]), parse, a, n);
      ReadLogsStep(Progress(Offsets(offsets, a), map[]), parse, b, n);
      ReadLogsStep(Progress(offsets, map[]), parse, b, n);
      var x := ReadLogs(Progress(offsets, map[]), parse, a[..i]);
      var y := ReadLogs(Progress(Offsets(offsets, a), map[]), parse, b[..i]);
      if x.Some? && y.Some? {
        var z := ReadLogs(Progress(offsets, map[]), parse, b[..i]);
        OffsetsSoFar(offsets, parse, a, b, i);
        OneLogAdds(x.value, y.value, z.value, parse, a[i], b[i]);
      }
    }
  }

  lemma TextsGrow(a: Log, b: Log)
    requires Grows(a, b)
    ensures TextOf(a) <= TextOf(b) && WholeLines(TextOf(a))
  {
  }

  /** Before its turn, no log of this pass is read further than an earlier pass left it. */
  lemma OffsetsSoFar(offsets: map<string, nat>, parse: Parser, a: seq<Log>, b: seq<Log>, i: nat)
    requires AllGrow(a, b) && Distinct(a) && i < |a| && forall log <- a :: Offset(offsets, log.name) == 0
    requires ReadLogs(Progress(offsets, map[]), parse, a[..i]).Some?
    requires ReadLogs(Progress(Offsets(offsets, a), map[]), parse, b[..i]).Some?
    requires ReadLogs(Progress(offsets, map[]), parse, b[..i]).Some?
    ensures Offset(ReadLogs(Progress(offsets, map[]), parse, a[..i]).value.offsets, a[i].name) == 0
    ensures Offset(ReadLogs(Progress(Offsets(offsets, a), map[]), parse, b[..i]).value.offsets, b[i].name) ==
              |TextOf(a[i])|
    ensures Offset(ReadLogs(Progress(offsets, map[]), parse, b[..i]).value.offsets, b[i].name) == 0
  {
    hide ReadLogs, Skipped;
    ReadLogsOffsets(Progress(offsets, map[]), parse, a[..i]);
    ReadLogsOffsets(Progress(Offsets(offsets, a), map[]), parse, b[..i]);
    ReadLogsOffsets(Progress(offsets, map[]), parse, b[..i]);
    forall log | log in a[..i] ensures log.name != a[i].name {}
    forall log | log in b[..i] ensures log.name != a[i].name {}
    OffsetOfOther(offsets, a[..i], a[i].name);
    OffsetOfOther(Offsets(offsets, a), b[..i], a[i].name);
    OffsetOfOther(offsets, b[..i], a[i].name);
    OffsetOf(offsets, a, i);
    assert a[i] in a;
  }

  lemma SameOffsets(offsets: map<string, nat>, a: seq<Log>, b: seq<Log>)
    requires AllGrow(a, b) && Distinct(a)
    ensures Offsets(Offsets(offsets, a), b) == Offsets(offsets, b)
  {
    hide Offsets;
    OffsetsTwice(offsets, a, b, |a|);
    assert b[..|a|] == b && a[|a|..] == [];
    var two, one := Offsets(Offsets(offsets, a), b), Offsets(offsets, b);
    forall name | name in two || name in one ensures name in two && name in one && two[name] == one[name] {
      assert Alike(two, one, name);
    }
  }

  /** After a pass over the logs, and once they have grown by whole lines, the next pass
      comes to what one pass over the grown logs would have come to. */
  lemma TwoPassesAreOne(p: Progress, parse: Parser, a: seq<Log>, b: seq<Log>)
    requires AllGrow(a, b) && Distinct(a) && Unread(p, a)
    ensures Collect(Pass(p, parse, a), parse, b) == Collect(p, parse, b)
  {
    hide ReadLogs, Plus, Skipped;
    var start := Progress(p.offsets, map[]);
    assert a[..|a|] == a && b[..|b|] == b;
    PassesAdd(p.offsets, parse, a, b, |a|);
    ReadLogsOffsets(start, parse, a);
    ReadLogsOffsets(start, parse, b);
    var x := ReadLogs(start, parse, a);
    if x.Some? {
      var again := Progress(x.value.offsets, map[]);
      ReadLogsOffsets(again, parse, b);
      SameOffsets(p.offsets, a, b);
      var y := ReadLogs(again, parse, b);
      if y.Some? { PlusAssociates(p.buckets, x.value.buckets, y.value.buckets); }
    }
  }

  function Passes(p: Progress, parse: Parser, snapshots: seq<seq<Log>>): Progress {
    if snapshots == [] then p
    else Pass(Passes(p, parse, snapshots[..|snapshots| - 1]), parse, snapshots[|snapshots| - 1])
  }

  predicate AllGrowInto(snapshots: seq<seq<Log>>, last: seq<Log>) {
    snapshots == [] ||
    (AllGrow(snapshots[|snapshots| - 1], last) &&
     AllGrowInto(snapshots[..|snapshots| - 1], snapshots[|snapshots| - 1]))
  }

  lemma {:induction false} GrowthGoesOn(snapshots: seq<seq<Log>>, a: seq<Log>, b: seq<Log>)
    requires AllGrowInto(snapshots, a) && AllGrow(a, b)
    ensures AllGrowInto(snapshots, b)
  {
    if snapshots != [] {
      var last := snapshots[|snapshots| - 1];
      forall i | 0 <= i < |last| ensures Grows(last[i], b[i]) { assert Grows(last[i], a[i]) && Grows(a[i], b[i]); }
    }
  }

  /** However often the logs are read while they grow by whole lines, and whatever passes
      fail: a pass comes to what one single pass over the logs would come to. */
  lemma {:induction false} PassesAreOne(p: Progress, parse: Parser, snapshots: seq<seq<Log>>, last: seq<Log>)
    requires AllGrowInto(snapshots, last) && Distinct(last) && Unread(p, last)
    ensures Collect(Passes(p, parse, snapshots), parse, last) == Collect(p, parse, last)
    decreases |snapshots|
  {
    hide Collect;
    if snapshots != [] {
      var init, now := snapshots[..|snapshots| - 1], snapshots[|snapshots| - 1];
      assert forall i :: 0 <= i < |now| ==> now[i].name == last[i].name by {
        forall i | 0 <= i < |now| ensures now[i].name == last[i].name { assert Grows(now[i], last[i]); }
      }
      assert Unread(p, now) by {
        forall log | log in now ensures Offset(p.offsets, log.name) == 0 {
          var i :| 0 <= i < |now| && now[i] == log;
          assert last[i] in last;
        }
      }
      PassesAreOne(p, parse, init, now);
      if Collect(p, parse, now).Some? {
        assert Passes(p, parse, snapshots) == Pass(p, parse, now);
        TwoPassesAreOne(p, parse, now, last);
      } else {
        GrowthGoesOn(init, now, last);
        PassesAreOne(p, parse, init, last);
      }
    }
  }

  /** However often growing logs are read, and whatever passes fail: after a last pass that works the
      table holds, beside what it held before, the figures of all lines of all logs. */
  lemma TableCounts(p: Progress, parse: Parser, snapshots: seq<seq<Log>>, last: seq<Log>, k: Key, top: int)
    requires AllGrowInto(snapshots, last) && Distinct(last) && Unread(p, last)
    requires Collect(Passes(p, parse, snapshots), parse, last).Some? && StatusesBelow(map[], parse, last, top)
    ensures Grown(p.buckets, Collect(Passes(p, parse, snapshots), parse, last).value.buckets, k,
                  TallyAll(map[], parse, last, k, top))
  {
    hide Collect, Passes;
    PassesAreOne(p, parse, snapshots, last);
    UnreadIsAdded(p.offsets, parse, last, k, top);
    PassCounts(p, parse, last, k, top);
  }

  lemma {:induction false} UnreadIsAdded(offsets: map<string, nat>, parse: Parser, logs: seq<Log>, k: Key, top: int)
    requires forall log <- logs :: Offset(offsets, log.name) == 0
    ensures forall log <- logs :: Added(offsets, log) == Added(map[], log)
    ensures TallyAll(offsets, parse, logs, k, top) == TallyAll(map[], parse, logs, k, top)
    decreases |logs|
  {
    hide Tally, LinesFrom, SiteOf, IsAccessLog;
    if logs != [] {
      assert logs[|logs| - 1] in logs && forall l <- logs[..|logs| - 1] :: l in logs;
      UnreadIsAdded(offsets, parse, logs[..|logs| - 1], k, top);
    }
  }

  // ---------- retention ----------

  /** What a purge leaves: buckets from the cutoff on. Without a cutoff nothing is purged. */
  function Purged(m: Buckets, cutoff: Option<int>): Buckets {
    if cutoff.None? then m else map k | k in m && k.time >= cutoff.value :: m[k]
  }

  /** One call: a pass and, if it works, a purge. */
  function Visit(p: Progress, parse: Parser, logs: seq<Log>, cutoff: Option<int>): Progress {
    match Collect(p, parse, logs)
    case None => p
    case Some(q) => q.(buckets := Purged(q.buckets, cutoff))
  }

  datatype Call = Call(logs: seq<Log>, cutoff: Option<int>)

  function Visits(p: Progress, parse: Parser, calls: seq<Call>): Progress {
    if calls == [] then p
    else
      var last := calls[|calls| - 1];
      Visit(Visits(p, parse, calls[..|calls| - 1]), parse, last.logs, last.cutoff)
  }

  function LogsOf(calls: seq<Call>): seq<seq<Log>> {
    seq(|calls|, i requires 0 <= i < |calls| => calls[i].logs)
  }

  /** No later than. */
  predicate NoLater(c: Option<int>, d: Option<int>) {
    c.Some? ==> d.Some? && c.value <= d.value
  }

  /** The same offsets, and the same buckets from the cutoff on. */
  predicate SameSince(x: Progress, y: Progress, cutoff: Option<int>) {
    x.offsets == y.offsets && Purged(x.buckets, cutoff) == Purged(y.buckets, cutoff)
  }

  lemma PurgedTwice(m: Buckets, c: Option<int>, d: Option<int>)
    requires NoLater(c, d)
    ensures Purged(Purged(m, c), d) == Purged(m, d)
  {
  }

  lemma PurgedAt(m: Buckets, cutoff: Option<int>, k: Key)
    ensures k in Purged(m, cutoff) <==> k in m && (cutoff.Some? ==> k.time >= cutoff.value)
    ensures k in Purged(m, cutoff) ==> Purged(m, cutoff)[k] == m[k]
  {
  }

  lemma PurgedPlus(m: Buckets, n: Buckets, more: Buckets, cutoff: Option<int>)
    requires Purged(m, cutoff) == Purged(n, cutoff)
    ensures Purged(Plus(m, more), cutoff) == Purged(Plus(n, more), cutoff)
  {
    hide Plus, Purged, Add;
    var left, right := Purged(Plus(m, more), cutoff), Purged(Plus(n, more), cutoff);
    forall k ensures (k in left <==> k in right) && Get(left, k) == Get(right, k) {
      PurgedAt(m, cutoff, k);
      PurgedAt(n, cutoff, k);
      PurgedAt(Plus(m, more), cutoff, k);
      PurgedAt(Plus(n, more), cutoff, k);
      GetPlus(m, more, k);
      GetPlus(n, more, k);
    }
    SameBuckets(left, right);
  }

  lemma CollectSince(x: Progress, y: Progress, parse: Parser, logs: seq<Log>, cutoff: Option<int>)
    requires SameSince(x, y, cutoff)
    ensures Collect(x, parse, logs).Some? <==> Collect(y, parse, logs).Some?
    ensures Collect(x, parse, logs).Some? ==>
              SameSince(Collect(x, parse, logs).value, Collect(y, parse, logs).value, cutoff)
  {
    hide ReadLogs, Plus, Purged;
    var q := ReadLogs(Progress(x.offsets, map[]), parse, logs);
    if q.Some? { PurgedPlus(x.buckets, y.buckets, q.value.buckets, cutoff); }
  }

  /** Purging earlier, by cutoffs that are no later, makes no difference to what is left. */
  lemma {:induction false} VisitsSince(p: Progress, parse: Parser, calls: seq<Call>, cutoff: Option<int>)
    requires forall call <- calls :: NoLater(call.cutoff, cutoff)
    ensures SameSince(Visits(p, parse, calls), Passes(p, parse, LogsOf(calls)), cutoff)
  {
    if calls != [] {
      var init, last := calls[..|calls| - 1], calls[|calls| - 1];
      assert last in calls && forall call <- init :: call in calls;
      VisitsSince(p, parse, init, cutoff);
      assert LogsOf(calls)[..|calls| - 1] == LogsOf(init);
      var x, y := Visits(p, parse, init), Passes(p, parse, LogsOf(init));
      hide Collect, Purged, Visits, Passes;
      CollectSince(x, y, parse, last.logs, cutoff);
      if Collect(x, parse, last.logs).Some? {
        PurgedTwice(Collect(x, parse, last.logs).value.buckets, last.cutoff, cutoff);
      }
      VisitsStep(p, parse, calls);
    }
  }

  lemma VisitsStep(p: Progress, parse: Parser, calls: seq<Call>)
    requires calls != []
    ensures var init, last := calls[..|calls| - 1], calls[|calls| - 1];
            Visits(p, parse, calls) == Visit(Visits(p, parse, init), parse, last.logs, last.cutoff) &&
            Passes(p, parse, LogsOf(calls)) == Pass(Passes(p, parse, LogsOf(init)), parse, last.logs)
  {
    hide Visit, Pass;
    assert LogsOf(calls)[..|calls| - 1] == LogsOf(calls[..|calls| - 1]);
  }

  /** After a call that works the table holds exactly the buckets of the pass from the cutoff on, and without a
      cutoff all of them. */
  lemma CallPurges(p: Progress, parse: Parser, logs: seq<Log>, cutoff: Option<int>, k: Key)
    requires Collect(p, parse, logs).Some?
    ensures var before, after := Collect(p, parse, logs).value.buckets, Visit(p, parse, logs, cutoff).buckets;
            (k in after <==> k in before && (cutoff.Some? ==> k.time >= cutoff.value)) &&
            (k in after ==> after[k] == before[k])
    ensures Visit(p, parse, logs, cutoff).offsets == Collect(p, parse, logs).value.offsets
  {
    hide Collect, Purged;
    PurgedAt(Collect(p, parse, logs).value.buckets, cutoff, k);
  }

  /** With the purges: calls on growing logs, with cutoffs that move on, leave what a single call
      on the grown logs with the last cutoff would leave. */
  lemma CallsAreOne(p: Progress, parse: Parser, calls: seq<Call>, last: Call)
    requires AllGrowInto(LogsOf(calls), last.logs) && Distinct(last.logs) && Unread(p, last.logs)
    requires forall call <- calls :: NoLater(call.cutoff, last.cutoff)
    ensures Collect(Visits(p, parse, calls), parse, last.logs).Some? <==> Collect(p, parse, last.logs).Some?
    ensures Collect(p, parse, last.logs).Some? ==>
              Visit(Visits(p, parse, calls), parse, last.logs, last.cutoff) == Visit(p, parse, last.logs, last.cutoff)
  {
    hide Collect, Purged, Visits, Passes;
    VisitsSince(p, parse, calls, last.cutoff);
    PassesAreOne(p, parse, LogsOf(calls), last.logs);
    CollectSince(Visits(p, parse, calls), Passes(p, parse, LogsOf(calls)), parse, last.logs, last.cutoff);
  }

  // ---------- the code ----------

  class TrafficCollector {
    var offsets: map<string, nat>
    var stored: Buckets
    const parse: Parser

    constructor (parse: Parser)
      ensures this.parse == parse && Now() == Progress(map[], map[])
    {
      this.parse := parse;
      this.offsets, this.stored := map[], map[];
    }

    function Now(): Progress
      reads this
    {
      Progress(offsets, stored)
    }

    /** One line into the buckets of this pass. */
    method ConsumeLine(buckets: Buckets, line: string, site: string) returns (r: Buckets, ok: bool)
      ensures r == Consumed(buckets, parse, line, site) && ok == Parsed(parse, line).Some?
    {
      r := buckets;
      if TrimSpace(line) == "" { return r, false; }
      var hit := parse(line);
      if hit == None { return r, false; }
      var key := Key(Truncated(hit.value.time), site);
      var b := if key in r then r[key] else NOTHING;
      var status := hit.value.status;
      b := b.(requests := b.requests + 1, bytes := b.bytes + hit.value.bytes);
      if 200 <= status < 300 {
        b := b.(s2xx := b.s2xx + 1);
      } else if 300 <= status < 400 {
        b := b.(s3xx := b.s3xx + 1);
      } else if 400 <= status < 500 {
        b := b.(s4xx := b.s4xx + 1);
      } else if status >= 500 {
        b := b.(s5xx := b.s5xx + 1);
      }
      r := r[key := b];
      ok := true;
    }

    method ReadFromOffset(p: Progress, log: Log) returns (r: Option<Progress>)
      ensures r == ReadLog(p, parse, log)
    {
      hide Consumed, TooLong, LinesFrom, IsAccessLog, SiteOf;
      if !IsAccessLog(log.name) || log.text == None { return Some(p); }
      var text := log.text.value;
      var offset := if log.name in p.offsets then p.offsets[log.name] else 0;
      if |text| < offset { offset := 0; }
      var added := text[offset..];
      if TooLong(added, 0, LIMIT) { return None; }
      var buckets := p.buckets;
      var lines := LinesFrom(added, "");
      for i := 0 to |lines|
        invariant buckets == ConsumedAll(p.buckets, parse, lines[..i], SiteOf(log.name))
      {
        assert lines[..i + 1][..i] == lines[..i];
        var ok;
        buckets, ok := ConsumeLine(buckets, lines[i], SiteOf(log.name));
      }
      assert lines[..|lines|] == lines;
      r := Some(Progress(p.offsets[log.name := |text|], buckets));
    }

    method UpsertBucket(k: Key, b: Bucket)
      modifies this`stored
      ensures stored == old(stored)[k := Add(Get(old(stored), k), b)]
    {
      stored := stored[k := Add(if k in stored then stored[k] else NOTHING, b)];
    }

    method Store(buckets: Buckets)
      modifies this`stored
      ensures stored == Plus(old(stored), buckets)
    {
      hide Plus;
      var keys := buckets.Keys;
      ghost var done: Buckets := map[];
      PlusNothing(stored);
      while keys != {}
        invariant keys <= buckets.Keys
        invariant done == map k | k in buckets && k !in keys :: buckets[k]
        invariant stored == Plus(old(stored), done)
        decreases |keys|
      {
        var k :| k in keys;
        PlusAdd(old(stored), done, k, buckets[k]);
        AddAssociates(buckets[k], NOTHING, NOTHING);
        UpsertBucket(k, buckets[k]);
        done := done[k := buckets[k]];
        keys := keys - {k};
      }
      assert done == buckets;
    }

    method PurgeOlderThan(cutoff: int)
      modifies this`stored
      ensures stored == Purged(old(stored), Some(cutoff))
    {
      stored := map k | k in stored && k.time >= cutoff :: stored[k];
    }

    /** cutoff: None if buckets are kept for ever, or if the purge fails. */
    method Run(logs: seq<Log>, cutoff: Option<int>) returns (ok: bool)
      modifies this
      ensures Now() == Visit(old(Now()), parse, logs, cutoff) && ok == Collect(old(Now()), parse, logs).Some?
    {
      hide ReadLog, Plus, Purged;
      var p := Progress(offsets, map[]);
      for i := 0 to |logs|
        invariant ReadLogs(Progress(offsets, map[]), parse, logs[..i]) == Some(p)
        invariant Now() == old(Now())
      {
        assert logs[..i + 1][..i] == logs[..i];
        var next := ReadFromOffset(p, logs[i]);
        if next == None {
          StaysStuck(Progress(offsets, map[]), parse, logs, i + 1);
          return false;
        }
        p := next.value;
      }
      assert logs[..|logs|] == logs;
      Store(p.buckets);
      offsets := p.offsets;
      NotPurged(stored);
      if cutoff.Some? { PurgeOlderThan(cutoff.value); }
      return true;
    }
  }

  lemma NotPurged(m: Buckets)
    ensures Purged(m, None) == m
  {
  }

  lemma {:induction false} StaysStuck(p: Progress, parse: Parser, logs: seq<Log>, n: nat)
    requires n <= |logs| && ReadLogs(p, parse, logs[..n]) == None
    ensures ReadLogs(p, parse, logs) == None
    decreases |logs| - n
  {
    if n == |logs| {
      assert logs[..n] == logs;
    } else {
      assert logs[..n + 1][..n] == logs[..n];
      StaysStuck(p, parse, logs, n + 1);
    }
  }
}
