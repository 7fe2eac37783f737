/** Following sources live (splunklite/service.go, TailQuery and tailOne): rows are inserted, and
    job rows changed, at any time; every poll of a source sends its matching rows that are newer
    than its watermark and moves that to the newest row it saw. Times are in nanoseconds. */
module Tail {
  import opened Text

  /** hit: the filter accepts the row as it is now. */
  datatype Row = Row(ts: int, hit: bool)

  /** The table of the source in the order of insertion, whether each row was newer than the
      watermark when it came, whether the filter accepted it when a poll came across it, the
      watermark, and the rows sent so far. */
  datatype State = State(table: seq<Row>, due: seq<bool>, taken: seq<bool>, mark: int, sent: seq<nat>)

  predicate Unique(s: seq<nat>) {
    forall a, b :: 0 <= a < b < |s| ==> s[a] != s[b]
  }

  predicate Known(s: seq<nat>, table: seq<Row>) {
    forall a :: 0 <= a < |s| ==> s[a] < |table|
  }

  /** Oldest first. */
  predicate InOrder(s: seq<nat>, table: seq<Row>) {
    Known(s, table) && forall a, b :: 0 <= a < b < |s| ==> table[s[a]].ts <= table[s[b]].ts
  }

  /** ListSince: the rows newer than mark, oldest first. Rows of the same time may come in
      any order. */
  ghost predicate IsListing(order: seq<nat>, table: seq<Row>, mark: int) {
    && Unique(order) && InOrder(order, table)
    && forall i: nat :: i in order <==> i < |table| && table[i].ts > mark
  }

  function Hits(order: seq<nat>, table: seq<Row>): seq<nat>
    requires Known(order, table)
  {
    if order == [] then []
    else
      var last := order[|order| - 1];
      Hits(order[..|order| - 1], table) + if table[last].hit then [last] else []
  }

  /** The time of the newest row of the listing, or the watermark. */
  function Newest(order: seq<nat>, table: seq<Row>, mark: int): int
    requires Known(order, table)
  {
    if order == [] then mark
    else
      var before := Newest(order[..|order| - 1], table, mark);
      var ts := table[order[|order| - 1]].ts;
      if ts > before then ts else before
  }

  /** The rows of the listing are judged as they are now. */
  function Judged(order: seq<nat>, table: seq<Row>, taken: seq<bool>): (r: seq<bool>)
    requires |taken| == |table|
    ensures |r| == |table|
  {
    seq(|table|, i requires 0 <= i < |table| => if i in order then table[i].hit else taken[i])
  }

  /** A change of a row leaves its time alone. */
  datatype Move = Insert(row: Row) | Change(i: nat, hit: bool) | Poll(order: seq<nat>)

  ghost predicate Possible(s: State, m: Move) {
    match m
    case Insert(_) => true
    case Change(i, _) => i < |s.table|
    case Poll(order) => |s.taken| == |s.table| && IsListing(order, s.table, s.mark)
  }

  ghost function Step(s: State, m: Move): State
    requires Possible(s, m)
  {
    match m
    case Insert(row) => s.(table := s.table + [row], due := s.due + [row.ts > s.mark], taken := s.taken + [false])
    case Change(i, hit) => s.(table := s.table[i := s.table[i].(hit := hit)])
    case Poll(order) =>
      s.(sent := s.sent + Hits(order, s.table), mark := Newest(order, s.table, s.mark),
         taken := Judged(order, s.table, s.taken))
  }

  ghost predicate PossibleRun(s: State, moves: seq<Move>)
    decreases moves
  {
    moves == [] || (Possible(s, moves[0]) && PossibleRun(Step(s, moves[0]), moves[1..]))
  }

  ghost function Run(s: State, moves: seq<Move>): State
    requires PossibleRun(s, moves)
    decreases moves
  {
    if moves == [] then s else Run(Step(s, moves[0]), moves[1..])
  }

  /** A subscriber starts: what is in the table already and older than the watermark is not due. */
  function Subscribed(table: seq<Row>, mark: int): State {
    State(table, seq(|table|, i requires 0 <= i < |table| => table[i].ts > mark), seq(|table|, i => false), mark, [])
  }

  // ---------- what always holds ----------

  /** Sent are exactly the rows that were due, that the watermark has passed and that matched
      then, each once, in order of time. A row that is not due is never newer than the watermark. */
  ghost predicate Delivered(s: State) {
    && |s.due| == |s.table| == |s.taken|
    && (forall i :: 0 <= i < |s.table| && !s.due[i] ==> s.table[i].ts <= s.mark)
    && Unique(s.sent) && InOrder(s.sent, s.table)
    && (forall i: nat :: i in s.sent <==> i < |s.table| && s.due[i] && s.taken[i] && s.table[i].ts <= s.mark)
  }

  /** What was judged has not changed since. */
  ghost predicate Unchanged(s: State) {
    |s.due| == |s.table| == |s.taken| &&
    forall i :: 0 <= i < |s.table| && s.due[i] && s.table[i].ts <= s.mark ==> s.taken[i] == s.table[i].hit
  }

  lemma OneMore(s: seq<nat>, last: nat, table: seq<Row>)
    requires Unique(s) && InOrder(s, table) && last < |table|
    requires forall a :: 0 <= a < |s| ==> table[s[a]].ts <= table[last].ts && s[a] != last
    ensures Unique(s + [last]) && InOrder(s + [last], table)
  {
  }

  lemma AllButLast(order: seq<nat>, table: seq<Row>)
    requires Unique(order) && InOrder(order, table) && order != []
    ensures var init, last := order[..|order| - 1], order[|order| - 1];
            Unique(init) && InOrder(init, table) &&
            forall i <- init :: i < |table| && table[i].ts <= table[last].ts && i != last
    ensures forall i :: i in order <==> i in order[..|order| - 1] || i == order[|order| - 1]
  {
    var init, last := order[..|order| - 1], order[|order| - 1];
    assert order == init + [last];
  }

  lemma {:induction false} HitsMean(order: seq<nat>, table: seq<Row>)
    requires Unique(order) && InOrder(order, table)
    ensures var h := Hits(order, table);
            Unique(h) && InOrder(h, table) && forall i :: i in h <==> i in order && table[i].hit
  {
    if order != [] {
      hide Unique;
      var init, last := order[..|order| - 1], order[|order| - 1];
      AllButLast(order, table);
      HitsMean(init, table);
      var h := Hits(init, table);
      assert forall a :: 0 <= a < |h| ==> h[a] in h;
      if table[last].hit { OneMore(h, last, table); }
    }
  }

  lemma {:induction false} NewestMeans(order: seq<nat>, table: seq<Row>, mark: int)
    requires Known(order, table)
    ensures var n := Newest(order, table, mark); n >= mark && forall a :: 0 <= a < |order| ==> table[order[a]].ts <= n
  {
    if order != [] {
      NewestMeans(order[..|order| - 1], table, mark);
    }
  }

  lemma InsertDelivers(s: State, row: Row)
    requires Delivered(s)
    ensures Delivered(Step(s, Insert(row)))
  {
  }

  lemma ChangeDelivers(s: State, i: nat, hit: bool)
    requires Delivered(s) && i < |s.table|
    ensures Delivered(Step(s, Change(i, hit)))
  {
    var t := Step(s, Change(i, hit));
    assert forall j :: 0 <= j < |s.table| ==> t.table[j].ts == s.table[j].ts;
  }

  lemma Appended(a: seq<nat>, b: seq<nat>, table: seq<Row>, mark: int)
    requires Unique(a) && InOrder(a, table) && Unique(b) && InOrder(b, table)
    requires forall i <- a :: i < |table| && table[i].ts <= mark
    requires forall i <- b :: i < |table| && table[i].ts > mark
    ensures Unique(a + b) && InOrder(a + b, table)
  {
    assert forall k :: 0 <= k < |a| ==> a[k] in a;
    assert forall k :: 0 <= k < |b| ==> b[k] in b;
  }

  lemma PollDelivers(s: State, order: seq<nat>)
    requires Delivered(s) && Possible(s, Poll(order))
    ensures var t := Step(s, Poll(order));
            Delivered(t) && t.mark >= s.mark && (Unchanged(s) ==> Unchanged(t)) &&
            forall i :: 0 <= i < |t.table| ==> t.table[i].ts <= t.mark
  {
    HitsMean(order, s.table);
    NewestMeans(order, s.table, s.mark);
    Appended(s.sent, Hits(order, s.table), s.table, s.mark);
    var t := Step(s, Poll(order));
    forall i | 0 <= i < |t.table| ensures t.table[i].ts <= t.mark {
      if i in order { assert exists a :: 0 <= a < |order| && order[a] == i; }
    }
  }

  lemma StepDelivers(s: State, m: Move)
    requires Delivered(s) && Possible(s, m)
    ensures Delivered(Step(s, m)) && Step(s, m).mark >= s.mark
    ensures Unchanged(s) && !m.Change? ==> Unchanged(Step(s, m))
  {
    match m
    case Insert(row) => InsertDelivers(s, row);
    case Change(i, hit) => ChangeDelivers(s, i, hit);
    case Poll(order) => PollDelivers(s, order);
  }

  predicate NoChange(moves: seq<Move>) {
    forall m <- moves :: !m.Change?
  }

  /** Over every run of insertions, changes and polls. */
  lemma {:induction false} RunDelivers(s: State, moves: seq<Move>)
    requires Delivered(s) && PossibleRun(s, moves)
    ensures Delivered(Run(s, moves)) && Run(s, moves).mark >= s.mark
    ensures Unchanged(s) && NoChange(moves) ==> Unchanged(Run(s, moves))
    decreases moves
  {
    hide Delivered, Unchanged, Step, Possible;
    if moves != [] {
      assert moves[0] in moves && forall m <- moves[1..] :: m in moves;
      StepDelivers(s, moves[0]);
      RunDelivers(Step(s, moves[0]), moves[1..]);
    }
  }

  /** After the next poll, a row has been sent, once, exactly when it was newer than the
      watermark as it came and matched as a poll came across it; everything was sent in order
      of time. If no row changes, it is enough that it matches. */
  lemma ExactlyOnce(table: seq<Row>, mark: int, moves: seq<Move>, order: seq<nat>)
    requires PossibleRun(Subscribed(table, mark), moves)
    requires Possible(Run(Subscribed(table, mark), moves), Poll(order))
    ensures var s := Step(Run(Subscribed(table, mark), moves), Poll(order));
            && |s.due| == |s.table| == |s.taken| && Unique(s.sent) && InOrder(s.sent, s.table)
            && (forall i: nat :: i in s.sent <==> i < |s.table| && s.due[i] && s.taken[i])
            && (NoChange(moves) ==> forall i: nat :: i in s.sent <==> i < |s.table| && s.due[i] && s.table[i].hit)
  {
    RunDelivers(Subscribed(table, mark), moves);
    PollDelivers(Run(Subscribed(table, mark), moves), order);
  }

  lemma OneListed(row: Row, mark: int)
    ensures Hits([0], [row]) == (if row.hit then [0] else []) &&
            Newest([0], [row], mark) == if row.ts > mark then row.ts else mark
  {
    var order: seq<nat> := [0];
    assert order[..0] == [] && Hits([], [row]) == [] && Newest([], [row], mark) == mark;
    assert Hits(order, [row]) == Hits(order[..0], [row]) + if row.hit then [0] else [];
  }

  lemma RunStep(s: State, m: Move, moves: seq<Move>)
    requires Possible(s, m) && PossibleRun(Step(s, m), moves)
    ensures PossibleRun(s, [m] + moves) && Run(s, [m] + moves) == Run(Step(s, m), moves)
  {
    hide Step, Possible;
    assert ([m] + moves)[1..] == moves;
  }

  /** A job that comes to match after a poll has passed it is never sent. */
  lemma ChangedTooLate(row: Row)
    requires row.ts > 0 && !row.hit
    ensures var moves := [Insert(row)] + ([Poll([0])] + ([Change(0, true)] + ([Poll([])] + [])));
            var s := Subscribed([], 0);
            PossibleRun(s, moves) && Run(s, moves).table == [row.(hit := true)] && Run(s, moves).sent == []
  {
    var s := Subscribed([], 0);
    var s1 := Step(s, Insert(row));
    assert s1.table == [row] && s1.mark == 0 && s1.sent == [];
    OneRowListed(row);
    OneListed(row, 0);
    var s2 := Step(s1, Poll([0]));
    assert s2.table == [row] && s2.mark == row.ts && s2.sent == [] by { hide Run, PossibleRun, IsListing, Subscribed; }
    var s3 := Step(s2, Change(0, true));
    assert s3.table == [row.(hit := true)];
    assert IsListing([], s3.table, s3.mark);
    var s4 := Step(s3, Poll([]));
    assert s4.table == s3.table && s4.sent == [];
    assert PossibleRun(s4, []) && Run(s4, []) == s4;
    hide Step, Possible, PossibleRun, Run, IsListing, Subscribed, Hits, Newest;
    RunStep(s3, Poll([]), []);
    RunStep(s2, Change(0, true), [Poll([])] + []);
    RunStep(s1, Poll([0]), [Change(0, true)] + ([Poll([])] + []));
    RunStep(s, Insert(row), [Poll([0])] + ([Change(0, true)] + ([Poll([])] + [])));
  }

  lemma OneRowListed(row: Row)
    requires row.ts > 0
    ensures IsListing([0], [row], 0)
  {
  }

  // ---------- where a subscriber starts ----------

  const RECONNECT_GAP := 30_000_000_000

  /** The watermark of a new subscription: after the event the client saw last, or where the
      previous subscription stopped if that is not long ago, or now. */
  function Seed(resume: Option<int>, previous: Option<int>, now: int): int {
    match resume
    case Some(ts) => ts + 1
    case None =>
      if previous.Some? && now - previous.value <= RECONNECT_GAP then previous.value else now
  }

  /** The subscription of a client that broke off after n events and resumes after the last of
      them, which it names. */
  function Resumed(s: State, n: nat, now: int): State
    requires 0 < n <= |s.sent| && Known(s.sent, s.table)
  {
    Subscribed(s.table, Seed(Some(s.table[s.sent[n - 1]].ts), Some(s.mark), now))
  }

  lemma {:induction false} DueStays(s: State, moves: seq<Move>)
    requires PossibleRun(s, moves) && |s.due| == |s.table|
    ensures var t := Run(s, moves); |t.due| == |t.table| && s.due <= t.due
    decreases moves
  {
    if moves != [] {
      assert |Step(s, moves[0]).due| == |Step(s, moves[0]).table| && s.due <= Step(s, moves[0]).due;
      DueStays(Step(s, moves[0]), moves[1..]);
    }
  }

  /** What becomes of a row that is there when a subscription starts. */
  lemma SentOnceDue(table: seq<Row>, mark: int, i: nat, moves: seq<Move>, order: seq<nat>)
    requires i < |table| && PossibleRun(Subscribed(table, mark), moves)
    requires Possible(Run(Subscribed(table, mark), moves), Poll(order))
    ensures var t := Step(Run(Subscribed(table, mark), moves), Poll(order));
            |t.taken| == |t.table| >= |table| && (i in t.sent <==> table[i].ts > mark && t.taken[i]) &&
            (NoChange(moves) ==> (i in t.sent <==> table[i].ts > mark && t.table[i].hit))
  {
    ExactlyOnce(table, mark, moves, order);
    DueStays(Subscribed(table, mark), moves);
    var t := Run(Subscribed(table, mark), moves);
    assert t.due[i] == Subscribed(table, mark).due[i];
  }

  /** What becomes of the rows that were there when the client resumed: a row is sent to it
      exactly if it is more than a nanosecond younger than the last event seen, and matches as a
      poll comes across it. So a row that it has not seen is lost exactly if its time is at
      most one nanosecond after that event, of whatever age it is and whether or not the
      previous subscription owed it. */
  lemma ResumeLosesIff(s: State, n: nat, now: int, i: nat, moves: seq<Move>, order: seq<nat>)
    requires Delivered(s) && 0 < n <= |s.sent| && i < |s.table| && i !in s.sent[..n]
    requires PossibleRun(Resumed(s, n, now), moves) && Possible(Run(Resumed(s, n, now), moves), Poll(order))
    ensures var t := Step(Run(Resumed(s, n, now), moves), Poll(order));
            var late := s.table[i].ts > s.table[s.sent[n - 1]].ts + 1;
            && |t.taken| == |t.table| >= |s.table|
            && (i in t.sent <==> late && t.taken[i])
            && (NoChange(moves) ==> (i in t.sent <==> late && t.table[i].hit))
  {
    SentOnceDue(s.table, s.table[s.sent[n - 1]].ts + 1, i, moves, order);
  }

  /** What the client has seen is not sent to it again. */
  lemma SeenIsNotRepeated(s: State, n: nat, now: int, a: nat, moves: seq<Move>)
    requires Delivered(s) && a < n <= |s.sent| && PossibleRun(Resumed(s, n, now), moves)
    ensures s.sent[a] !in Run(Resumed(s, n, now), moves).sent
  {
    var start := Resumed(s, n, now);
    RunDelivers(start, moves);
    DueStays(start, moves);
    var t := Run(start, moves);
    assert t.due[s.sent[a]] == start.due[s.sent[a]];
  }

  /** A row that is not due when a subscription starts is never sent to it. */
  lemma NotDueNeverSent(table: seq<Row>, mark: int, i: nat, moves: seq<Move>)
    requires i < |table| && table[i].ts <= mark && PossibleRun(Subscribed(table, mark), moves)
    ensures i !in Run(Subscribed(table, mark), moves).sent
  {
    RunDelivers(Subscribed(table, mark), moves);
    DueStays(Subscribed(table, mark), moves);
    var t := Run(Subscribed(table, mark), moves);
    assert t.due[i] == Subscribed(table, mark).due[i];
  }

  /** Two matching rows of the same second are sent; the client sees the first, breaks off and
      resumes: it never gets the second. */
  lemma EqualTimeIsLost(ts: int, now: int)
    requires ts > 0
    ensures var s := Subscribed([Row(ts, true), Row(ts, true)], 0);
            Possible(s, Poll([0, 1])) && Step(s, Poll([0, 1])).sent == [0, 1] &&
            forall moves :: PossibleRun(Resumed(Step(s, Poll([0, 1])), 1, now), moves) ==>
                            1 !in Run(Resumed(Step(s, Poll([0, 1])), 1, now), moves).sent
  {
    var table := [Row(ts, true), Row(ts, true)];
    TwoListed(table);
    hide Hits, Newest, IsListing, Run, PossibleRun, Judged, Seed;
    var s := Subscribed(table, 0);
    var t := Step(s, Poll([0, 1]));
    assert t.sent == [0, 1] && t.table == table by { assert s.sent + [0, 1] == [0, 1]; }
    SecondIsLost(t, ts, now);
  }

  lemma SecondIsLost(t: State, ts: int, now: int)
    requires t.table == [Row(ts, true), Row(ts, true)] && t.sent == [0, 1]
    ensures forall moves :: PossibleRun(Resumed(t, 1, now), moves) ==> 1 !in Run(Resumed(t, 1, now), moves).sent
  {
    hide Run, PossibleRun;
    forall moves | PossibleRun(Resumed(t, 1, now), moves) ensures 1 !in Run(Resumed(t, 1, now), moves).sent {
      NotDueNeverSent(t.table, ts + 1, 1, moves);
    }
  }

  lemma TwoListed(table: seq<Row>)
    requires |table| == 2 && table[0].hit && table[1].hit && table[0].ts == table[1].ts > 0
    ensures IsListing([0, 1], table, 0) && Hits([0, 1], table) == [0, 1]
  {
    OneHit(table);
    TwoHits(table);
    hide Hits;
    var order: seq<nat> := [0, 1];
    assert order[0] == 0 && order[1] == 1;
    assert Unique(order) && InOrder(order, table);
    assert forall i: nat :: i in order <==> i == 0 || i == 1;
  }

  lemma TwoHits(table: seq<Row>)
    requires |table| == 2 && table[0].hit && table[1].hit
    ensures Hits([0, 1], table) == [0, 1]
  {
    OneHit(table);
    var order: seq<nat> := [0, 1];
    assert order[..1] == [0];
    assert Hits(order, table) == Hits(order[..1], table) + [1];
  }

  lemma OneHit(table: seq<Row>)
    requires |table| > 0 && table[0].hit
    ensures Hits([0], table) == [0]
  {
    var order: seq<nat> := [0];
    assert order[..0] == [] && Hits([], table) == [];
    assert Hits(order, table) == Hits(order[..0], table) + [0];
  }

  lemma NothingListed(mark: int)
    ensures Hits([], []) == [] && Newest([], [], mark) == mark
    ensures forall table: seq<Row> :: Hits([], table) == [] && Newest([], table, mark) == mark
  {
  }

  // ---------- the code ----------

  /** A client that comes back without naming an event. If the previous subscription stopped no more than
      thirty seconds before, the new one goes on from there: every row newer than where it stopped is sent
      if it matches as a poll comes across it, and nothing that was sent is sent again. Otherwise, as for a
      client that comes for the first time, only rows newer than the present moment are. */
  lemma ComingBack(s: State, now: int, i: nat, moves: seq<Move>, order: seq<nat>)
    requires Delivered(s) && i < |s.table|
    requires var start := Subscribed(s.table, Seed(None, Some(s.mark), now));
             PossibleRun(start, moves) && Possible(Run(start, moves), Poll(order))
    ensures var t := Step(Run(Subscribed(s.table, Seed(None, Some(s.mark), now)), moves), Poll(order));
            var soon := now - s.mark <= 30 * 1_000_000_000;
            && |t.taken| == |t.table| >= |s.table|
            && (i in t.sent <==> s.table[i].ts > (if soon then s.mark else now) && t.taken[i])
            && (soon && i in s.sent ==> i !in t.sent)
    ensures Seed(None, None, now) == now
  {
    SentOnceDue(s.table, Seed(None, Some(s.mark), now), i, moves, order);
  }

  // ---------- several sources ----------

  /** An event: the source it comes from, and its row. */
  datatype Event = Event(source: nat, row: nat)

  /** A subscription to several sources, each with its own watermark; stream: the events sent, in the
      order of the polls. */
  datatype Tailing = Tailing(sources: seq<State>, stream: seq<Event>)

  datatype Act = Act(source: nat, move: Move)

  function From(source: nat, rows: seq<nat>): seq<Event> {
    seq(|rows|, a requires 0 <= a < |rows| => Event(source, rows[a]))
  }

  ghost predicate MayAct(s: Tailing, a: Act) {
    a.source < |s.sources| && Possible(s.sources[a.source], a.move)
  }

  ghost function Do(s: Tailing, a: Act): Tailing
    requires MayAct(s, a)
  {
    var before := s.sources[a.source];
    var sent := if a.move.Poll? then Hits(a.move.order, before.table) else [];
    Tailing(s.sources[a.source := Step(before, a.move)], s.stream + From(a.source, sent))
  }

  ghost predicate MayActAll(s: Tailing, acts: seq<Act>)
    decreases acts
  {
    acts == [] || (MayAct(s, acts[0]) && MayActAll(Do(s, acts[0]), acts[1..]))
  }

  ghost function DoAll(s: Tailing, acts: seq<Act>): Tailing
    requires MayActAll(s, acts)
    decreases acts
  {
    if acts == [] then s else DoAll(Do(s, acts[0]), acts[1..])
  }

  /** What happens at one of the sources. */
  function MovesOf(acts: seq<Act>, source: nat): seq<Move>
    decreases acts
  {
    if acts == [] then []
    else (if acts[0].source == source then [acts[0].move] else []) + MovesOf(acts[1..], source)
  }

  /** The stream holds what the sources sent. */
  ghost predicate Streams(s: Tailing) {
    forall j: nat, i: nat :: Event(j, i) in s.stream <==> j < |s.sources| && i in s.sources[j].sent
  }

  lemma DoStreams(s: Tailing, a: Act)
    requires Streams(s) && MayAct(s, a)
    ensures Streams(Do(s, a))
  {
    var before, t := s.sources[a.source], Do(s, a);
    var sent := if a.move.Poll? then Hits(a.move.order, before.table) else [];
    assert t.sources[a.source].sent == before.sent + sent;
    forall j: nat, i: nat ensures Event(j, i) in From(a.source, sent) <==> j == a.source && i in sent {
      if i in sent {
        var b :| 0 <= b < |sent| && sent[b] == i;
        assert From(a.source, sent)[b] == Event(a.source, i);
      }
    }
  }

  /** The sources do not disturb each other. */
  lemma {:induction false} Apart(s: Tailing, acts: seq<Act>, j: nat)
    requires Streams(s) && MayActAll(s, acts) && j < |s.sources|
    ensures var t := DoAll(s, acts);
            |t.sources| == |s.sources| && Streams(t) &&
            PossibleRun(s.sources[j], MovesOf(acts, j)) && t.sources[j] == Run(s.sources[j], MovesOf(acts, j))
    decreases acts
  {
    hide Step, Possible, Streams;
    if acts != [] {
      DoStreams(s, acts[0]);
      Apart(Do(s, acts[0]), acts[1..], j);
      var more := MovesOf(acts[1..], j);
      if acts[0].source == j {
        RunStep(s.sources[j], acts[0].move, more);
      } else {
        assert MovesOf(acts, j) == more;
      }
    }
  }

  predicate EventsKnown(s: Tailing) {
    forall e <- s.stream :: e.source < |s.sources| && e.row < |s.sources[e.source].table|
  }

  function TimeOf(s: Tailing, e: Event): int
    requires e.source < |s.sources| && e.row < |s.sources[e.source].table|
  {
    s.sources[e.source].table[e.row].ts
  }

  /** The client broke off after n events and names the last of them; the watermarks of all
      sources are set by its time. */
  function ResumedAll(s: Tailing, n: nat): Tailing
    requires EventsKnown(s) && 0 < n <= |s.stream|
  {
    var mark := Seed(Some(TimeOf(s, s.stream[n - 1])), None, 0);
    Tailing(seq(|s.sources|, j requires 0 <= j < |s.sources| => Subscribed(s.sources[j].table, mark)), [])
  }

  /** What becomes of the rows of every source that were there when the client resumed: a row is sent
      exactly if it is more than a nanosecond younger than the last event seen, whatever source that
      came from, and matches as a poll comes across it. So a row of any source that the client
      has not seen is lost if it is no younger, and one that it has seen is sent again if
      it is younger. */
  lemma ResumeAcrossSourcesIff(s: Tailing, n: nat, e: Event, acts: seq<Act>, order: seq<nat>)
    requires EventsKnown(s) && 0 < n <= |s.stream| && e.source < |s.sources| && e.row < |s.sources[e.source].table|
    requires MayActAll(ResumedAll(s, n), acts) && MayAct(DoAll(ResumedAll(s, n), acts), Act(e.source, Poll(order)))
    ensures var t := Do(DoAll(ResumedAll(s, n), acts), Act(e.source, Poll(order)));
            var late := TimeOf(s, e) > TimeOf(s, s.stream[n - 1]) + 1;
            && |t.sources| == |s.sources|
            && var source := t.sources[e.source];
               && |source.taken| == |source.table| >= |s.sources[e.source].table|
               && (e in t.stream <==> late && source.taken[e.row])
               && (NoChange(MovesOf(acts, e.source)) ==> (e in t.stream <==> late && source.table[e.row].hit))
  {
    hide Step, Possible, IsListing;
    var start := ResumedAll(s, n);
    Apart(start, acts, e.source);
    DoStreams(DoAll(start, acts), Act(e.source, Poll(order)));
    SentOnceDue(s.sources[e.source].table, TimeOf(s, s.stream[n - 1]) + 1, e.row, MovesOf(acts, e.source), order);
  }

  /** Two sources with a matching row each, the row of the second source older. */
  function TwoSources(newer: int, older: int): Tailing {
    Tailing([Subscribed([Row(newer, true)], 0), Subscribed([Row(older, true)], 0)], [])
  }

  lemma PollOfOne(row: Row, mark: int)
    requires row.ts > mark && row.hit
    ensures var s := Subscribed([row], mark);
            Possible(s, Poll([0])) && Step(s, Poll([0])).sent == [0] && Step(s, Poll([0])).table == [row] &&
            Hits([0], [row]) == [0]
  {
    OneListed(row, mark);
    assert Subscribed([row], mark).sent + [0] == [0];
  }

  /** After the first poll the client breaks off, and resumes: it never gets the older row. After
      both polls it breaks off, and resumes: it gets the newer row once more. */
  lemma OtherSourceIsLostOrRepeated(newer: int, older: int)
    requires newer - 1 > older > 0
    ensures var s, a, b := TwoSources(newer, older), Act(0, Poll([0])), Act(1, Poll([0]));
            MayAct(s, a) && MayAct(Do(s, a), b) &&
            var t, u := Do(s, a), Do(Do(s, a), b);
            && t.stream == [Event(0, 0)] && u.stream == [Event(0, 0), Event(1, 0)] && EventsKnown(t) && EventsKnown(u)
            && (forall acts :: MayActAll(ResumedAll(t, 1), acts) ==>
                Event(1, 0) !in DoAll(ResumedAll(t, 1), acts).stream)
            && MayAct(ResumedAll(u, 2), a) && Do(ResumedAll(u, 2), a).stream == [Event(0, 0)]
  {
    var s, a, b := TwoSources(newer, older), Act(0, Poll([0])), Act(1, Poll([0]));
    PollOfOne(Row(newer, true), 0);
    PollOfOne(Row(older, true), 0);
    TableOfSubscribed([Row(older, true)], 0);
    hide Step, Possible, Subscribed, Hits;
    assert From(0, [0]) == [Event(0, 0)] && From(1, [0]) == [Event(1, 0)];
    var t := Do(s, a);
    assert t.stream == [] + From(0, [0]) == [Event(0, 0)];
    var u := Do(t, b);
    assert u.stream == [Event(0, 0)] + From(1, [0]);
    hide Do, MayAct;
    forall acts | MayActAll(ResumedAll(t, 1), acts) ensures Event(1, 0) !in DoAll(ResumedAll(t, 1), acts).stream {
      NothingFromOther(t, acts);
    }
    OnceMore(u, newer, older);
  }

  lemma OnceMore(u: Tailing, newer: int, older: int)
    requires |u.sources| == 2 && u.sources[0].table == [Row(newer, true)] && u.sources[1].table == [Row(older, true)]
    requires u.stream == [Event(0, 0), Event(1, 0)] && newer - 1 > older && EventsKnown(u)
    ensures MayAct(ResumedAll(u, 2), Act(0, Poll([0])))
    ensures Do(ResumedAll(u, 2), Act(0, Poll([0]))).stream == [Event(0, 0)]
  {
    hide Subscribed, Do, MayAct, EventsKnown, ResumedAll;
    FirstResumed(u, 2);
    FirstPolled(ResumedAll(u, 2), newer, older + 1);
  }

  /** What the first source resumes with. */
  lemma FirstResumed(u: Tailing, n: nat)
    requires EventsKnown(u) && 0 < n <= |u.stream| && |u.sources| > 0
    ensures var v, mark := ResumedAll(u, n), TimeOf(u, u.stream[n - 1]) + 1;
            v.stream == [] && |v.sources| == |u.sources| && v.sources[0] == Subscribed(u.sources[0].table, mark)
  {
    hide Subscribed;
  }

  lemma FirstPolled(v: Tailing, newer: int, mark: int)
    requires |v.sources| > 0 && v.stream == [] && v.sources[0] == Subscribed([Row(newer, true)], mark) && newer > mark
    ensures MayAct(v, Act(0, Poll([0]))) && Do(v, Act(0, Poll([0]))).stream == [Event(0, 0)]
  {
    PollOfOne(Row(newer, true), mark);
    TableOfSubscribed([Row(newer, true)], mark);
    hide Step, Possible, Subscribed, Hits;
    assert From(0, [0]) == [Event(0, 0)];
    assert [] + From(0, [0]) == [Event(0, 0)];
  }

  lemma TableOfSubscribed(table: seq<Row>, mark: int)
    ensures Subscribed(table, mark).table == table && Subscribed(table, mark).sent == []
  {
  }

  lemma NothingFromOther(t: Tailing, acts: seq<Act>)
    requires EventsKnown(t) && t.stream == [Event(0, 0)] && |t.sources| == 2 && MayActAll(ResumedAll(t, 1), acts)
    requires |t.sources[1].table| == 1 && t.sources[1].table[0].ts <= t.sources[0].table[0].ts + 1
    ensures Event(1, 0) !in DoAll(ResumedAll(t, 1), acts).stream
  {
    hide Step, Possible;
    Apart(ResumedAll(t, 1), acts, 1);
    NotDueNeverSent(t.sources[1].table, TimeOf(t, t.stream[0]) + 1, 0, MovesOf(acts, 1));
  }

  /** A poll takes many steps: it lists the rows, sends them one by one, and moves the watermark
      at the end, while rows go on arriving and changing. The model counts all this as done
      at the listing: `pending` and `read` are what was listed, `done` how much of it has been
      looked at, `before` what had been sent by then. */
  class Subscription {
    var table: seq<Row>
    ghost var due: seq<bool>
    ghost var taken: seq<bool>
    var cursor: int
    var sent: seq<nat>
    ghost var before: seq<nat>
    var pending: seq<nat>
    var read: seq<Row>
    var done: nat
    var newest: int

    ghost predicate Valid()
      reads this
    {
      && Known(pending, read) && done <= |pending|
      && sent == before + Hits(pending[..done], read)
      && newest == Newest(pending[..done], read, cursor)
      && Delivered(Now())
    }

    ghost function Now(): State
      requires Known(pending, read)
      reads this
    {
      State(table, due, taken, Newest(pending, read, cursor), before + Hits(pending, read))
    }

    constructor (table: seq<Row>, resume: Option<int>, previous: Option<int>, now: int)
      ensures Valid() && pending == [] && Now() == Subscribed(table, Seed(resume, previous, now))
    {
      this.table := table;
      this.cursor, this.newest := Seed(resume, previous, now), Seed(resume, previous, now);
      this.sent, this.before, this.pending, this.read, this.done := [], [], [], [], 0;
      this.due := Subscribed(table, Seed(resume, previous, now)).due;
      this.taken := seq(|table|, i => false);
    }

    method Arrive(row: Row)
      requires Valid()
      modifies this`table, this`due, this`taken
      ensures Valid() && Now() == Step(old(Now()), Insert(row))
    {
      InsertDelivers(Now(), row);
      due := due + [row.ts > Newest(pending, read, cursor)];
      taken := taken + [false];
      table := table + [row];
    }

    method Alter(i: nat, hit: bool)
      requires Valid() && i < |table|
      modifies this`table
      ensures Valid() && Now() == Step(old(Now()), Change(i, hit))
    {
      ChangeDelivers(Now(), i, hit);
      table := table[i := table[i].(hit := hit)];
    }

    /** ListSince: this is the moment of the poll. */
    method List(listing: seq<nat>)
      requires Valid() && pending == [] && Possible(Now(), Poll(listing))
      modifies this`pending, this`read, this`done, this`newest, this`before, this`taken
      ensures Valid() && pending == listing && Now() == Step(old(Now()), Poll(listing))
    {
      hide Delivered, Unique, Hits, Newest;
      NothingListed(cursor);
      PollDelivers(Now(), listing);
      assert before + [] == before;
      before := sent;
      taken := Judged(listing, table, taken);
      pending, read, done := listing, table, 0;
      newest := cursor;
      assert pending[..0] == [] && before + [] == before;
    }

    /** The next of the listed rows, as it was read. */
    method SendNext()
      requires Valid() && done < |pending|
      modifies this`sent, this`done, this`newest
      ensures Valid() && Now() == old(Now()) && done == old(done) + 1
    {
      assert pending[..done + 1][..done] == pending[..done];
      var ev := read[pending[done]];
      if ev.ts > newest { newest := ev.ts; }
      if ev.hit { sent := sent + [pending[done]]; }
      done := done + 1;
    }

    /** The end of the poll. */
    method MoveCursor()
      requires Valid() && done == |pending|
      modifies this`cursor, this`pending, this`read, this`done, this`before
      ensures Valid() && Now() == old(Now()) && pending == [] && cursor == Now().mark && sent == Now().sent
    {
      assert pending[..done] == pending;
      if newest > cursor { cursor := newest; }
      NewestMeans(pending, read, old(cursor));
      before := sent;
      pending, read, done := [], [], 0;
      assert before + [] == before;
    }
  }
}
