/** A job that one worker runs while a reader streams its output (infra/job/worker.go). They
    share nothing but the job's row (repository/sqlite/job.go), which both access in atomic
    steps, in any order. Any access to the database may fail. */
module JobStream {
  import opened Text
  import opened Sse

  datatype Status = Pending | Running | Succeeded | Failed

  datatype Row = Row(status: Status, output: string, error: string)

  predicate Over(s: Status) {
    s == Succeeded || s == Failed
  }

  /** Where the worker stands in process; header is the line that repeats the command, stderr
      what the runner has collected of the command's error output. */
  datatype WorkerAt = Queued | Loaded(command: string) | Marked(header: string)
    | Streaming(header: string, stderr: string) | Collecting(header: string) | Finished

  /** Where the reader stands in StreamSSE. Closing: it has seen a row that is over, and looks
      once more. Closed: it has sent the done event. Gone: it gave up. */
  datatype ReaderAt = Polling | Closing(seen: Row) | Closed(message: string) | Gone

  /** streams: the runner delivers the output in pieces. sent: the chunks written so far. */
  datatype System = System(row: Row, streams: bool, worker: WorkerAt, reader: ReaderAt, sent: seq<string>, lastLen: nat)

  function Concat(chunks: seq<string>): string {
    if chunks == [] then "" else Concat(chunks[..|chunks| - 1]) + chunks[|chunks| - 1]
  }

  // ---------- the steps ----------

  datatype Move =
    | Load(works: bool)
    | RejectEmpty(works: bool)
    | Mark(works: bool)
    | HookFails(error: string, works: bool)
    | HookPasses
    | Append(line: string, stderr: bool, works: bool)
    | EndStreaming(exited: bool, fault: Option<string>, works: bool)
    | EndCollecting(stdout: string, stderrText: string, exited: bool, fault: Option<string>, works: bool)
    | Poll(works: bool)
    | LookAgain(works: bool)
    | Leave

  /** The streaming runner (infra/commander/exec.go) delivers line by line. */
  predicate Possible(s: System, m: Move) {
    match m
    case Load(_) => s.worker.Queued?
    case RejectEmpty(_) => s.worker.Loaded? && s.worker.command == ""
    case Mark(_) => s.worker.Loaded? && s.worker.command != ""
    case HookFails(_, _) => s.worker.Marked?
    case HookPasses => s.worker.Marked?
    case Append(line, _, _) => s.worker.Streaming? && '\n' !in line
    case EndStreaming(_, _, _) => s.worker.Streaming?
    case EndCollecting(_, _, _, _, _) => s.worker.Collecting?
    case Poll(_) => s.reader.Polling?
    case LookAgain(_) => s.reader.Closing?
    case Leave => s.reader.Polling? || s.reader.Closing?
  }

  function Header(command: string): string {
    "$ " + command + "\n"
  }

  /** The output of a runner that returns everything at the end. */
  function Collected(header: string, stdout: string, stderr: string): string {
    var out := header + TrimSpace(stdout);
    if stderr == "" then out
    else (if !HasSuffix(out, "\n") && out != "" then out + "\n" else out) + TrimSpace(stderr)
  }

  /** What is said of a failure: the error output, or else the runner's own error. */
  function FailureMessage(stderr: string, fault: Option<string>): string {
    if TrimSpace(stderr) == "" && fault.Some? then fault.value else TrimSpace(stderr)
  }

  /** exited: with code zero. fault: the runner's own error; it then returns no error output. */
  function RowWhenOver(row: Row, exited: bool, fault: Option<string>, stderr: string): Row {
    if exited && fault.None? then row.(status := Succeeded, error := "")
    else row.(status := Failed, error := FailureMessage(stderr, fault))
  }

  /** A line as the runner passes it on. */
  function Piece(line: string, stderr: bool): string {
    (if stderr then "[stderr] " else "") + line + "\n"
  }

  /** The message of the done event. */
  function DoneMessage(row: Row): string {
    if row.status == Succeeded then "ok" else if row.error == "" then "failed" else row.error
  }

  function Send(s: System, output: string): (t: System)
    ensures t == s.(sent := t.sent, lastLen := t.lastLen)
  {
    if |output| > s.lastLen then s.(sent := s.sent + [output[s.lastLen..]], lastLen := |output|) else s
  }

  function Step(s: System, m: Move): System
    requires Possible(s, m)
  {
    match m
    case Load(works) => s.(worker := if works then Loaded(TrimSpace(s.row.output)) else Finished)
    case RejectEmpty(works) =>
      s.(worker := Finished, row := if works then Row(Failed, "", "empty command") else s.row)
    case Mark(works) =>
      var header := Header(s.worker.command);
      if works then s.(worker := Marked(header), row := s.row.(status := Running, output := header))
      else s.(worker := Finished)
    case HookFails(error, works) =>
      s.(worker := Finished, row := if works then Row(Failed, s.worker.header, error) else s.row)
    case HookPasses =>
      s.(worker := if s.streams then Streaming(s.worker.header, "") else Collecting(s.worker.header))
    case Append(line, stderr, works) =>
      s.(worker := if stderr then s.worker.(stderr := s.worker.stderr + line + "\n") else s.worker,
         row := if works then s.row.(output := s.row.output + Piece(line, stderr)) else s.row)
    case EndStreaming(exited, fault, works) =>
      s.(worker := Finished,
         row := if works then RowWhenOver(s.row, exited, fault, if fault.Some? then "" else s.worker.stderr) else s.row)
    case EndCollecting(stdout, stderrText, exited, fault, works) =>
      s.(worker := Finished,
         row := if works then
                  RowWhenOver(s.row.(output := Collected(s.worker.header, stdout, stderrText)), exited, fault,
                              stderrText)
                else s.row)
    case Poll(works) =>
      if !works then s.(reader := Gone)
      else if s.row.status == Pending then s
      else
        var t := Send(s, s.row.output);
        if Over(s.row.status) then t.(reader := Closing(s.row)) else t
    case LookAgain(works) =>
      var t := if works then Send(s, s.row.output) else s;
      t.(reader := Closed(DoneMessage(s.reader.seen)))
    case Leave => s.(reader := Gone)
  }

  predicate PossibleRun(s: System, moves: seq<Move>)
    decreases moves
  {
    moves == [] || (Possible(s, moves[0]) && PossibleRun(Step(s, moves[0]), moves[1..]))
  }

  function Run(s: System, moves: seq<Move>): System
    requires PossibleRun(s, moves)
    decreases moves
  {
    if moves == [] then s else Run(Step(s, moves[0]), moves[1..])
  }

  /** A job waiting in the queue, its command in place of the output, and a reader. */
  function Submitted(command: string, streams: bool): System {
    System(Row(Pending, command, ""), streams, Queued, Polling, [], 0)
  }

  // ---------- what always holds ----------

  predicate WorkerFits(s: System) {
    match s.worker
    case Queued => s.row.status == Pending
    case Loaded(_) => s.row.status == Pending
    case Marked(h) => s.row.status == Running && s.row.output == h
    case Streaming(h, _) => s.row.status == Running && h <= s.row.output
    case Collecting(h) => s.row.status == Running && s.row.output == h
    case Finished => true
  }

  predicate ReaderFits(s: System) {
    && s.lastLen == |Concat(s.sent)|
    && (forall c <- s.sent :: c != "")
    && (s.row.status == Pending ==> s.sent == [] && (s.reader.Polling? || s.reader.Gone?))
    && (s.row.status != Pending ==> Concat(s.sent) <= s.row.output)
    && (s.reader.Closing? ==> Over(s.row.status) && s.reader.seen == s.row && Concat(s.sent) == s.row.output)
    && (s.reader.Closed? ==>
          Over(s.row.status) && s.reader.message == DoneMessage(s.row) && Concat(s.sent) == s.row.output)
  }

  predicate Consistent(s: System) {
    WorkerFits(s) && ReaderFits(s)
  }

  lemma SendSends(s: System, output: string)
    requires s.lastLen == |Concat(s.sent)| && Concat(s.sent) <= output && forall c <- s.sent :: c != ""
    ensures var t := Send(s, output);
            Concat(t.sent) == output && t.lastLen == |output| && forall c <- t.sent :: c != ""
  {
    if |output| > s.lastLen {
      var more := s.sent + [output[s.lastLen..]];
      assert more[..|more| - 1] == s.sent;
    }
  }

  lemma WorkerStep(s: System, m: Move)
    requires Consistent(s) && Possible(s, m) && !m.Poll? && !m.LookAgain? && !m.Leave?
    ensures Consistent(Step(s, m))
  {
    hide TrimSpace, HasSuffix;
  }

  lemma ReaderStep(s: System, m: Move)
    requires Consistent(s) && Possible(s, m) && (m.Poll? || m.LookAgain? || m.Leave?)
    ensures Consistent(Step(s, m))
  {
    hide Send, Concat;
    if (m.Poll? && s.row.status != Pending) || m.LookAgain? { SendSends(s, s.row.output); }
  }

  lemma {:induction false} RunIsConsistent(s: System, moves: seq<Move>)
    requires Consistent(s) && PossibleRun(s, moves)
    ensures Consistent(Run(s, moves))
    decreases moves
  {
    hide Step, Consistent;
    if moves != [] {
      if moves[0].Poll? || moves[0].LookAgain? || moves[0].Leave? {
        ReaderStep(s, moves[0]);
      } else {
        WorkerStep(s, moves[0]);
      }
      RunIsConsistent(Step(s, moves[0]), moves[1..]);
    }
  }

  /** However worker and reader take turns, and whatever fails: the chunks sent so far are the
      beginning of the output, and when the done event is sent they are all of it. */
  lemma StreamIsComplete(command: string, streams: bool, moves: seq<Move>)
    requires PossibleRun(Submitted(command, streams), moves)
    ensures var s := Run(Submitted(command, streams), moves);
            && (s.row.status == Pending ==> s.sent == [])
            && (s.row.status != Pending ==> Concat(s.sent) <= s.row.output)
            && (s.reader.Closed? ==> Concat(s.sent) == s.row.output && s.reader.message == DoneMessage(s.row))
  {
    RunIsConsistent(Submitted(command, streams), moves);
  }

  lemma CollectedExtends(header: string, stdout: string, stderr: string)
    ensures header <= Collected(header, stdout, stderr)
  {
  }

  lemma StepOnlyGrows(s: System, m: Move)
    requires Consistent(s) && Possible(s, m)
    ensures var t := Step(s, m);
            && (s.row.status != Pending ==> t.row.status != Pending && s.row.output <= t.row.output)
            && (Over(s.row.status) ==> t.row == s.row)
  {
    hide Collected, Concat, TrimSpace;
    if m.EndCollecting? { CollectedExtends(s.worker.header, m.stdout, m.stderrText); }
  }

  /** The row updates of the repository, in the order in which a worker makes them: from the
      moment the job runs its output only grows, and once it is over its row never changes. */
  lemma {:induction false} OutputOnlyGrows(s: System, moves: seq<Move>)
    requires Consistent(s) && PossibleRun(s, moves)
    ensures var t := Run(s, moves);
            && (s.row.status != Pending ==> t.row.status != Pending && s.row.output <= t.row.output)
            && (Over(s.row.status) ==> t.row == s.row)
    decreases moves
  {
    hide Step, Consistent;
    if moves != [] {
      StepOnlyGrows(s, moves[0]);
      RunIsConsistent(s, [moves[0]]);
      assert [moves[0]][1..] == [];
      assert Run(Step(s, moves[0]), []) == Step(s, moves[0]);
      OutputOnlyGrows(Step(s, moves[0]), moves[1..]);
    }
  }

  /** After the done event nothing happens any more. */
  lemma DoneIsFinal(s: System, m: Move)
    requires Consistent(s) && s.reader.Closed?
    ensures !Possible(s, m)
  {
  }

  /** Looking again before the done event never finds more. */
  lemma LookingAgainFindsNothing(s: System)
    requires Consistent(s) && s.reader.Closing?
    ensures Send(s, s.row.output) == s
  {
  }

  // ---------- on the wire ----------

  function Frames(chunks: seq<string>): string {
    if chunks == [] then "" else Frames(chunks[..|chunks| - 1]) + Frame(chunks[|chunks| - 1])
  }

  function Messages(chunks: seq<string>): seq<Event> {
    if chunks == [] then []
    else Messages(chunks[..|chunks| - 1]) + [Event("message", Norm(chunks[|chunks| - 1]))]
  }

  function Wire(s: System): string {
    Frames(s.sent) + if s.reader.Closed? then DoneFrame(s.reader.message) else ""
  }

  lemma {:induction false} FramesArrive(chunks: seq<string>)
    requires forall c <- chunks :: c != ""
    ensures Read(START, Frames(chunks)) == Reading(START, Messages(chunks))
    decreases |chunks|
  {
    hide Read, Frame, Norm;
    if chunks == [] {
      ReadNothing(START);
    } else {
      var init, last := chunks[..|chunks| - 1], chunks[|chunks| - 1];
      assert last in chunks && forall c <- init :: c in chunks;
      FramesArrive(init);
      ChunkArrives(last);
      ReadConcat(START, Frames(init), Frame(last));
    }
  }

  /** A client that reads the stream by the standard sees one message for each chunk, and then
      the done event with its message exactly if that is a single line. */
  lemma ClientSeesIff(s: System)
    requires Consistent(s) && s.reader.Closed?
    ensures Events(Wire(s)) == Messages(s.sent) + [Event("done", DoneMessage(s.row))] <==> OneLine(DoneMessage(s.row))
  {
    hide Read, Frames, Messages, DoneFrame, OneLine;
    var message := s.reader.message;
    FramesArrive(s.sent);
    DoneArrivesIff(message);
    ReadConcat(START, Frames(s.sent), DoneFrame(message));
    assert Events(Wire(s)) == Messages(s.sent) + Events(DoneFrame(message));
    assert Events(Wire(s))[|s.sent|..] == Events(DoneFrame(message)) by { MessagesCount(s.sent); }
    if Events(Wire(s)) == Messages(s.sent) + [Event("done", message)] {
      assert (Messages(s.sent) + [Event("done", message)])[|s.sent|..] == [Event("done", message)]
        by { MessagesCount(s.sent); }
    }
  }

  lemma {:induction false} MessagesCount(chunks: seq<string>)
    ensures |Messages(chunks)| == |chunks|
    decreases |chunks|
  {
    hide Norm;
    if chunks != [] { MessagesCount(chunks[..|chunks| - 1]); }
  }

  function Texts(events: seq<Event>): string {
    if events == [] then "" else Texts(events[..|events| - 1]) + events[|events| - 1].data
  }

  /** How often a pair CR LF was cut in two. */
  function Cuts(chunks: seq<string>): nat {
    if chunks == [] then 0
    else
      var init := chunks[..|chunks| - 1];
      Cuts(init) + if Cut(Concat(init), chunks[|chunks| - 1]) then 1 else 0
  }

  lemma {:induction false} TextsOfMessages(chunks: seq<string>)
    ensures |Texts(Messages(chunks))| == |Norm(Concat(chunks))| + Cuts(chunks)
    ensures Cuts(chunks) == 0 ==> Texts(Messages(chunks)) == Norm(Concat(chunks))
    decreases |chunks|
  {
    hide Norm, Cut;
    if chunks == [] {
      NormNothing();
    } else {
      var init, last := chunks[..|chunks| - 1], chunks[|chunks| - 1];
      TextsOfMessages(init);
      NormOfParts(Concat(init), last);
      var m := Messages(chunks);
      assert m[..|m| - 1] == Messages(init);
    }
  }

  predicate LineEnded(s: string) {
    s == "" || s[|s| - 1] == '\n'
  }

  /** While the job runs its output ends a line, and so does what the reader has sent until it
      sees that the job is over. */
  predicate Whole(s: System) {
    && (s.row.status == Running ==> LineEnded(s.row.output))
    && (s.worker.Marked? || s.worker.Streaming? || s.worker.Collecting? ==> LineEnded(s.worker.header))
    && (s.reader.Polling? ==> LineEnded(Concat(s.sent)))
    && Cuts(s.sent) == 0
  }

  lemma SendKeepsWhole(s: System, output: string)
    requires s.lastLen == |Concat(s.sent)| && Concat(s.sent) <= output && Cuts(s.sent) == 0 && LineEnded(Concat(s.sent))
    ensures Cuts(Send(s, output).sent) == 0
  {
    if |output| > s.lastLen {
      var more := s.sent + [output[s.lastLen..]];
      assert more[..|more| - 1] == s.sent;
    }
  }

  lemma WorkerKeepsWhole(s: System, m: Move)
    requires Consistent(s) && Whole(s) && Possible(s, m) && !m.Poll? && !m.LookAgain? && !m.Leave?
    ensures Whole(Step(s, m))
  {
    hide TrimSpace, HasSuffix, Concat, Cuts, Collected, FailureMessage;
    if m.Append? { assert LineEnded(s.row.output + Piece(m.line, m.stderr)); }
  }

  lemma ReaderKeepsWhole(s: System, m: Move)
    requires Consistent(s) && Whole(s) && Possible(s, m) && (m.Poll? || m.LookAgain? || m.Leave?)
    ensures Whole(Step(s, m))
  {
    hide Send, Concat, Cuts;
    if m.Poll? && s.row.status != Pending {
      SendSends(s, s.row.output);
      SendKeepsWhole(s, s.row.output);
    } else if m.LookAgain? {
      LookingAgainFindsNothing(s);
    }
  }

  lemma {:induction false} RunKeepsWhole(s: System, moves: seq<Move>)
    requires Consistent(s) && Whole(s) && PossibleRun(s, moves)
    ensures Consistent(Run(s, moves)) && Whole(Run(s, moves))
    decreases moves
  {
    hide Step, Consistent, Whole;
    if moves != [] {
      if moves[0].Poll? || moves[0].LookAgain? || moves[0].Leave? {
        ReaderStep(s, moves[0]);
        ReaderKeepsWhole(s, moves[0]);
      } else {
        WorkerStep(s, moves[0]);
        WorkerKeepsWhole(s, moves[0]);
      }
      RunKeepsWhole(Step(s, moves[0]), moves[1..]);
    }
  }

  /** Because the runner delivers whole lines, no pair CR LF is ever cut: over every run, what the
      client has put together when the done event comes is the output of the job, with its
      line ends normalised. */
  lemma ClientTextIsOutput(command: string, streams: bool, moves: seq<Move>)
    requires PossibleRun(Submitted(command, streams), moves)
    ensures var s := Run(Submitted(command, streams), moves);
            Texts(Messages(s.sent)) == Norm(Concat(s.sent)) &&
            (s.reader.Closed? ==> Texts(Messages(s.sent)) == Norm(s.row.output))
  {
    RunKeepsWhole(Submitted(command, streams), moves);
    TextsOfMessages(Run(Submitted(command, streams), moves).sent);
  }

  /** Some run leads from s to t. */
  ghost predicate Leads(s: System, t: System) {
    exists moves: seq<Move> :: PossibleRun(s, moves) && Run(s, moves) == t
  }

  lemma Stays(s: System)
    ensures Leads(s, s)
  {
    assert PossibleRun(s, []) && Run(s, []) == s;
  }

  lemma FirstStep(s: System, m: Move, t: System)
    requires Possible(s, m) && Leads(Step(s, m), t)
    ensures Leads(s, t)
  {
    hide Step, Possible;
    var moves: seq<Move> :| PossibleRun(Step(s, m), moves) && Run(Step(s, m), moves) == t;
    assert ([m] + moves)[1..] == moves;
    assert PossibleRun(s, [m] + moves) && Run(s, [m] + moves) == t;
  }

  /** A command that fails after two lines of error output: the message of the done event has
      two lines and does not arrive. */
  lemma TwoLinesOfStderr()
    ensures exists t: System ::
              Leads(Submitted("c", true), t) && t.reader == Closed("x\ny") &&
              Events(DoneFrame("x\ny")) != [Event("done", "x\ny")]
  {
    var t := FailingRun(Started(), Header("c"));
    FromSubmission(t);
    hide Leads, Events, DoneFrame;
    DoneArrivesIff("x\ny");
    assert "x\ny"[1] == '\n';
  }

  /** The command `c` runs. */
  function Started(): System {
    System(Row(Running, Header("c"), ""), true, Streaming(Header("c"), ""), Polling, [], 0)
  }

  lemma FromSubmission(t: System)
    requires Leads(Started(), t)
    ensures Leads(Submitted("c", true), t)
  {
    TrimmedStays("c");
    var s0 := Submitted("c", true);
    var s1 := Step(s0, Load(true));
    assert s1 == s0.(worker := Loaded("c"));
    var s2 := Step(s1, Mark(true));
    assert Step(s2, HookPasses) == Started();
    hide Step, Leads;
    FirstStep(s2, HookPasses, t);
    FirstStep(s1, Mark(true), t);
    FirstStep(s0, Load(true), t);
  }

  /** A command that fails after the word `ok` on its error stream: the done event says `ok`. */
  lemma FailureSaysOk()
    ensures exists t: System :: Leads(Submitted("c", true), t) && t.row.status == Failed && t.reader == Closed("ok")
  {
    var s, a := Started(), Append("ok", true, true);
    var s1 := Step(s, a);
    assert s1.worker == Streaming(Header("c"), "ok\n") by { assert "" + "ok" + "\n" == "ok\n"; }
    assert TrimSpace("ok\n") == "ok" by {
      assert TrimLeft("ok\n") == "ok\n";
      assert "ok\n"[..2] == "ok";
      assert TrimRight("ok") == "ok";
    }
    hide TrimSpace;
    var t := EndingRun(s1, "ok\n", "ok");
    hide Step, Leads;
    FirstStep(s, a, t);
    FromSubmission(t);
  }

  lemma FailingRun(s: System, header: string) returns (t: System)
    requires s == System(Row(Running, header, ""), true, Streaming(header, ""), Polling, [], 0)
    ensures Leads(s, t) && t.reader == Closed("x\ny")
  {
    var a, b := Append("x", true, true), Append("y", true, true);
    var s1 := Step(s, a);
    var s2 := Step(s1, b);
    assert s1.worker == Streaming(header, "x\n") by { assert "" + "x" + "\n" == "x\n"; }
    assert s2.worker == Streaming(header, "x\ny\n") by { assert "x\n" + "y" + "\n" == "x\ny\n"; }
    TwoLinesTrimmed();
    hide TrimSpace;
    t := EndingRun(s2, "x\ny\n", "x\ny");
    hide Step, Leads;
    FirstStep(s1, b, t);
    FirstStep(s, a, t);
  }

  lemma EndingRun(s: System, stderr: string, message: string) returns (t: System)
    requires s.worker.Streaming? && s.worker.stderr == stderr && s.row.status == Running && s.reader == Polling
    requires TrimSpace(stderr) == message && message != ""
    ensures Leads(s, t) && t.reader == Closed(message) && t.row.status == Failed
  {
    hide TrimSpace;
    var end := EndStreaming(false, None, true);
    var s1 := Step(s, end);
    assert s1.row == Row(Failed, s.row.output, message) && s1.reader == Polling;
    var s2 := Step(s1, Poll(true));
    assert s2.reader == Closing(s1.row) && s2.row == s1.row;
    t := Step(s2, LookAgain(true));
    Stays(t);
    hide Step, Leads;
    FirstStep(s2, LookAgain(true), t);
    FirstStep(s1, Poll(true), t);
    FirstStep(s, end, t);
  }

  lemma TwoLinesTrimmed()
    ensures TrimSpace("x\ny\n") == "x\ny"
  {
    var s := "x\ny\n";
    assert TrimLeft(s) == s;
    assert s[..3] == "x\ny";
    assert TrimRight("x\ny") == "x\ny";
  }

  // ---------- what becomes of a job ----------

  /** The command exits with code zero, and that is recorded. */
  predicate EndsWell(m: Move) {
    (m.EndStreaming? || m.EndCollecting?) && m.exited && m.fault == None && m.works
  }

  predicate OfWorker(m: Move) {
    !m.Poll? && !m.LookAgain? && !m.Leave?
  }

  /** What the lines that arrive add to the output, of both streams. */
  function Delivered(moves: seq<Move>): string
    decreases moves
  {
    if moves == [] then ""
    else
      var m := moves[0];
      (if m.Append? && m.works then (if m.stderr then "[stderr] " else "") + m.line + "\n" else "") +
        Delivered(moves[1..])
  }

  function Complaint(m: Move): string {
    if m.Append? && m.stderr then m.line + "\n" else ""
  }

  /** The lines of the error stream, whether they were stored or not. */
  function Complaints(moves: seq<Move>): string
    decreases moves
  {
    if moves == [] then "" else Complaint(moves[0]) + Complaints(moves[1..])
  }

  lemma StepResult(s: System, m: Move)
    requires Consistent(s) && Possible(s, m)
    ensures Step(s, m).row.status == Succeeded <==> s.row.status == Succeeded || EndsWell(m)
  {
    hide TrimSpace, HasSuffix, Concat, Collected, FailureMessage, Send;
  }

  lemma {:induction false} RunResult(s: System, moves: seq<Move>)
    requires Consistent(s) && PossibleRun(s, moves)
    ensures Run(s, moves).row.status == Succeeded <==> s.row.status == Succeeded || exists m <- moves :: EndsWell(m)
    decreases moves
  {
    hide Step, Consistent, EndsWell;
    if moves != [] {
      StepResult(s, moves[0]);
      RunIsConsistent(s, [moves[0]]);
      assert [moves[0]][1..] == [];
      assert Run(Step(s, moves[0]), []) == Step(s, moves[0]);
      RunResult(Step(s, moves[0]), moves[1..]);
      assert moves == [moves[0]] + moves[1..];
    }
  }

  /** Over every run a job has succeeded exactly if its command exited with code zero, the runner
      had no error of its own, and that was recorded. The done event says `ok` exactly if the job has
      succeeded, or has failed with just this word as its error. */
  lemma SucceedsIff(command: string, streams: bool, moves: seq<Move>)
    requires PossibleRun(Submitted(command, streams), moves)
    ensures var s := Run(Submitted(command, streams), moves);
            (s.row.status == Succeeded <==> exists m <- moves :: EndsWell(m)) &&
            (s.reader.Closed? ==>
               s.reader.message == (if s.row.status == Succeeded then "ok" else if s.row.error == "" then "failed"
                                    else s.row.error) &&
               (s.reader.message == "ok" <==> s.row.status == Succeeded || s.row.error == "ok"))
  {
    var s := Submitted(command, streams);
    RunResult(s, moves);
    RunIsConsistent(s, moves);
  }

  /** The command of a job that has not started, and what a job that has is to begin its output with. */
  function CommandOf(s: System): string {
    if s.worker.Loaded? then s.worker.command else TrimSpace(s.row.output)
  }

  function Opening(command: string): string {
    if command == "" then "" else "$ " + command + "\n"
  }

  /** What the output comes to from here. */
  predicate OutputComes(s: System, moves: seq<Move>, t: System) {
    if s.row.status == Pending then
      if t.row.status == Pending then t.row.output == s.row.output
      else t.row.output == Opening(CommandOf(s)) + Delivered(moves)
    else t.row.output == s.row.output + Delivered(moves)
  }

  lemma StepOutput(s: System, m: Move)
    requires Consistent(s) && s.streams && Possible(s, m) && !s.worker.Collecting?
    ensures !Step(s, m).worker.Collecting? && Step(s, m).streams
    ensures OutputComes(s, [m], Step(s, m))
    ensures s.row.status == Pending && Step(s, m).row.status == Pending ==>
              CommandOf(Step(s, m)) == CommandOf(s) || Step(s, m).worker.Finished?
  {
    hide TrimSpace, HasSuffix, Concat, Collected, FailureMessage, Send;
    assert [m][1..] == [];
    assert Delivered([m]) == (if m.Append? && m.works then Piece(m.line, m.stderr) else "") + Delivered([]);
  }

  lemma {:induction false} FinishedStays(s: System, moves: seq<Move>)
    requires PossibleRun(s, moves) && s.worker.Finished?
    ensures Run(s, moves).row == s.row && Run(s, moves).worker.Finished? && Delivered(moves) == ""
    ensures forall m <- moves :: !OfWorker(m)
    decreases moves
  {
    hide Send;
    if moves != [] { FinishedStays(Step(s, moves[0]), moves[1..]); }
  }

  lemma {:induction false} RunOutput(s: System, moves: seq<Move>)
    requires Consistent(s) && s.streams && PossibleRun(s, moves) && !s.worker.Collecting?
    ensures OutputComes(s, moves, Run(s, moves))
    decreases moves
  {
    if moves == [] {
      assert s.row.output + "" == s.row.output;
    } else if s.worker.Finished? {
      FinishedStays(s, moves);
    } else {
      var t := Step(s, moves[0]);
      StepOutput(s, moves[0]);
      RunIsConsistent(s, [moves[0]]);
      assert [moves[0]][1..] == [];
      assert Run(t, []) == t;
      if t.worker.Finished? { FinishedStays(t, moves[1..]); }
      OutputOnlyGrows(s, [moves[0]]);
      OutputOnlyGrows(t, moves[1..]);
      hide Step, Consistent, CommandOf, Opening;
      RunOutput(t, moves[1..]);
      OutputJoins(s, moves, t, Run(t, moves[1..]));
    }
  }

  lemma OutputJoins(s: System, moves: seq<Move>, t: System, u: System)
    requires moves != [] && OutputComes(s, [moves[0]], t) && OutputComes(t, moves[1..], u)
    requires s.row.status == Pending && t.row.status == Pending ==>
               CommandOf(t) == CommandOf(s) || u.row.status == Pending
    requires s.row.status == Pending && t.row.status == Pending && u.row.status != Pending ==>
               Delivered([moves[0]]) == ""
    requires (s.row.status != Pending ==> t.row.status != Pending) &&
             (t.row.status != Pending ==> u.row.status != Pending)
    ensures OutputComes(s, moves, u)
  {
    FirstThenRest(moves);
    hide CommandOf, Opening, Delivered;
    var first, more := Delivered([moves[0]]), Delivered(moves[1..]);
    if s.row.status != Pending {
      assert s.row.output + first + more == s.row.output + (first + more);
    } else if t.row.status != Pending {
      var opening := Opening(CommandOf(s));
      assert opening + first + more == opening + (first + more);
    } else if u.row.status != Pending {
      assert first + more == more;
    }
  }

  lemma FirstThenRest(moves: seq<Move>)
    requires moves != []
    ensures Delivered(moves) == Delivered([moves[0]]) + Delivered(moves[1..])
  {
    assert [moves[0]][1..] == [] && Delivered([]) == "";
  }

  /** Over every run, the output of a streaming job that has started is the line that repeats its
      command and then every line that arrived and was stored, of both streams, in order. */
  lemma OutputIsWhatArrived(command: string, moves: seq<Move>)
    requires PossibleRun(Submitted(command, true), moves)
    ensures var s := Run(Submitted(command, true), moves);
            s.row.output == if s.row.status == Pending then command else Opening(TrimSpace(command)) + Delivered(moves)
  {
    RunOutput(Submitted(command, true), moves);
  }

  /** What ends a job, and is recorded. */
  predicate Ends(m: Move) {
    (m.RejectEmpty? || m.HookFails? || m.EndStreaming? || m.EndCollecting?) && m.works
  }

  /** The error of a job that ended this way, after these complaints. */
  function Reason(m: Move, complaints: string): string
    requires Ends(m)
  {
    match m
    case RejectEmpty(_) => "empty command"
    case HookFails(error, _) => error
    case EndStreaming(exited, fault, _) =>
      if fault.Some? then fault.value else if exited then "" else TrimSpace(complaints)
    case EndCollecting(_, stderrText, exited, fault, _) =>
      if fault == None && exited then ""
      else if TrimSpace(stderrText) != "" then TrimSpace(stderrText)
      else if fault.Some? then fault.value else ""
  }

  function StderrOf(s: System): string {
    if s.worker.Streaming? then s.worker.stderr else ""
  }

  lemma StepEnds(s: System, m: Move)
    requires Consistent(s) && Possible(s, m)
    ensures var t := Step(s, m);
            if Ends(m) then
              t.worker.Finished? && Over(t.row.status) && t.row.error == Reason(m, StderrOf(s))
            else
              t.row.status == s.row.status || (t.row.status == Running && s.row.status == Pending)
    ensures OfWorker(m) && !Step(s, m).worker.Finished? ==>
              StderrOf(Step(s, m)) == StderrOf(s) + Complaint(m)
    ensures !OfWorker(m) ==> Step(s, m).worker == s.worker && StderrOf(Step(s, m)) == StderrOf(s) && Complaint(m) == ""
  {
    hide HasSuffix, Concat, Collected, Send;
    assert TrimSpace("") == "";
    assert StderrOf(s) + "" == StderrOf(s);
  }

  lemma {:induction false} RunEnds(s: System, moves: seq<Move>, m: Move)
    requires Consistent(s) && PossibleRun(s, moves) && m in moves && Ends(m)
    ensures var t := Run(s, moves);
            Over(t.row.status) && t.row.error == Reason(m, StderrOf(s) + Complaints(moves))
    decreases moves
  {
    var t := Step(s, moves[0]);
    StepEnds(s, moves[0]);
    FirstMove(s, moves);
    ComplaintsStep(moves);
    if Ends(moves[0]) || t.worker.Finished? {
      FinishedStays(t, moves[1..]);
      NoComplaints(moves[1..]);
      hide *;
      EndsOnce(moves, m);
      assert Complaints(moves) == "" + "";
      assert StderrOf(s) + "" == StderrOf(s);
    } else {
      hide *;
      RunEnds(t, moves[1..], m);
      var first := Complaint(moves[0]);
      assert StderrOf(t) == StderrOf(s) + first;
      assert StderrOf(s) + first + Complaints(moves[1..]) == StderrOf(s) + (first + Complaints(moves[1..]));
    }
  }

  lemma FirstMove(s: System, moves: seq<Move>)
    requires Consistent(s) && PossibleRun(s, moves) && moves != []
    ensures Consistent(Step(s, moves[0])) && PossibleRun(Step(s, moves[0]), moves[1..])
    ensures Run(s, moves) == Run(Step(s, moves[0]), moves[1..])
    ensures forall m :: m in moves <==> m == moves[0] || m in moves[1..]
  {
    hide Step, Consistent;
    RunIsConsistent(s, [moves[0]]);
    assert [moves[0]][1..] == [] && Run(Step(s, moves[0]), []) == Step(s, moves[0]);
    assert moves == [moves[0]] + moves[1..];
  }

  lemma ComplaintsStep(moves: seq<Move>)
    requires moves != []
    ensures Complaints(moves) == Complaint(moves[0]) + Complaints(moves[1..])
  {
  }

  /** Where nothing comes of the worker any more, the first move was the end. */
  lemma EndsOnce(moves: seq<Move>, m: Move)
    requires moves != [] && m in moves && Ends(m) && forall n <- moves[1..] :: !OfWorker(n)
    ensures m == moves[0] && Complaint(m) == ""
  {
    assert moves == [moves[0]] + moves[1..];
  }

  lemma {:induction false} NoComplaints(moves: seq<Move>)
    requires forall m <- moves :: !OfWorker(m)
    ensures Complaints(moves) == ""
  {
    if moves != [] {
      assert moves[0] in moves && forall m <- moves[1..] :: m in moves;
      NoComplaints(moves[1..]);
    }
  }

  lemma {:induction false} RunIsOver(s: System, moves: seq<Move>)
    requires Consistent(s) && PossibleRun(s, moves)
    ensures Over(Run(s, moves).row.status) <==> Over(s.row.status) || exists m <- moves :: Ends(m)
    decreases moves
  {
    hide Step, Consistent, Ends, Reason;
    if moves != [] {
      StepEnds(s, moves[0]);
      RunIsConsistent(s, [moves[0]]);
      assert [moves[0]][1..] == [];
      assert Run(Step(s, moves[0]), []) == Step(s, moves[0]);
      StepOnlyGrows(s, moves[0]);
      RunIsOver(Step(s, moves[0]), moves[1..]);
      assert moves == [moves[0]] + moves[1..];
    }
  }

  /** Over every run a job is over exactly if something has ended it, and its error is the reason: of a
      command that fails, what it said on its error stream, or else the runner's own error. */
  lemma OverIff(command: string, streams: bool, moves: seq<Move>)
    requires PossibleRun(Submitted(command, streams), moves)
    ensures var s := Run(Submitted(command, streams), moves);
            (Over(s.row.status) <==> exists m <- moves :: Ends(m)) &&
            (forall m <- moves :: Ends(m) ==> s.row.error == Reason(m, Complaints(moves)))
  {
    var s := Submitted(command, streams);
    RunIsOver(s, moves);
    forall m | m in moves && Ends(m) ensures Run(s, moves).row.error == Reason(m, Complaints(moves)) {
      RunEnds(s, moves, m);
      assert "" + Complaints(moves) == Complaints(moves);
    }
  }

  /** What a runner that returns everything at the end has found. */
  function Found(m: Move): string
    requires m.EndCollecting?
  {
    TrimSpace(m.stdout) +
    if m.stderrText == "" then "" else (if TrimSpace(m.stdout) == "" then "" else "\n") + TrimSpace(m.stderrText)
  }

  lemma CollectedIs(header: string, m: Move)
    requires m.EndCollecting? && LineEnded(header)
    ensures Collected(header, m.stdout, m.stderrText) == header + Found(m)
  {
    var a, b := TrimSpace(m.stdout), TrimSpace(m.stderrText);
    var out := header + a;
    TrimmedEnd(m.stdout);
    hide TrimSpace;
    if a == "" {
      assert out == header;
      if header != "" { assert header[|header| - 1..] == "\n"; }
    } else {
      assert out[|out| - 1] == a[|a| - 1] && out[|out| - 1..] == [a[|a| - 1]];
      assert !HasSuffix(out, "\n");
      assert out + "\n" + b == header + (a + ("\n" + b));
    }
    assert header + (a + b) == header + a + b;
    assert a + "" == a && "" + b == b;
  }

  lemma TrimmedEnd(s: string)
    ensures TrimSpace(s) != "" ==> TrimSpace(s)[|TrimSpace(s)| - 1] != '\n'
  {
    TrimSpaceTrims(s);
  }

  lemma {:induction false} RunCollects(s: System, moves: seq<Move>, m: Move)
    requires Consistent(s) && Whole(s) && !s.streams && !s.worker.Streaming? && PossibleRun(s, moves)
    requires m in moves && m.EndCollecting? && m.works
    ensures Run(s, moves).row.output ==
              (if s.row.status == Pending then Opening(CommandOf(s)) else s.row.output) + Found(m)
    decreases moves
  {
    var t := Step(s, moves[0]);
    FirstMove(s, moves);
    StepCollects(s, moves[0]);
    assert Ends(m);
    if t.worker.Finished? {
      FinishedStays(t, moves[1..]);
      hide *;
      EndsOnce(moves, m);
    } else {
      hide *;
      RunCollects(t, moves[1..], m);
    }
  }

  lemma StepCollects(s: System, m: Move)
    requires Consistent(s) && Whole(s) && !s.streams && !s.worker.Streaming? && Possible(s, m)
    ensures var t := Step(s, m);
            && Whole(t) && !t.streams && !t.worker.Streaming?
            && (m.EndCollecting? && m.works ==> t.row.output == s.row.output + Found(m) && s.row.status != Pending)
            && (!t.worker.Finished? ==>
                  (if t.row.status == Pending then Opening(CommandOf(t)) else t.row.output) ==
                  (if s.row.status == Pending then Opening(CommandOf(s)) else s.row.output))
  {
    if OfWorker(m) { WorkerKeepsWhole(s, m); } else { ReaderKeepsWhole(s, m); }
    hide Concat, Cuts, TrimSpace, HasSuffix, Collected, Found, Send;
    if m.EndCollecting? { CollectedIs(s.worker.header, m); }
  }

  /** With a runner that returns everything at the end, the output of a job that ended is the line
      that repeats its command, and behind it what was found on both streams, without blanks
      around and on different lines. */
  lemma OutputIsWhatWasFound(command: string, moves: seq<Move>, m: Move)
    requires PossibleRun(Submitted(command, false), moves) && m in moves && m.EndCollecting? && m.works
    ensures Run(Submitted(command, false), moves).row.output == Opening(TrimSpace(command)) + Found(m)
  {
    RunCollects(Submitted(command, false), moves, m);
  }

  // ---------- the code ----------

  /** The row and the reader as the code updates them. */
  class Job {
    var row: Row
    const streams: bool
    var worker: WorkerAt
    var reader: ReaderAt
    var sent: seq<string>
    var lastLen: nat

    constructor (command: string, streams: bool)
      ensures Now() == Submitted(command, streams)
    {
      this.row := Row(Pending, command, "");
      this.streams := streams;
      this.worker, this.reader, this.sent, this.lastLen := Queued, Polling, [], 0;
    }

    function Now(): System
      reads this
    {
      System(row, streams, worker, reader, sent, lastLen)
    }

    method MarkRunningWithOutput(output: string, works: bool)
      modifies this`row
      ensures row == if works then Row(Running, output, old(row).error) else old(row)
    {
      if works { row := row.(status := Running, output := output); }
    }

    method AppendOutput(chunk: string, works: bool)
      modifies this`row
      ensures row == if works then old(row).(output := old(row).output + chunk) else old(row)
    {
      if works { row := row.(output := row.output + chunk); }
    }

    method Complete(status: Status, output: string, error: string, works: bool)
      modifies this`row
      ensures row == if works then Row(status, output, error) else old(row)
    {
      if works { row := Row(status, output, error); }
    }

    method CompleteStatus(status: Status, error: string, works: bool)
      modifies this`row
      ensures row == if works then Row(status, old(row).output, error) else old(row)
    {
      if works { row := row.(status := status, error := error); }
    }

    /** One turn of the worker. */
    method Work(m: Move)
      requires Possible(Now(), m) && !m.Poll? && !m.LookAgain? && !m.Leave?
      modifies this`row, this`worker
      ensures Now() == Step(old(Now()), m)
    {
      hide TrimSpace, HasSuffix;
      match m
      case Load(works) => worker := if works then Loaded(TrimSpace(row.output)) else Finished;
      case RejectEmpty(works) =>
        Complete(Failed, "", "empty command", works);
        worker := Finished;
      case Mark(works) =>
        var output := "$ " + worker.command + "\n";
        MarkRunningWithOutput(output, works);
        worker := if works then Marked(output) else Finished;
      case HookFails(error, works) =>
        Complete(Failed, worker.header, error, works);
        worker := Finished;
      case HookPasses => worker := if streams then Streaming(worker.header, "") else Collecting(worker.header);
      case Append(line, stderr, works) =>
        var chunk := line + "\n";
        if stderr { worker := worker.(stderr := worker.stderr + line + "\n"); }
        if stderr { chunk := "[stderr] " + chunk; }
        assert Piece(line, stderr) == chunk;
        AppendOutput(chunk, works);
      case EndStreaming(exited, fault, works) =>
        if fault.Some? || !exited {
          var message := TrimSpace(if fault.Some? then "" else worker.stderr);
          if message == "" && fault.Some? { message := fault.value; }
          CompleteStatus(Failed, message, works);
        } else {
          CompleteStatus(Succeeded, "", works);
        }
        worker := Finished;
      case EndCollecting(stdout, stderrText, exited, fault, works) =>
        var output := worker.header;
        assert output + "" == output;
        if TrimSpace(stdout) != "" { output := output + TrimSpace(stdout); }
        if stderrText != "" {
          if !HasSuffix(output, "\n") && output != "" { output := output + "\n"; }
          output := output + TrimSpace(stderrText);
        }
        if fault.Some? || !exited {
          var message := TrimSpace(stderrText);
          if message == "" && fault.Some? { message := fault.value; }
          Complete(Failed, output, message, works);
        } else {
          Complete(Succeeded, output, "", works);
        }
        worker := Finished;
    }

    /** One turn of the loop of StreamSSE, up to the second look. */
    method PollRow(works: bool)
      requires reader.Polling?
      modifies this`reader, this`sent, this`lastLen
      ensures Now() == Step(old(Now()), Poll(works))
    {
      if !works {
        reader := Gone;
        return;
      }
      var job := row;
      if job.status == Pending { return; }
      if |job.output| > lastLen {
        sent := sent + [job.output[lastLen..]];
        lastLen := |job.output|;
      }
      if job.status == Succeeded || job.status == Failed { reader := Closing(job); }
    }

    method Close(works: bool)
      requires reader.Closing?
      modifies this`reader, this`sent, this`lastLen
      ensures Now() == Step(old(Now()), LookAgain(works))
    {
      if works && |row.output| > lastLen {
        sent := sent + [row.output[lastLen..]];
        lastLen := |row.output|;
      }
      var message := "ok";
      if reader.seen.status != Succeeded {
        message := if reader.seen.error == "" then "failed" else reader.seen.error;
      }
      reader := Closed(message);
    }
  }
}
