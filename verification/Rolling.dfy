/** The bounded dump of a terminal (terminal/rolling.go) and the sequence numbers that go
    with it (terminal/session.go, readLoop). */
module Rolling {

  type byte = x: int | 0 <= x < 256

  function Suffix(s: seq<byte>, n: nat): seq<byte> {
    if |s| <= n then s else s[|s| - n..]
  }

  /** Three quarters of the limit survive a trim. */
  function Keep(max: nat): nat {
    3 * max / 4
  }

  function Appended(file: seq<byte>, p: seq<byte>, max: nat): seq<byte> {
    if |file| + |p| <= max then file + p else Suffix(Suffix(file, Keep(max)) + p, max)
  }

  /** The dump and the window of sequence numbers. */
  datatype Window = Window(file: seq<byte>, first: nat, end: nat)

  function Received(w: Window, chunk: seq<byte>, max: nat): Window {
    var end := w.end + |chunk|;
    Window(Appended(w.file, chunk, max), if end - w.first > max then end - max else w.first, end)
  }

  function ReceivedAll(w: Window, chunks: seq<seq<byte>>, max: nat): Window {
    if chunks == [] then w else Received(ReceivedAll(w, chunks[..|chunks| - 1], max), chunks[|chunks| - 1], max)
  }

  function Stream(chunks: seq<seq<byte>>): seq<byte> {
    if chunks == [] then [] else Stream(chunks[..|chunks| - 1]) + chunks[|chunks| - 1]
  }

  const EMPTY := Window([], 0, 0)

  function Min(a: nat, b: nat): nat {
    if a <= b then a else b
  }

  /** The dump is the end of everything that was printed, within the limit, holds at least three quarters of
      the limit, and everything as long as that fits;
      the window ends at the last byte and is as long as the limit allows. */
  predicate Faithful(w: Window, stream: seq<byte>, max: nat) {
    && |w.file| <= |stream| && w.file == stream[|stream| - |w.file|..]
    && Min(|stream|, Keep(max)) <= |w.file| <= max
    && (|stream| <= max ==> w.file == stream)
    && w.end == |stream|
    && w.first == w.end - Min(|stream|, max)
  }

  lemma SuffixOfSuffix(s: seq<byte>, k: nat, n: nat)
    requires k <= |s|
    ensures var r := Suffix(s[|s| - k..], n); r == s[|s| - |r|..] && |r| == Min(k, n)
  {
  }

  lemma SuffixMore(stream: seq<byte>, k: nat, p: seq<byte>)
    requires k <= |stream|
    ensures var all := stream + p; all[|all| - (k + |p|)..] == stream[|stream| - k..] + p
  {
  }

  lemma KeepFits(max: nat)
    ensures Keep(max) <= max
  {
  }

  lemma AppendedIsSuffix(file: seq<byte>, stream: seq<byte>, p: seq<byte>, max: nat)
    requires |file| <= |stream| && file == stream[|stream| - |file|..] && |file| <= max
    requires Min(|stream|, Keep(max)) <= |file| && (|stream| <= max ==> file == stream)
    ensures var r := Appended(file, p, max); var all := stream + p;
            |r| <= |all| && r == all[|all| - |r|..] && Min(|all|, Keep(max)) <= |r| <= max &&
            (|all| <= max ==> r == all)
  {
    hide Suffix;
    KeepFits(max);
    hide Keep;
    if |file| + |p| <= max {
      SuffixMore(stream, |file|, p);
    } else {
      var kept := Suffix(file, Keep(max));
      SuffixOfSuffix(stream, |file|, Keep(max));
      SuffixMore(stream, |kept|, p);
      SuffixOfSuffix(stream + p, |kept| + |p|, max);
    }
  }

  lemma ReceivedIsFaithful(w: Window, stream: seq<byte>, chunk: seq<byte>, max: nat)
    requires Faithful(w, stream, max)
    ensures Faithful(Received(w, chunk, max), stream + chunk, max)
    ensures w.first <= Received(w, chunk, max).first
  {
    hide Appended, Keep;
    AppendedIsSuffix(w.file, stream, chunk, max);
  }

  /** After any chunks, of any length: the dump is the end of everything that was printed, all of it as long as
      that fits, else at most the limit and at least three quarters of it, and the window is right. */
  lemma RunIsFaithful(chunks: seq<seq<byte>>, max: nat)
    ensures var w, stream := ReceivedAll(EMPTY, chunks, max), Stream(chunks);
            && |w.file| <= |stream| && w.file == stream[|stream| - |w.file|..]
            && |w.file| <= max && (|stream| <= max ==> w.file == stream)
            && (|stream| > max ==> |w.file| >= 3 * max / 4)
            && w.end == |stream| && w.first == if |stream| <= max then 0 else |stream| - max
  {
    RunStaysFaithful(chunks, max);
  }

  lemma {:induction false} RunStaysFaithful(chunks: seq<seq<byte>>, max: nat)
    ensures Faithful(ReceivedAll(EMPTY, chunks, max), Stream(chunks), max)
  {
    if chunks != [] {
      var init := chunks[..|chunks| - 1];
      hide Faithful, Received;
      RunStaysFaithful(init, max);
      ReceivedIsFaithful(ReceivedAll(EMPTY, init, max), Stream(init), chunks[|chunks| - 1], max);
    }
  }

  /** The window never moves back. */
  lemma {:induction false} WindowMovesOn(chunks: seq<seq<byte>>, n: nat, max: nat)
    requires n <= |chunks|
    ensures ReceivedAll(EMPTY, chunks[..n], max).first <= ReceivedAll(EMPTY, chunks, max).first
    ensures ReceivedAll(EMPTY, chunks[..n], max).end <= ReceivedAll(EMPTY, chunks, max).end
    decreases |chunks| - n
  {
    if n == |chunks| {
      assert chunks[..n] == chunks;
    } else {
      WindowMovesOn(chunks, n + 1, max);
      var next := chunks[..n + 1];
      assert next[..n] == chunks[..n];
      RunStaysFaithful(chunks[..n], max);
      ReceivedIsFaithful(ReceivedAll(EMPTY, chunks[..n], max), Stream(chunks[..n]), chunks[n], max);
    }
  }

  // ---------- the code ----------

  class RollingFile {
    const max: nat
    var file: seq<byte>

    constructor (max: int)
      ensures this.max == (if max < 1024 then 1024 else max) && file == []
    {
      this.max := if max < 1024 then 1024 else max;
      this.file := [];
    }

    method Append(p: seq<byte>) returns (size: nat)
      requires |file| <= max
      modifies this
      ensures file == Appended(old(file), p, max) && size == |file|
    {
      if p == [] {
        assert file + p == file;
        return |file|;
      }
      if |file| + |p| > max {
        RewriteTrimmed(p);
      } else {
        file := file + p;
      }
      return |file|;
    }

    method RewriteTrimmed(appendage: seq<byte>)
      modifies this
      ensures file == Suffix(Suffix(old(file), Keep(max)) + appendage, max)
    {
      var existing := file;
      var targetKeep := 3 * max / 4;
      if |existing| > targetKeep { existing := existing[|existing| - targetKeep..]; }
      var combined := existing + appendage;
      if |combined| > max { combined := combined[|combined| - max..]; }
      file := combined;
    }
  }

  class Session {
    const rolling: RollingFile
    var firstSeq: nat
    var endSeq: nat
    ghost var stream: seq<byte>

    ghost predicate Valid()
      reads this, rolling
    {
      Faithful(Window(rolling.file, firstSeq, endSeq), stream, rolling.max)
    }

    constructor (rolling: RollingFile)
      requires rolling.file == []
      ensures this.rolling == rolling && stream == [] && Valid()
    {
      this.rolling := rolling;
      this.firstSeq, this.endSeq, this.stream := 0, 0, [];
    }

    /** One read of readLoop. The number of the chunk is its position in everything printed. */
    method Receive(chunk: seq<byte>) returns (seqNo: nat)
      requires Valid()
      modifies this, rolling
      ensures Valid() && stream == old(stream) + chunk
      ensures Window(rolling.file, firstSeq, endSeq) ==
                Received(old(Window(rolling.file, firstSeq, endSeq)), chunk, rolling.max)
      ensures seqNo == |old(stream)|
    {
      ReceivedIsFaithful(Window(rolling.file, firstSeq, endSeq), stream, chunk, rolling.max);
      seqNo := endSeq;
      var size := rolling.Append(chunk);
      endSeq := endSeq + |chunk|;
      if endSeq - firstSeq > rolling.max { firstSeq := endSeq - rolling.max; }
      stream := stream + chunk;
    }

    /** What a client that attaches is sent. */
    method Snapshot() returns (raw: seq<byte>, first: nat, end: nat)
      requires Valid()
      ensures end == |stream| && |raw| <= end - first <= rolling.max && raw == stream[end - |raw|..]
      ensures |raw| >= Min(|stream|, 3 * rolling.max / 4) && (|stream| <= rolling.max ==> raw == stream && first == 0)
    {
      return rolling.file, firstSeq, endSeq;
    }
  }
}
