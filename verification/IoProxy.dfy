/**
 The line-buffering proxy writer: bytes written to it leave as frames, one per
 completed line, and what is left of an unfinished line leaves on a flush.

 `AfterWrite`, `AfterFlush` and the frames beside them specify one call; the
 class is proved against them for a writer that may accept any part of each
 buffer and may fail at any moment. The lock that makes one call atomic is
 modelled in module Multiplexer.
 */
module IoProxy {
  import opened Common
  import opened Framing

  const NEWLINE: Byte := 10

  /** No newline among the first `k` bytes. */
  ghost predicate NoNewline(b: seq<Byte>, k: nat)
    requires k <= |b|
  {
    forall i :: 0 <= i < k ==> b[i] != NEWLINE
  }

  function NewlineIndex(b: seq<Byte>): (k: nat)
    ensures k <= |b| && NoNewline(b, k)
    ensures k < |b| ==> b[k] == NEWLINE
  {
    if b == [] || b[0] == NEWLINE then 0 else 1 + NewlineIndex(b[1..])
  }

  /** The completed lines of `b`, each with its newline. */
  function Lines(b: seq<Byte>): seq<seq<Byte>> {
    if b == [] then []
    else
      var init := b[..|b| - 1];
      if b[|b| - 1] == NEWLINE then Lines(init) + [Unfinished(init) + [NEWLINE]] else Lines(init)
  }

  /** What follows the last newline of `b`. */
  function Unfinished(b: seq<Byte>): (rest: seq<Byte>)
    ensures NoNewline(rest, |rest|)
  {
    if b == [] || b[|b| - 1] == NEWLINE then [] else Unfinished(b[..|b| - 1]) + [b[|b| - 1]]
  }

  function Flatten(bs: seq<seq<Byte>>): seq<Byte> {
    if bs == [] then [] else bs[0] + Flatten(bs[1..])
  }

  /** One newline, at the end. */
  ghost predicate IsLine(b: seq<Byte>) {
    b != [] && b[|b| - 1] == NEWLINE && NoNewline(b, |b| - 1)
  }

  function Frames(t: StdType, payloads: seq<seq<Byte>>): (fs: seq<Frame>)
    ensures |fs| == |payloads|
    ensures forall i :: 0 <= i < |fs| ==> fs[i] == Frame(t, payloads[i])
  {
    if payloads == [] then [] else [Frame(t, payloads[0])] + Frames(t, payloads[1..])
  }

  /** A proxy between two calls; `timers` counts the delayed flushes still asleep. */
  datatype Proxy = Proxy(stream: StdType, buf: seq<Byte>, flusher: bool, timers: nat)

  function New(t: StdType): Proxy {
    Proxy(t, [], false, 0)
  }

  /** The end of Write: a non-empty buffer without a flusher gets a delayed flush. */
  function Arm(p: Proxy): Proxy {
    if p.buf != [] && !p.flusher then p.(flusher := true, timers := p.timers + 1) else p
  }

  function AfterWrite(p: Proxy, data: seq<Byte>): Proxy {
    Arm(p.(buf := Unfinished(p.buf + data)))
  }

  function WriteFrames(p: Proxy, data: seq<Byte>): seq<Frame> {
    Frames(p.stream, Lines(p.buf + data))
  }

  function AfterFlush(p: Proxy): Proxy {
    if p.buf == [] then p else p.(buf := [], flusher := false)
  }

  function FlushFrames(p: Proxy): seq<Frame> {
    if p.buf == [] then [] else [Frame(p.stream, p.buf)]
  }

  // ---- lines ----

  lemma {:induction false} FlattenAppend(bs: seq<seq<Byte>>, last: seq<Byte>)
    ensures Flatten(bs + [last]) == Flatten(bs) + last
  {
    if bs != [] {
      assert (bs + [last])[1..] == bs[1..] + [last];
      FlattenAppend(bs[1..], last);
    }
  }

  lemma {:induction false} LinesKeepEveryByte(b: seq<Byte>)
    ensures Flatten(Lines(b)) + Unfinished(b) == b
  {
    if b != [] {
      var init := b[..|b| - 1];
      LinesKeepEveryByte(init);
      FlattenAppend(Lines(init), Unfinished(init) + [NEWLINE]);
    }
  }

  lemma {:induction false} LinesAreLines(b: seq<Byte>)
    ensures forall i :: 0 <= i < |Lines(b)| ==> IsLine(Lines(b)[i])
  {
    if b != [] {
      LinesAreLines(b[..|b| - 1]);
    }
  }

  /** Scanning `a` first and the rest later finds the same lines as scanning all at once. */
  lemma {:induction false} LinesConcat(a: seq<Byte>, b: seq<Byte>)
    ensures Lines(a + b) == Lines(a) + Lines(Unfinished(a) + b)
    ensures Unfinished(a + b) == Unfinished(Unfinished(a) + b)
  {
    if b == [] {
      assert a + b == a && Unfinished(a) + b == Unfinished(a);
      NoLineYet(Unfinished(a));
    } else {
      var init := b[..|b| - 1];
      assert (a + b)[..|a + b| - 1] == a + init;
      assert (Unfinished(a) + b)[..|Unfinished(a) + b| - 1] == Unfinished(a) + init;
      LinesConcat(a, init);
    }
  }

  lemma {:induction false} NoLineYet(b: seq<Byte>)
    requires NoNewline(b, |b|)
    ensures Lines(b) == [] && Unfinished(b) == b
  {
    if b != [] {
      NoLineYet(b[..|b| - 1]);
    }
  }

  /** Cutting off the first line. */
  lemma LinesStep(b: seq<Byte>, line: seq<Byte>, rest: seq<Byte>)
    requires b == line + rest && IsLine(line)
    ensures Lines(b) == [line] + Lines(rest)
    ensures Unfinished(b) == Unfinished(rest)
  {
    LinesConcat(line, rest);
    NoLineYet(line[..|line| - 1]);
    assert line == line[..|line| - 1] + [NEWLINE];
    assert Lines(line) == [line];
    assert Unfinished(line) + rest == rest;
  }

  lemma {:induction false} FramesConcat(t: StdType, a: seq<seq<Byte>>, b: seq<seq<Byte>>)
    ensures Frames(t, a + b) == Frames(t, a) + Frames(t, b)
  {
    if a == [] {
      assert a + b == b;
    } else {
      assert (a + b)[1..] == a[1..] + b;
      FramesConcat(t, a[1..], b);
    }
  }

  lemma PrintOneMore(t: StdType, done: seq<seq<Byte>>, line: seq<Byte>)
    ensures EncodeAll(Frames(t, done + [line])) == EncodeAll(Frames(t, done)) + Encode(Frame(t, line))
  {
    FramesConcat(t, done, [line]);
    assert Frames(t, [line]) == [Frame(t, line)];
    EncodeAllConcat(Frames(t, done), [Frame(t, line)]);
    assert EncodeAll([Frame(t, line)]) == Encode(Frame(t, line));
  }

  // ---- chunking ----

  function WriteAllChunks(p: Proxy, chunks: seq<seq<Byte>>): (seq<Frame>, Proxy)
    decreases |chunks|
  {
    if chunks == [] then ([], p)
    else
      var rest := WriteAllChunks(AfterWrite(p, chunks[0]), chunks[1..]);
      (WriteFrames(p, chunks[0]) + rest.0, rest.1)
  }

  /** However the data is cut into calls, the frames and the buffer left are the same. */
  lemma {:induction false} ChunkingDoesNotMatter(p: Proxy, chunks: seq<seq<Byte>>)
    requires NoNewline(p.buf, |p.buf|)
    ensures WriteAllChunks(p, chunks).0 == WriteFrames(p, Flatten(chunks))
    ensures WriteAllChunks(p, chunks).1.buf == AfterWrite(p, Flatten(chunks)).buf
    decreases |chunks|
  {
    if chunks == [] {
      assert p.buf + [] == p.buf;
      NoLineYet(p.buf);
    } else {
      var q, rest := AfterWrite(p, chunks[0]), Flatten(chunks[1..]);
      ChunkingDoesNotMatter(q, chunks[1..]);
      assert p.buf + Flatten(chunks) == (p.buf + chunks[0]) + rest;
      LinesConcat(p.buf + chunks[0], rest);
      FramesConcat(p.stream, Lines(p.buf + chunks[0]), Lines(q.buf + rest));
    }
  }

  // ---- the delayed flush ----

  /** Between calls the buffer holds no newline, and what it holds has a flusher. */
  ghost predicate Settled(p: Proxy) {
    NoNewline(p.buf, |p.buf|) && (p.buf != [] ==> p.flusher)
  }

  /**
   Exactly when a Write that leaves bytes behind can rely on a delayed flush: a
   flusher that is set while nothing sleeps blocks a new one.
   */
  lemma BufferedBytesHaveTimer(p: Proxy, data: seq<Byte>)
    requires AfterWrite(p, data).buf != []
    ensures AfterWrite(p, data).timers > 0 <==> (p.timers > 0 || !p.flusher)
  {
  }

  /**
   The flusher does get stuck, and any text will do it: unfinished text, its
   newline, the delayed flush (which finds an empty buffer and leaves the flag
   set), then unfinished text again. That text waits without any timer.
   */
  lemma FlusherCanGetStuck(t: StdType, x: seq<Byte>, y: seq<Byte>)
    requires x != [] && NoNewline(x, |x|) && y != [] && NoNewline(y, |y|)
    ensures var p1 := AfterWrite(New(t), x);
            var p2 := AfterWrite(p1, [NEWLINE]);
            var p3 := AfterFlush(p2.(timers := p2.timers - 1));
            p1.timers == 1 && AfterWrite(p3, y) == Proxy(t, y, true, 0)
  {
    assert [] + x == x && [] + y == y;
    NoLineYet(x);
    NoLineYet(y);
    assert Unfinished(x + [NEWLINE]) == [];
  }

  // ---- the code ----

  /** The writer's state: all that arrived, whether a call failed, what had arrived by then. */
  datatype Output = Output(sink: seq<Byte>, failed: bool, clean: seq<Byte>)

  /**
   What a printing call may have done to the writer: without any error it added
   exactly `ideal`, and whatever happened, up to the first error it had added
   a prefix of `ideal`.
   */
  ghost predicate Printed(before: Output, after: Output, ideal: seq<Byte>) {
    && (before.failed ==> after.failed && after.clean == before.clean)
    && (!before.failed ==> before.sink <= after.clean <= before.sink + ideal)
    && (!after.failed ==> after.sink == before.sink + ideal && after.clean == after.sink)
  }

  lemma PrintedTwice(a: Output, b: Output, c: Output, x: seq<Byte>, y: seq<Byte>)
    requires Printed(a, b, x) && Printed(b, c, y)
    ensures Printed(a, c, x + y)
  {
    assert (a.sink + x) + y == a.sink + (x + y);
    assert a.sink + x <= a.sink + (x + y);
  }

  /** In the middle of Write: `done` has left as frames, `buf` is still to be scanned. */
  ghost predicate Scanned(before: Output, now: Output, t: StdType, all: seq<Byte>, done: seq<seq<Byte>>, buf: seq<Byte>)
  {
    && Lines(all) == done + Lines(buf)
    && Unfinished(all) == Unfinished(buf)
    && Printed(before, now, EncodeAll(Frames(t, done)))
  }

  lemma ScanStep(a: Output, b: Output, c: Output, t: StdType, all: seq<Byte>, done: seq<seq<Byte>>, line: seq<Byte>,
                 rest: seq<Byte>)
    requires Scanned(a, b, t, all, done, line + rest)
    requires IsLine(line) && Printed(b, c, Encode(Frame(t, line)))
    ensures Scanned(a, c, t, all, done + [line], rest)
  {
    LinesStep(line + rest, line, rest);
    PrintOneMore(t, done, line);
    PrintedTwice(a, b, c, EncodeAll(Frames(t, done)), Encode(Frame(t, line)));
  }

  /**
   The shared output. Each call accepts some of the bytes offered and may report
   an error; a call that reports none accepts at least one byte. `clean` is what
   had arrived when the first error was reported.
   */
  class Writer {
    var sink: seq<Byte>
    ghost var failed: bool
    ghost var clean: seq<Byte>

    ghost predicate Valid()
      reads this
    {
      clean <= sink && (!failed ==> clean == sink)
    }

    ghost function State(): Output
      reads this
    {
      Output(sink, failed, clean)
    }

    constructor ()
      ensures Valid() && State() == Output([], false, [])
    {
      sink, failed, clean := [], false, [];
    }

    method Write(buf: seq<Byte>) returns (n: nat, err: bool)
      requires Valid()
      modifies this
      ensures Valid()
      ensures n <= |buf| && (!err && buf != [] ==> n > 0)
      ensures sink == old(sink) + buf[..n]
      ensures failed == (old(failed) || err)
      ensures clean == if old(failed) then old(clean) else sink
    {
      err := *;
      assert |buf| <= |buf|;
      n :| n <= |buf| && (!err && buf != [] ==> n > 0);
      sink := sink + buf[..n];
      clean := if failed then clean else sink;
      failed := failed || err;
    }
  }

  class IoProxy {
    const out: Writer
    const prefix: StdType
    var buf: seq<Byte>
    var flusher: bool
    ghost var timers: nat

    ghost function State(): Proxy
      reads this
    {
      Proxy(prefix, buf, flusher, timers)
    }

    constructor (w: Writer, prefix: StdType)
      ensures out == w && State() == New(prefix)
    {
      this.out, this.prefix := w, prefix;
      buf, flusher, timers := [], false, 0;
    }

    static method WriteAll(writer: Writer, data: seq<Byte>) returns (err: bool)
      requires writer.Valid()
      modifies writer
      ensures writer.Valid() && Printed(old(writer.State()), writer.State(), data)
      ensures !err ==> writer.sink == old(writer.sink) + data && writer.failed == old(writer.failed)
      ensures err ==> writer.failed
    {
      var rest := data;
      while |rest| > 0
        invariant writer.Valid()
        invariant |rest| <= |data| && rest == data[|data| - |rest|..]
        invariant writer.failed == old(writer.failed)
        invariant writer.sink == old(writer.sink) + data[..|data| - |rest|]
        invariant writer.failed ==> writer.clean == old(writer.clean)
      {
        var n, e := writer.Write(rest);
        assert data[..|data| - |rest|] + rest[..n] == data[..|data| - |rest| + n];
        if e {
          return true;
        }
        rest := rest[n..];
      }
      return false;
    }

    method WriteFrame(p: seq<Byte>) returns (err: bool)
      requires out.Valid()
      modifies out
      ensures out.Valid() && Printed(old(out.State()), out.State(), Encode(Frame(prefix, p)))
      ensures err ==> out.failed
    {
      err := WriteAll(out, Header(prefix, |p|));
      if err {
        return;
      }
      ghost var mid := out.State();
      err := WriteAll(out, p);
      PrintedTwice(old(out.State()), mid, out.State(), Header(prefix, |p|), p);
    }

    /** Emits the first completed line, if any; the result is its length. */
    method Process() returns (n: nat)
      requires out.Valid()
      modifies this`buf, out
      ensures out.Valid()
      ensures n == 0 <==> NoNewline(old(buf), |old(buf)|)
      ensures n == 0 ==> buf == old(buf) && unchanged(out)
      ensures n > 0 ==> n <= |old(buf)| && IsLine(old(buf)[..n]) && buf == old(buf)[n..]
      ensures n > 0 ==> Printed(old(out.State()), out.State(), Encode(Frame(prefix, old(buf)[..n])))
    {
      var bufferLength := |buf|;
      for pos := 0 to bufferLength
        invariant buf == old(buf) && unchanged(out)
        invariant NoNewline(buf, pos)
      {
        if buf[pos] == NEWLINE {
          var _ := WriteFrame(buf[..pos + 1]);
          buf := buf[pos + 1..];
          return pos + 1;
        }
      }
      return 0;
    }

    /** The loop of Write: Process until it finds no more line. */
    method ProcessAll()
      requires out.Valid()
      modifies this`buf, out
      ensures out.Valid() && buf == Unfinished(old(buf))
      ensures Printed(old(out.State()), out.State(), EncodeAll(Frames(prefix, Lines(old(buf)))))
    {
      ghost var done: seq<seq<Byte>> := [];
      var more := true;
      while more
        invariant out.Valid()
        invariant Scanned(old(out.State()), out.State(), prefix, old(buf), done, buf)
        invariant !more ==> NoNewline(buf, |buf|)
        decreases |buf|, more
      {
        ghost var before, mid := buf, out.State();
        var count := Process();
        if count == 0 {
          more := false;
        } else {
          assert before == before[..count] + buf;
          ScanStep(old(out.State()), mid, out.State(), prefix, old(buf), done, before[..count], buf);
          done := done + [before[..count]];
        }
      }
      NoLineYet(buf);
      assert done + [] == done;
    }

    method Write(p: seq<Byte>) returns (n: nat, err: bool)
      requires out.Valid()
      modifies this, out
      ensures out.Valid()
      ensures n == |p| && !err
      ensures State() == AfterWrite(old(State()), p)
      ensures Printed(old(out.State()), out.State(), EncodeAll(WriteFrames(old(State()), p)))
    {
      buf := buf + p;
      ProcessAll();
      if |buf| > 0 && !flusher {
        flusher, timers := true, timers + 1;
      }
      return |p|, false;
    }

    method Flush() returns (err: bool)
      requires out.Valid()
      modifies this, out
      ensures out.Valid()
      ensures State() == AfterFlush(old(State()))
      ensures Printed(old(out.State()), out.State(), EncodeAll(FlushFrames(old(State()))))
    {
      if |buf| == 0 {
        return false;
      }
      assert EncodeAll([Frame(prefix, buf)]) == Encode(Frame(prefix, buf));
      err := WriteFrame(buf);
      buf := [];
      flusher := false;
    }
  }
}
