/**
 Several proxies (stdout and stderr of one exec) share one lock and one writer.

 `Step` is the fine machine: a goroutine takes the lock, scans its buffer, hands
 the writer one header or payload at a time - the writer may take any part of
 it - and releases the lock. `Apply` is the coarse machine, where each call is
 one step. `LockMakesCallsAtomic` shows that every run of the fine machine is a
 run of the coarse one; the conservation theorems then follow for every
 interleaving. A writer that reports errors, for whole calls and inside one, is at
 the end.
 */
module Multiplexer {
  import opened Common
  import opened Framing
  import opened IoProxy

  /** A call of one proxy: Write, an explicit Flush, or a delayed Flush waking up. */
  datatype Op = Write(i: nat, data: seq<Byte>) | Flush(i: nat) | Timer(i: nat)

  // ---- one call, one step ----

  datatype Shared = Shared(sink: seq<Byte>, proxies: seq<Proxy>)

  predicate Enabled(proxies: seq<Proxy>, op: Op) {
    op.i < |proxies| && (op.Timer? ==> proxies[op.i].timers > 0)
  }

  /** A sleeping flush that wakes up is no longer asleep. */
  function Wake(p: Proxy): Proxy
    requires p.timers > 0
  {
    p.(timers := p.timers - 1)
  }

  function After(p: Proxy, op: Op): Proxy
    requires op.Timer? ==> p.timers > 0
  {
    match op
    case Write(_, data) => AfterWrite(p, data)
    case Flush(_) => AfterFlush(p)
    case Timer(_) => AfterFlush(Wake(p))
  }

  function Emitted(p: Proxy, op: Op): seq<Frame> {
    match op
    case Write(_, data) => WriteFrames(p, data)
    case Flush(_) => FlushFrames(p)
    case Timer(_) => FlushFrames(p)
  }

  function Apply(s: Shared, op: Op): Option<Shared> {
    if !Enabled(s.proxies, op) then None
    else
      var p := s.proxies[op.i];
      Some(Shared(s.sink + EncodeAll(Emitted(p, op)), s.proxies[op.i := After(p, op)]))
  }

  function Run(s: Shared, ops: seq<Op>): Option<Shared>
    decreases |ops|
  {
    if ops == [] then Some(s)
    else
      match Apply(s, ops[0])
      case None => None
      case Some(next) => Run(next, ops[1..])
  }

  /** The frames of a whole run. */
  function Log(s: Shared, ops: seq<Op>): seq<Frame>
    decreases |ops|
  {
    if ops == [] || !Enabled(s.proxies, ops[0]) then []
    else Emitted(s.proxies[ops[0].i], ops[0]) + Log(Apply(s, ops[0]).value, ops[1..])
  }

  function DataFor(op: Op, i: nat): seq<Byte> {
    if op.Write? && op.i == i then op.data else []
  }

  /** The bytes written to proxy `i`. */
  function Written(ops: seq<Op>, i: nat): seq<Byte> {
    if ops == [] then []
    else DataFor(ops[0], i) + Written(ops[1..], i)
  }

  ghost predicate DistinctStreams(proxies: seq<Proxy>) {
    forall i, j :: 0 <= i < j < |proxies| ==> proxies[i].stream != proxies[j].stream
  }

  ghost predicate AllSettled(proxies: seq<Proxy>) {
    forall i :: 0 <= i < |proxies| ==> Settled(proxies[i])
  }

  // ---- the lock held, one writer call a step ----

  /** Where the holder of the lock is. `size` bytes of the buffer are leaving as one frame. */
  datatype Holder =
    | Free
    | Scanning(i: nat)
    | Sending(i: nat, header: seq<Byte>, body: seq<Byte>, size: nat, flushing: bool)

  datatype State = State(shared: Shared, holder: Holder)

  /** Take the lock for a call, let the writer accept `n` bytes, or move on inside the call. */
  datatype Label = Acquire(op: Op) | Accept(n: nat) | Advance

  function Buf(s: State, i: nat): seq<Byte>
    requires i < |s.shared.proxies|
  {
    s.shared.proxies[i].buf
  }

  function Update(s: Shared, i: nat, p: Proxy): Shared
    requires i < |s.proxies|
  {
    s.(proxies := s.proxies[i := p])
  }

  function StartFlush(s: Shared, i: nat): State
    requires i < |s.proxies|
  {
    var p := s.proxies[i];
    if p.buf == [] then State(s, Free)
    else State(s, Sending(i, Header(p.stream, |p.buf|), p.buf, |p.buf|, true))
  }

  function Start(s: Shared, op: Op): State
    requires Enabled(s.proxies, op)
  {
    var p := s.proxies[op.i];
    match op
    case Write(i, data) => State(Update(s, i, p.(buf := p.buf + data)), Scanning(i))
    case Flush(i) => StartFlush(s, i)
    case Timer(i) => StartFlush(Update(s, i, Wake(p)), i)
  }

  function AcceptBytes(s: State, n: nat): Option<State> {
    match s.holder
    case Sending(i, header, body, size, flushing) =>
      if header != [] then
        if 0 < n <= |header| then
          Some(State(s.shared.(sink := s.shared.sink + header[..n]), Sending(i, header[n..], body, size, flushing)))
        else None
      else if 0 < n <= |body| then
        Some(State(s.shared.(sink := s.shared.sink + body[..n]), Sending(i, [], body[n..], size, flushing)))
      else None
    case _ => None
  }

  ghost predicate WellFormed(s: State) {
    match s.holder
    case Free => true
    case Scanning(i) => i < |s.shared.proxies|
    case Sending(i, _, _, size, flushing) =>
      i < |s.shared.proxies| && size <= |Buf(s, i)| && (flushing ==> size == |Buf(s, i)|)
  }

  function AdvanceCall(s: State): Option<State>
    requires WellFormed(s)
  {
    match s.holder
    case Free => None
    case Scanning(i) =>
      var p := s.shared.proxies[i];
      var k := NewlineIndex(p.buf);
      if k < |p.buf| then
        Some(State(s.shared, Sending(i, Header(p.stream, k + 1), p.buf[..k + 1], k + 1, false)))
      else
        Some(State(Update(s.shared, i, Arm(p)), Free))
    case Sending(i, header, body, size, flushing) =>
      var p := s.shared.proxies[i];
      if header != [] || body != [] then None
      else if flushing then
        Some(State(Update(s.shared, i, p.(buf := [], flusher := false)), Free))
      else
        Some(State(Update(s.shared, i, p.(buf := p.buf[size..])), Scanning(i)))
  }

  function Step(s: State, l: Label): Option<State>
    requires WellFormed(s)
  {
    match l
    case Acquire(op) =>
      if s.holder.Free? && Enabled(s.shared.proxies, op) then Some(Start(s.shared, op)) else None
    case Accept(n) => AcceptBytes(s, n)
    case Advance => AdvanceCall(s)
  }

  lemma StepKeepsWellFormed(s: State, l: Label)
    requires WellFormed(s)
    ensures Step(s, l).Some? ==> WellFormed(Step(s, l).value)
  {
  }

  ghost function FineRun(s: State, labels: seq<Label>): Option<State>
    requires WellFormed(s)
    decreases |labels|
  {
    if labels == [] then Some(s)
    else
      StepKeepsWellFormed(s, labels[0]);
      match Step(s, labels[0])
      case None => None
      case Some(next) => FineRun(next, labels[1..])
  }

  /** The calls of a fine run, in the order in which they took the lock. */
  function Calls(labels: seq<Label>): seq<Op> {
    if labels == [] then []
    else (if labels[0].Acquire? then [labels[0].op] else []) + Calls(labels[1..])
  }

  // ---- refinement ----

  /** The state the coarse machine is in: the call in progress is already complete. */
  function Completed(s: State): Shared
    requires WellFormed(s)
  {
    match s.holder
    case Free => s.shared
    case Scanning(i) => ScanCompleted(s.shared, i)
    case Sending(i, header, body, size, flushing) =>
      var sent := s.shared.(sink := s.shared.sink + header + body);
      var p := s.shared.proxies[i];
      if flushing then Update(sent, i, p.(buf := [], flusher := false))
      else ScanCompleted(Update(sent, i, p.(buf := p.buf[size..])), i)
  }

  function ScanCompleted(s: Shared, i: nat): Shared
    requires i < |s.proxies|
  {
    var p := s.proxies[i];
    Shared(s.sink + EncodeAll(Frames(p.stream, Lines(p.buf))),
           s.proxies[i := Arm(p.(buf := Unfinished(p.buf)))])
  }

  /** Taking the lock is the coarse step. */
  lemma AcquireIsCall(s: State, op: Op)
    requires WellFormed(s) && Step(s, Acquire(op)).Some?
    ensures Apply(s.shared, op) == Some(Completed(Start(s.shared, op)))
  {
    var ps := s.shared.proxies;
    if op.Write? {
      var q := ps[op.i].(buf := ps[op.i].buf + op.data);
      assert ps[op.i := q][op.i := After(ps[op.i], op)] == ps[op.i := After(ps[op.i], op)];
    } else {
      var q := if op.Timer? then Wake(ps[op.i]) else ps[op.i];
      FlushIsCall(Update(s.shared, op.i, q), op.i);
      assert ps[op.i := ps[op.i]] == ps;
      assert ps[op.i := q][op.i := AfterFlush(q)] == ps[op.i := AfterFlush(q)];
    }
  }

  lemma FlushIsCall(s: Shared, i: nat)
    requires i < |s.proxies|
    ensures Completed(StartFlush(s, i))
         == Shared(s.sink + EncodeAll(FlushFrames(s.proxies[i])), s.proxies[i := AfterFlush(s.proxies[i])])
  {
    var p := s.proxies[i];
    if p.buf == [] {
      assert s.sink + [] == s.sink;
      assert s.proxies[i := p] == s.proxies;
    } else {
      assert EncodeAll([Frame(p.stream, p.buf)]) == Header(p.stream, |p.buf|) + p.buf;
    }
  }

  /** Nothing the holder of the lock does after that is visible to the coarse machine. */
  lemma InsideIsInvisible(s: State, l: Label)
    requires WellFormed(s) && Step(s, l).Some? && !l.Acquire?
    ensures Completed(Step(s, l).value) == Completed(s)
  {
    match s.holder
    case Scanning(i) => ScanIsInvisible(s, i);
    case Sending(i, header, body, size, flushing) =>
      match l {
        case Accept(n) =>
          assert header != [] ==> s.shared.sink + header[..n] + header[n..] == s.shared.sink + header;
          assert header == [] ==> s.shared.sink + body[..n] + [] + body[n..] == s.shared.sink + [] + body;
        case Advance =>
          assert s.shared.sink + [] + [] == s.shared.sink;
      }
  }

  lemma PrintFirst(t: StdType, line: seq<Byte>, rest: seq<seq<Byte>>)
    ensures EncodeAll(Frames(t, [line] + rest)) == Encode(Frame(t, line)) + EncodeAll(Frames(t, rest))
  {
    assert ([line] + rest)[1..] == rest;
    assert Frames(t, [line] + rest)[1..] == Frames(t, rest);
  }

  lemma ScanIsInvisible(s: State, i: nat)
    requires WellFormed(s) && s.holder == Scanning(i)
    ensures Completed(AdvanceCall(s).value) == Completed(s)
  {
    var p := s.shared.proxies[i];
    var k := NewlineIndex(p.buf);
    if k < |p.buf| {
      LineIsInvisible(s.shared, i, p.buf[..k + 1], p.buf[k + 1..]);
    } else {
      NoLineYet(p.buf);
    }
  }

  lemma LineIsInvisible(s: Shared, i: nat, line: seq<Byte>, rest: seq<Byte>)
    requires i < |s.proxies| && IsLine(line) && s.proxies[i].buf == line + rest
    ensures var p := s.proxies[i];
            var sent := s.(sink := s.sink + Header(p.stream, |line|) + line);
            ScanCompleted(Update(sent, i, p.(buf := rest)), i) == ScanCompleted(s, i)
  {
    var p := s.proxies[i];
    LinesStep(p.buf, line, rest);
    PrintFirst(p.stream, line, Lines(rest));
    Regroup(s.sink, Header(p.stream, |line|), line, EncodeAll(Frames(p.stream, Lines(rest))));
    var done := Arm(p.(buf := Unfinished(rest)));
    assert s.proxies[i := p.(buf := rest)][i := done] == s.proxies[i := done];
  }

  lemma Regroup(a: seq<Byte>, b: seq<Byte>, c: seq<Byte>, d: seq<Byte>)
    ensures a + b + c + d == a + ((b + c) + d)
  {
  }

  /**
   Every run of the fine machine, whatever the interleaving and however short the
   writes, is a run of the coarse machine over the calls in lock order.
   */
  lemma {:induction false} LockMakesCallsAtomic(s: State, labels: seq<Label>)
    requires WellFormed(s)
    requires FineRun(s, labels).Some?
    ensures WellFormed(FineRun(s, labels).value)
    ensures Run(Completed(s), Calls(labels)) == Some(Completed(FineRun(s, labels).value))
    decreases |labels|
  {
    if labels != [] {
      var l, rest := labels[0], labels[1..];
      StepKeepsWellFormed(s, l);
      assert !l.Acquire? ==> [] + Calls(rest) == Calls(rest);
      LockMakesCallsAtomic(Step(s, l).value, rest);
      if l.Acquire? {
        AcquireIsCall(s, l.op);
        assert ([l.op] + Calls(rest))[1..] == Calls(rest);
      } else {
        InsideIsInvisible(s, l);
      }
    }
  }

  // ---- the lock is always released ----

  /** An upper bound on the steps the holder still takes. */
  function Remaining(s: State): nat
    requires WellFormed(s)
  {
    match s.holder
    case Free => 0
    case Scanning(i) => 1 + 12 * |Buf(s, i)|
    case Sending(i, header, body, size, flushing) =>
      |header| + |body| + 1 + if flushing then 0 else 1 + 12 * (|Buf(s, i)| - size)
  }

  /**
   The holder is never stuck, and every step it takes brings it closer to
   releasing the lock: the scan loop and the write loop both terminate.
   */
  lemma HolderMakesProgress(s: State)
    requires WellFormed(s) && !s.holder.Free?
    ensures exists l: Label :: !l.Acquire? && Step(s, l).Some?
    ensures forall l: Label :: !l.Acquire? && Step(s, l).Some? && WellFormed(Step(s, l).value) ==>
              Remaining(Step(s, l).value) < Remaining(s)
  {
    match s.holder
    case Scanning(i) => assert Step(s, Advance).Some?;
    case Sending(i, header, body, _, _) =>
      assert Step(s, if header == [] && body == [] then Advance else Accept(1)).Some?;
  }

  // ---- what one call conserves ----

  lemma {:induction false} DemuxFrames(t: StdType, payloads: seq<seq<Byte>>, u: StdType)
    ensures Demux(Frames(t, payloads), u) == if t == u then Flatten(payloads) else []
  {
    if payloads != [] {
      DemuxFrames(t, payloads[1..], u);
      assert Frames(t, payloads)[1..] == Frames(t, payloads[1..]);
    }
  }

  /** The bytes a call adds to proxy `i`. */
  function Data(op: Op): seq<Byte> {
    if op.Write? then op.data else []
  }

  /** What a call emits, and what it leaves in the buffer, is what it found there and was given. */
  lemma CallConserves(p: Proxy, op: Op, u: StdType)
    requires op.Timer? ==> p.timers > 0
    ensures u == p.stream ==> Demux(Emitted(p, op), u) + After(p, op).buf == p.buf + Data(op)
    ensures u != p.stream ==> Demux(Emitted(p, op), u) == []
  {
    match op
    case Write(_, data) =>
      DemuxFrames(p.stream, Lines(p.buf + data), u);
      LinesKeepEveryByte(p.buf + data);
    case _ =>
      assert Demux([Frame(p.stream, p.buf)], u) == if u == p.stream then p.buf else [];
  }

  /** No empty frame is emitted, and a frame emitted by Write is one line. */
  lemma CallEmitsLines(p: Proxy, op: Op)
    ensures forall f :: f in Emitted(p, op) ==> f.stream == p.stream && f.payload != []
    ensures op.Write? ==> forall f :: f in Emitted(p, op) ==> IsLine(f.payload)
  {
    if op.Write? {
      LinesAreLines(p.buf + op.data);
    }
  }

  lemma CallSettles(p: Proxy, op: Op)
    requires Settled(p) && (op.Timer? ==> p.timers > 0)
    ensures Settled(After(p, op)) && After(p, op).stream == p.stream
  {
  }

  // ---- what a run conserves ----

  lemma {:induction false} RunSettles(s: Shared, ops: seq<Op>)
    requires AllSettled(s.proxies) && Run(s, ops).Some?
    ensures AllSettled(Run(s, ops).value.proxies)
    decreases |ops|
  {
    if ops != [] {
      CallSettles(s.proxies[ops[0].i], ops[0]);
      RunSettles(Apply(s, ops[0]).value, ops[1..]);
    }
  }

  lemma {:induction false} RunKeepsStreams(s: Shared, ops: seq<Op>)
    requires Run(s, ops).Some?
    ensures |Run(s, ops).value.proxies| == |s.proxies|
    ensures forall i :: 0 <= i < |s.proxies| ==> Run(s, ops).value.proxies[i].stream == s.proxies[i].stream
    decreases |ops|
  {
    if ops != [] {
      RunKeepsStreams(Apply(s, ops[0]).value, ops[1..]);
    }
  }

  lemma PrintTwo(sink: seq<Byte>, a: seq<Frame>, b: seq<Frame>)
    ensures sink + EncodeAll(a) + EncodeAll(b) == sink + EncodeAll(a + b)
  {
    EncodeAllConcat(a, b);
  }

  /** The shared output grows by whole frames. */
  lemma {:induction false} RunPrintsLog(s: Shared, ops: seq<Op>)
    requires Run(s, ops).Some?
    ensures Run(s, ops).value.sink == s.sink + EncodeAll(Log(s, ops))
    decreases |ops|
  {
    if ops == [] {
      assert s.sink + [] == s.sink;
    } else {
      var next := Apply(s, ops[0]).value;
      RunPrintsLog(next, ops[1..]);
      PrintTwo(s.sink, Emitted(s.proxies[ops[0].i], ops[0]), Log(next, ops[1..]));
    }
  }

  lemma FreshRunPrintsLog(s: Shared, ops: seq<Op>)
    requires Run(s, ops).Some? && s.sink == []
    ensures Run(s, ops).value.sink == EncodeAll(Log(s, ops))
  {
    RunPrintsLog(s, ops);
    NothingBefore(s.sink, EncodeAll(Log(s, ops)));
  }

  lemma NothingBefore(a: seq<Byte>, b: seq<Byte>)
    requires a == []
    ensures a + b == b
  {
  }

  lemma StepConserves(s: Shared, op: Op, i: nat)
    requires DistinctStreams(s.proxies) && i < |s.proxies| && Enabled(s.proxies, op)
    ensures var next := Apply(s, op).value;
            && |next.proxies| == |s.proxies|
            && DistinctStreams(next.proxies)
            && next.proxies[i].stream == s.proxies[i].stream
            && Demux(Emitted(s.proxies[op.i], op), s.proxies[i].stream) + next.proxies[i].buf
               == s.proxies[i].buf + DataFor(op, i)
  {
    var p, buf := s.proxies[op.i], s.proxies[i].buf;
    CallConserves(p, op, s.proxies[i].stream);
    assert After(p, op).stream == p.stream;
    if op.i != i {
      assert p.stream != s.proxies[i].stream;
      assert [] + buf == buf + [];
    }
  }

  /** Conservation over one call and over the rest of a run adds up. */
  lemma ConserveTwo(t: StdType, a: seq<Frame>, b: seq<Frame>, buf: seq<Byte>, data: seq<Byte>, mid: seq<Byte>,
                    rest: seq<Byte>, end: seq<Byte>)
    requires Demux(a, t) + mid == buf + data
    requires Demux(b, t) + end == mid + rest
    ensures Demux(a + b, t) + end == buf + (data + rest)
  {
    DemuxConcat(a, b, t);
    var x, y := Demux(a, t), Demux(b, t);
    calc {
      (x + y) + end;
      x + (y + end);
      x + (mid + rest);
      (x + mid) + rest;
      (buf + data) + rest;
      buf + (data + rest);
    }
  }

  /**
   Nothing is lost, duplicated or reordered: the frames of stream `i`, then what
   is still in its buffer, are the bytes written to proxy `i`.
   */
  lemma {:induction false} RunConserves(s: Shared, ops: seq<Op>, i: nat)
    requires DistinctStreams(s.proxies) && i < |s.proxies| && Run(s, ops).Some?
    ensures |Run(s, ops).value.proxies| == |s.proxies|
    ensures Demux(Log(s, ops), s.proxies[i].stream) + Run(s, ops).value.proxies[i].buf
         == s.proxies[i].buf + Written(ops, i)
    decreases |ops|
  {
    if ops != [] {
      var next := Apply(s, ops[0]).value;
      StepConserves(s, ops[0], i);
      RunConserves(next, ops[1..], i);
      ConserveTwo(s.proxies[i].stream, Emitted(s.proxies[ops[0].i], ops[0]), Log(next, ops[1..]), s.proxies[i].buf,
                  DataFor(ops[0], i), next.proxies[i].buf, Written(ops[1..], i), Run(s, ops).value.proxies[i].buf);
    }
  }

  /**
   Once proxy `i` has been flushed and nothing more is written to it, no flush of
   it, explicit or delayed, prints anything.
   */
  lemma {:induction false} SilentAfterFlush(s: Shared, ops: seq<Op>, i: nat)
    requires DistinctStreams(s.proxies) && i < |s.proxies| && Run(s, ops).Some?
    requires s.proxies[i].buf == []
    requires forall op :: op in ops && op.i == i ==> !op.Write?
    ensures forall f :: f in Log(s, ops) ==> f.stream != s.proxies[i].stream
    decreases |ops|
  {
    if ops != [] {
      var op := ops[0];
      CallEmitsLines(s.proxies[op.i], op);
      SilentAfterFlush(Apply(s, op).value, ops[1..], i);
    }
  }

  lemma {:induction false} PayloadInDemux(fs: seq<Frame>, k: nat)
    requires k < |fs|
    ensures |fs[k].payload| <= |Demux(fs, fs[k].stream)|
  {
    if k > 0 {
      PayloadInDemux(fs[1..], k - 1);
    }
  }

  lemma {:induction false} LogStreams(s: Shared, ops: seq<Op>, f: Frame)
    requires f in Log(s, ops)
    ensures f.payload != []
    ensures exists i :: 0 <= i < |s.proxies| && s.proxies[i].stream == f.stream
    decreases |ops|
  {
    var p, next := s.proxies[ops[0].i], Apply(s, ops[0]).value;
    if f in Emitted(p, ops[0]) {
      CallEmitsLines(p, ops[0]);
    } else {
      LogStreams(next, ops[1..], f);
      var i :| 0 <= i < |next.proxies| && next.proxies[i].stream == f.stream;
      assert s.proxies[i].stream == f.stream;
    }
  }

  // ---- the whole protocol ----

  function Initial(streams: seq<StdType>): (s: State)
    ensures |s.shared.proxies| == |streams|
    ensures forall i :: 0 <= i < |streams| ==> s.shared.proxies[i] == New(streams[i])
    ensures s.holder == Free
  {
    State(Shared([], seq(|streams|, i requires 0 <= i < |streams| => New(streams[i]))), Free)
  }

  ghost predicate Distinct(streams: seq<StdType>) {
    forall i, j :: 0 <= i < j < |streams| ==> streams[i] != streams[j]
  }

  /** Fewer than 2^32 bytes were written to each proxy. */
  ghost predicate Modest(n: nat, ops: seq<Op>) {
    forall i :: 0 <= i < n ==> |Written(ops, i)| < SIZE_LIMIT
  }

  /** Payloads can only overflow when 2^32 bytes or more are written to one proxy. */
  lemma ModestLogIsShort(s: Shared, ops: seq<Op>)
    requires DistinctStreams(s.proxies) && Run(s, ops).Some? && Modest(|s.proxies|, ops)
    requires forall i :: 0 <= i < |s.proxies| ==> s.proxies[i].buf == []
    ensures AllShort(Log(s, ops))
  {
    var log := Log(s, ops);
    forall k | 0 <= k < |log| ensures Short(log[k]) {
      LogStreams(s, ops, log[k]);
      var i :| 0 <= i < |s.proxies| && s.proxies[i].stream == log[k].stream;
      RunConserves(s, ops, i);
      PayloadInDemux(log, k);
    }
  }

  /**
   For every interleaving of writes, flushes and delayed flushes of any proxies
   with different streams, and every way in which the writer cuts what it is
   offered: whenever the lock is free, the output is exactly the frames of the
   calls, and the frames of each stream, followed by what its proxy still holds,
   are the bytes written to it. A client reads just these frames if and only if
   no payload overflows the 4-byte size.
   */
  lemma ClientReadsWhatWasWritten(streams: seq<StdType>, labels: seq<Label>)
    requires Distinct(streams)
    requires FineRun(Initial(streams), labels).Some?
    requires FineRun(Initial(streams), labels).value.holder.Free?
    ensures var end, log := FineRun(Initial(streams), labels).value.shared, Log(Initial(streams).shared, Calls(labels));
            && |end.proxies| == |streams|
            && end.sink == EncodeAll(log)
            && (Parse(end.sink) == (log, []) <==> AllShort(log))
            && forall i :: 0 <= i < |streams| ==>
                 Demux(log, streams[i]) + end.proxies[i].buf == Written(Calls(labels), i)
  {
    LockMakesCallsAtomic(Initial(streams), labels);
    CoarseRunIsRead(Initial(streams).shared, Calls(labels));
  }

  lemma CoarseRunIsRead(s: Shared, ops: seq<Op>)
    requires DistinctStreams(s.proxies) && Run(s, ops).Some?
    requires s.sink == [] && forall i :: 0 <= i < |s.proxies| ==> s.proxies[i].buf == []
    ensures var end, log := Run(s, ops).value, Log(s, ops);
            && |end.proxies| == |s.proxies|
            && end.sink == EncodeAll(log)
            && (Parse(end.sink) == (log, []) <==> AllShort(log))
            && forall i :: 0 <= i < |s.proxies| ==>
                 Demux(log, s.proxies[i].stream) + end.proxies[i].buf == Written(ops, i)
  {
    RunKeepsStreams(s, ops);
    FreshRunPrintsLog(s, ops);
    RoundTrip(Log(s, ops));
    forall i | 0 <= i < |s.proxies|
      ensures Demux(Log(s, ops), s.proxies[i].stream) + Run(s, ops).value.proxies[i].buf == Written(ops, i)
    {
      RunConserves(s, ops, i);
      assert [] + Written(ops, i) == Written(ops, i);
    }
  }

  lemma CompletedPrintsMore(s: State)
    requires WellFormed(s)
    ensures s.shared.sink <= Completed(s).sink
  {
  }

  /**
   At any other moment, in the middle of a frame or even of a header, a client has
   read only whole frames of the calls so far, in order.
   */
  lemma ClientNeverReadsTornFrame(streams: seq<StdType>, labels: seq<Label>)
    requires Distinct(streams)
    requires FineRun(Initial(streams), labels).Some?
    requires AllShort(Log(Initial(streams).shared, Calls(labels)))
    ensures Parse(FineRun(Initial(streams), labels).value.shared.sink).0 <= Log(Initial(streams).shared, Calls(labels))
  {
    var s, ops := Initial(streams).shared, Calls(labels);
    var end := FineRun(Initial(streams), labels).value;
    LockMakesCallsAtomic(Initial(streams), labels);
    CompletedPrintsMore(end);
    CutRunIsRead(s, ops, end.shared.sink);
  }

  lemma CutRunIsRead(s: Shared, ops: seq<Op>, cut: seq<Byte>)
    requires Run(s, ops).Some? && s.sink == [] && AllShort(Log(s, ops))
    requires cut <= Run(s, ops).value.sink
    ensures Parse(cut).0 <= Log(s, ops)
  {
    FreshRunPrintsLog(s, ops);
    CutStreamReadsSentFrames(Log(s, ops), cut);
  }

  // ---- the end of an exec ----

  /** The states of proxy `i` before, between and after the calls of a run. */
  function ProxyStates(s: Shared, ops: seq<Op>, i: nat): (states: seq<Proxy>)
    requires i < |s.proxies| && Run(s, ops).Some?
    ensures |states| == |ops| + 1
    decreases |ops|
  {
    [s.proxies[i]] + if ops == [] then [] else ProxyStates(Apply(s, ops[0]).value, ops[1..], i)
  }

  /** The calls, and the states of proxy `i` between them: calls of the others leave it alone. */
  ghost predicate Trace(i: nat, ops: seq<Op>, states: seq<Proxy>) {
    |states| == |ops| + 1 && forall k :: 0 <= k < |ops| ==> TraceStep(i, states[k], ops[k], states[k + 1])
  }

  predicate TraceStep(i: nat, p: Proxy, op: Op, q: Proxy) {
    if op.i == i then (op.Timer? ==> p.timers > 0) && q == After(p, op) else q == p
  }

  lemma {:induction false} RunIsTrace(s: Shared, ops: seq<Op>, i: nat)
    requires i < |s.proxies| && Run(s, ops).Some?
    ensures i < |Run(s, ops).value.proxies|
    ensures Trace(i, ops, ProxyStates(s, ops, i))
    ensures ProxyStates(s, ops, i)[0] == s.proxies[i]
    ensures ProxyStates(s, ops, i)[|ops|] == Run(s, ops).value.proxies[i]
    decreases |ops|
  {
    if ops != [] {
      var next, states := Apply(s, ops[0]).value, ProxyStates(s, ops, i);
      RunIsTrace(next, ops[1..], i);
      var later := ProxyStates(next, ops[1..], i);
      assert states == [s.proxies[i]] + later;
      forall k | 0 <= k < |ops| ensures TraceStep(i, states[k], ops[k], states[k + 1]) {
        if k > 0 {
          assert TraceStep(i, later[k - 1], ops[1..][k - 1], later[k]);
        }
      }
    }
  }

  /** Proxy `i` was flushed, and nothing was written to it since. */
  ghost predicate FlushedLast(i: nat, ops: seq<Op>) {
    exists k :: 0 <= k < |ops| && FlushedAt(i, ops, k)
  }

  ghost predicate FlushedAt(i: nat, ops: seq<Op>, k: nat)
    requires k < |ops|
  {
    ops[k] == Flush(i) && forall j :: k < j < |ops| && ops[j].i == i ==> !ops[j].Write?
  }

  lemma {:induction false} StaysEmpty(i: nat, ops: seq<Op>, states: seq<Proxy>, k: nat, n: nat)
    requires Trace(i, ops, states) && k < n <= |ops| && FlushedAt(i, ops, k)
    ensures states[n].buf == []
    decreases n
  {
    assert TraceStep(i, states[n - 1], ops[n - 1], states[n]);
    if n > k + 1 {
      StaysEmpty(i, ops, states, k, n - 1);
    }
  }

  /**
   At the end of an exec, when proxy `i` was flushed: a client has read from its
   stream exactly the bytes that were written to it, whatever the interleaving.
   */
  lemma FlushedStreamIsRead(streams: seq<StdType>, labels: seq<Label>, i: nat)
    requires Distinct(streams) && i < |streams|
    requires FineRun(Initial(streams), labels).Some?
    requires FineRun(Initial(streams), labels).value.holder.Free?
    requires FlushedLast(i, Calls(labels)) && AllShort(Log(Initial(streams).shared, Calls(labels)))
    ensures var end := FineRun(Initial(streams), labels).value.shared;
            Parse(end.sink).1 == [] && Demux(Parse(end.sink).0, streams[i]) == Written(Calls(labels), i)
  {
    var s, ops := Initial(streams).shared, Calls(labels);
    LockMakesCallsAtomic(Initial(streams), labels);
    ClientReadsWhatWasWritten(streams, labels);
    RunIsTrace(s, ops, i);
    var k :| 0 <= k < |ops| && FlushedAt(i, ops, k);
    StaysEmpty(i, ops, ProxyStates(s, ops, i), k, |ops|);
  }

  // ---- when the delayed flush is lost ----

  /** The flag is set and nothing sleeps: no Write brings a delayed flush about any more. */
  predicate Dead(p: Proxy) {
    p.flusher && p.timers == 0
  }

  /** Bytes wait, and no delayed flush will come for them. */
  predicate Stranded(p: Proxy) {
    Dead(p) && p.buf != []
  }

  /** The last sleeping flush wakes up to an empty buffer, and leaves the flag set. */
  predicate Dies(i: nat, p: Proxy, op: Op) {
    op == Timer(i) && p.buf == [] && p.flusher && p.timers == 1
  }

  lemma DeadStep(i: nat, p: Proxy, op: Op, q: Proxy)
    requires TraceStep(i, p, op, q)
    ensures Dead(q) <==> Dies(i, p, op) || (Dead(p) && (op == Flush(i) ==> p.buf == []))
  {
  }

  ghost predicate DiesAt(i: nat, ops: seq<Op>, states: seq<Proxy>, k: nat)
    requires Trace(i, ops, states) && k < |ops|
  {
    Dies(i, states[k], ops[k]) && forall j :: k < j < |ops| && ops[j] == Flush(i) ==> states[j].buf == []
  }

  ghost predicate Died(i: nat, ops: seq<Op>, states: seq<Proxy>)
    requires Trace(i, ops, states)
  {
    exists k :: 0 <= k < |ops| && DiesAt(i, ops, states, k)
  }

  lemma {:induction false} TraceLosesFlushExactly(i: nat, ops: seq<Op>, states: seq<Proxy>)
    requires Trace(i, ops, states) && !Dead(states[0])
    ensures Dead(states[|ops|]) <==> Died(i, ops, states)
    decreases |ops|
  {
    if ops != [] {
      var n := |ops| - 1;
      var front, before := ops[..n], states[..n + 1];
      assert Trace(i, front, before);
      TraceLosesFlushExactly(i, front, before);
      DeadStep(i, states[n], ops[n], states[n + 1]);
      if Dies(i, states[n], ops[n]) {
        assert DiesAt(i, ops, states, n);
      } else {
        DiesEarlier(i, ops, states);
      }
    }
  }

  lemma DiesEarlier(i: nat, ops: seq<Op>, states: seq<Proxy>)
    requires ops != [] && Trace(i, ops, states) && !Dies(i, states[|ops| - 1], ops[|ops| - 1])
    requires Trace(i, ops[..|ops| - 1], states[..|ops|])
    ensures Died(i, ops, states)
       <==> Died(i, ops[..|ops| - 1], states[..|ops|]) && (ops[|ops| - 1] == Flush(i) ==> states[|ops| - 1].buf == [])
  {
    var n := |ops| - 1;
    var front, before := ops[..n], states[..n + 1];
    if k :| 0 <= k < |ops| && DiesAt(i, ops, states, k) {
      assert DiesAt(i, front, before, k);
    }
    if Died(i, front, before) && (ops[n] == Flush(i) ==> states[n].buf == []) {
      var k :| 0 <= k < n && DiesAt(i, front, before, k);
      assert DiesAt(i, ops, states, k);
    }
  }

  /**
   Exactly which runs lose the delayed flush of proxy `i`, for every interleaving with
   the others: those in which its last sleeping flush woke up to an empty buffer, and
   no explicit flush of it has found anything since. What it still holds is then
   stranded until an explicit flush or the end of the line.
   */
  lemma FlushLostExactly(streams: seq<StdType>, labels: seq<Label>, i: nat)
    requires Distinct(streams) && i < |streams|
    requires FineRun(Initial(streams), labels).Some?
    requires FineRun(Initial(streams), labels).value.holder.Free?
    ensures var s, ops := Initial(streams).shared, Calls(labels);
            var end := FineRun(Initial(streams), labels).value.shared;
            && Run(s, ops) == Some(end) && i < |end.proxies|
            && Trace(i, ops, ProxyStates(s, ops, i))
            && (Stranded(end.proxies[i]) <==> end.proxies[i].buf != [] && Died(i, ops, ProxyStates(s, ops, i)))
            && (Dead(end.proxies[i]) <==> Died(i, ops, ProxyStates(s, ops, i)))
  {
    var s, ops := Initial(streams).shared, Calls(labels);
    LockMakesCallsAtomic(Initial(streams), labels);
    RunIsTrace(s, ops, i);
    TraceLosesFlushExactly(i, ops, ProxyStates(s, ops, i));
  }

  // ---- a writer that fails ----

  /**
   The outputs between the calls of a run, the writer failing at will: each call
   prints as IoProxy.Write and IoProxy.Flush do, and goes on whatever happened.
   */
  ghost predicate PrintedAlong(s: Shared, ops: seq<Op>, outs: seq<Output>)
    decreases |ops|
  {
    && |outs| == |ops| + 1
    && (ops != [] ==>
          && Enabled(s.proxies, ops[0])
          && Printed(outs[0], outs[1], EncodeAll(Emitted(s.proxies[ops[0].i], ops[0])))
          && PrintedAlong(Apply(s, ops[0]).value, ops[1..], outs[1..]))
  }

  lemma {:induction false} PrintedAdds(s: Shared, ops: seq<Op>, outs: seq<Output>)
    requires PrintedAlong(s, ops, outs) && (!outs[0].failed ==> outs[0].clean == outs[0].sink)
    ensures Printed(outs[0], outs[|ops|], EncodeAll(Log(s, ops)))
    decreases |ops|
  {
    if ops == [] {
      PrintedNothing(outs[0]);
    } else {
      var now, next := Emitted(s.proxies[ops[0].i], ops[0]), Apply(s, ops[0]).value;
      PrintedAdds(next, ops[1..], outs[1..]);
      EncodeAllConcat(now, Log(next, ops[1..]));
      PrintedTwice(outs[0], outs[1], outs[|ops|], EncodeAll(now), EncodeAll(Log(next, ops[1..])));
    }
  }

  lemma PrintedNothing(o: Output)
    requires !o.failed ==> o.clean == o.sink
    ensures Printed(o, o, [])
  {
    assert o.sink + [] == o.sink;
  }

  /**
   Over every run of calls, whatever the writer's errors: what had arrived when the
   first error came is a prefix of the whole frames of the run - and all of them
   without an error - so that a client reads only frames of the calls, in order.
   */
  lemma {:induction false} ErrorsCutTheStream(s: Shared, ops: seq<Op>, outs: seq<Output>)
    requires PrintedAlong(s, ops, outs) && outs[0] == Output([], false, [])
    ensures outs[|ops|].clean <= EncodeAll(Log(s, ops))
    ensures !outs[|ops|].failed ==> outs[|ops|].sink == EncodeAll(Log(s, ops))
    ensures AllShort(Log(s, ops)) ==> Parse(outs[|ops|].clean).0 <= Log(s, ops)
  {
    PrintedAdds(s, ops, outs);
    NothingBefore(outs[0].sink, EncodeAll(Log(s, ops)));
    if AllShort(Log(s, ops)) {
      CutStreamReadsSentFrames(Log(s, ops), outs[|ops|].clean);
    }
  }

  // ---- errors inside a call ----

  /** The fine machine with a writer that fails at will; `clean` is what had arrived at the first error. */
  datatype Faulty = Faulty(s: State, failed: bool, clean: seq<Byte>)

  /** A step as before, or the writer accepts `n` bytes and reports an error. */
  datatype FaultyLabel = Fine(l: Label) | Fail(n: nat)

  function Note(f: Faulty, next: State, failed: bool): Faulty {
    Faulty(next, f.failed || failed, if f.failed then f.clean else next.shared.sink)
  }

  /** An error gives up the frame - after the header also its payload - and the call goes on as if it had left. */
  function GiveUp(s: State, n: nat): Option<State> {
    match s.holder
    case Sending(i, header, body, size, flushing) =>
      var chunk := if header != [] then header else body;
      if chunk != [] && n <= |chunk| then
        Some(State(s.shared.(sink := s.shared.sink + chunk[..n]), Sending(i, [], [], size, flushing)))
      else None
    case _ => None
  }

  function FaultyStep(f: Faulty, l: FaultyLabel): Option<Faulty>
    requires WellFormed(f.s)
  {
    match (if l.Fail? then GiveUp(f.s, l.n) else Step(f.s, l.l))
    case None => None
    case Some(next) => Some(Note(f, next, l.Fail?))
  }

  lemma FaultyKeepsWellFormed(f: Faulty, l: FaultyLabel)
    requires WellFormed(f.s)
    ensures FaultyStep(f, l).Some? ==> WellFormed(FaultyStep(f, l).value.s)
  {
    if l.Fine? {
      StepKeepsWellFormed(f.s, l.l);
    }
  }

  ghost function FaultyRun(f: Faulty, labels: seq<FaultyLabel>): Option<Faulty>
    requires WellFormed(f.s)
    decreases |labels|
  {
    if labels == [] then Some(f)
    else
      FaultyKeepsWellFormed(f, labels[0]);
      match FaultyStep(f, labels[0])
      case None => None
      case Some(next) => FaultyRun(next, labels[1..])
  }

  function FaultyCalls(labels: seq<FaultyLabel>): seq<Op> {
    if labels == [] then []
    else (if labels[0].Fine? && labels[0].l.Acquire? then [labels[0].l.op] else []) + FaultyCalls(labels[1..])
  }

  /** The machine whose writer never fails, at the same point: same proxies, and all that arrived before an error. */
  ghost predicate Follows(f: Faulty, ideal: Shared) {
    && WellFormed(f.s)
    && ideal.proxies == Completed(f.s).proxies
    && f.clean <= ideal.sink
    && (!f.failed ==> f.clean == f.s.shared.sink && ideal.sink == Completed(f.s).sink)
  }

  lemma SameProxies(a: Shared, b: Shared, op: Op)
    requires a.proxies == b.proxies && Enabled(a.proxies, op)
    ensures Apply(a, op).Some? && Apply(b, op).Some? && Apply(a, op).value.proxies == Apply(b, op).value.proxies
    ensures a.sink <= Apply(a, op).value.sink
  {
  }

  /** Each step follows the machine without errors, which moves when the lock is taken and at no other time. */
  lemma FollowsStep(f: Faulty, l: FaultyLabel, ideal: Shared) returns (next: Shared)
    requires Follows(f, ideal) && FaultyStep(f, l).Some?
    ensures if l.Fine? && l.l.Acquire? then Apply(ideal, l.l.op) == Some(next) else next == ideal
    ensures Follows(FaultyStep(f, l).value, next)
  {
    var g := FaultyStep(f, l).value;
    FaultyKeepsWellFormed(f, l);
    CompletedPrintsMore(g.s);
    if l.Fail? {
      next := ideal;
      FailIsInvisible(f.s, l.n);
    } else if l.l.Acquire? {
      AcquireIsCall(f.s, l.l.op);
      SameProxies(ideal, f.s.shared, l.l.op);
      next := Apply(ideal, l.l.op).value;
    } else {
      InsideIsInvisible(f.s, l.l);
      next := ideal;
    }
  }

  /** The proxies go on as without the error, and what arrived is what would have arrived by then. */
  lemma FailIsInvisible(s: State, n: nat)
    requires WellFormed(s) && GiveUp(s, n).Some?
    ensures WellFormed(GiveUp(s, n).value)
    ensures Completed(GiveUp(s, n).value).proxies == Completed(s).proxies
    ensures GiveUp(s, n).value.shared.sink <= Completed(s).sink
  {
    var header, body := s.holder.header, s.holder.body;
    var sent := s.shared.sink + header + body;
    assert sent <= Completed(s).sink;
    if header != [] {
      assert s.shared.sink + header[..n] <= s.shared.sink + header <= sent;
    } else {
      assert s.shared.sink + header == s.shared.sink;
      assert s.shared.sink + body[..n] <= sent;
    }
  }

  lemma {:induction false} FaultyRunFollows(f: Faulty, labels: seq<FaultyLabel>, ideal: Shared)
    requires Follows(f, ideal) && FaultyRun(f, labels).Some?
    ensures Run(ideal, FaultyCalls(labels)).Some?
    ensures Follows(FaultyRun(f, labels).value, Run(ideal, FaultyCalls(labels)).value)
    decreases |labels|
  {
    if labels != [] {
      var l, rest := labels[0], FaultyCalls(labels[1..]);
      var next := FollowsStep(f, l, ideal);
      FaultyRunFollows(FaultyStep(f, l).value, labels[1..], next);
      if l.Fine? && l.l.Acquire? {
        assert ([l.l.op] + rest)[1..] == rest;
      } else {
        assert [] + rest == rest;
      }
    }
  }

  /**
   For every interleaving and whatever errors the writer reports, in the middle of a
   header or a payload: what had arrived at the first error is a prefix of the whole
   frames of the calls, so that a client reads only these, in order. And the errors
   change no proxy: each call still takes its lines out of the buffer.
   */
  lemma ErrorsTearNothing(streams: seq<StdType>, labels: seq<FaultyLabel>)
    requires Distinct(streams)
    requires FaultyRun(Faulty(Initial(streams), false, []), labels).Some?
    ensures var end := FaultyRun(Faulty(Initial(streams), false, []), labels).value;
            var s, ops := Initial(streams).shared, FaultyCalls(labels);
            && end.clean <= EncodeAll(Log(s, ops))
            && (AllShort(Log(s, ops)) ==> Parse(end.clean).0 <= Log(s, ops))
            && (end.s.holder.Free? ==> Run(s, ops).Some? && end.s.shared.proxies == Run(s, ops).value.proxies)
            && (end.s.holder.Free? && !end.failed ==> end.s.shared.sink == EncodeAll(Log(s, ops)))
  {
    var s, ops := Initial(streams).shared, FaultyCalls(labels);
    var end := FaultyRun(Faulty(Initial(streams), false, []), labels).value;
    FaultyRunFollows(Faulty(Initial(streams), false, []), labels, s);
    FreshRunPrintsLog(s, ops);
    if AllShort(Log(s, ops)) {
      CutStreamReadsSentFrames(Log(s, ops), end.clean);
    }
  }
}
