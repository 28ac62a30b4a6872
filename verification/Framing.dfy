/**
 The multiplexed stream format of the Docker Engine API v1.41 (operation
 ContainerAttach, "Stream format"): a sequence of frames, each an 8-byte header
 `{STREAM_TYPE, 0, 0, 0, SIZE1, SIZE2, SIZE3, SIZE4}` followed by its payload.

 `Encode` is the printer the proxy implements; `Parse` is the reader a client
 runs. The theorems say when the reader gets back exactly what was printed.
 */
module Framing {
  import opened Common

  const HEADER_SIZE := 8
  const SIZE_LIMIT := 0x1_0000_0000

  datatype StdType = Stdin | Stdout | Stderr

  datatype Frame = Frame(stream: StdType, payload: seq<Byte>)

  function Code(t: StdType): Byte {
    match t
    case Stdin => 0
    case Stdout => 1
    case Stderr => 2
  }

  function FromCode(b: Byte): StdType
    requires b <= 2
  {
    if b == 0 then Stdin else if b == 1 then Stdout else Stderr
  }

  /** The low `k` bytes of `n`, most significant first; what lies above them is dropped. */
  function BigEndian(n: nat, k: nat): (bytes: seq<Byte>)
    ensures |bytes| == k
  {
    if k == 0 then [] else BigEndian(n / 256, k - 1) + [n % 256]
  }

  function FromBigEndian(b: seq<Byte>): nat {
    if b == [] then 0 else 256 * FromBigEndian(b[..|b| - 1]) + b[|b| - 1]
  }

  function Header(t: StdType, size: nat): (header: seq<Byte>)
    ensures |header| == HEADER_SIZE
  {
    [Code(t), 0, 0, 0] + BigEndian(size, 4)
  }

  function Encode(f: Frame): (bytes: seq<Byte>)
    ensures |bytes| == HEADER_SIZE + |f.payload|
  {
    Header(f.stream, |f.payload|) + f.payload
  }

  function EncodeAll(fs: seq<Frame>): seq<Byte> {
    if fs == [] then [] else Encode(fs[0]) + EncodeAll(fs[1..])
  }

  /** The size announced by the header at the front of `b`. */
  function SizeOf(b: seq<Byte>): nat
    requires |b| >= HEADER_SIZE
  {
    FromBigEndian(b[4..HEADER_SIZE])
  }

  /** A whole, well-formed frame stands at the front of `b`. */
  predicate FrameReady(b: seq<Byte>) {
    && |b| >= HEADER_SIZE
    && b[0] <= 2
    && b[1] == b[2] == b[3] == 0
    && |b| >= HEADER_SIZE + SizeOf(b)
  }

  /** The frame at the front of `b`, and where it ends. */
  function FrontEnd(b: seq<Byte>): (end: nat)
    requires FrameReady(b)
    ensures HEADER_SIZE <= end <= |b|
  {
    HEADER_SIZE + SizeOf(b)
  }

  function FrontFrame(b: seq<Byte>): Frame
    requires FrameReady(b)
  {
    Frame(FromCode(b[0]), b[HEADER_SIZE..FrontEnd(b)])
  }

  /** A client's reader: the whole frames at the front of `b`, and the bytes it still holds. */
  function Parse(b: seq<Byte>): (r: (seq<Frame>, seq<Byte>))
    decreases |b|
  {
    if !FrameReady(b) then ([], b)
    else
      var tail := Parse(b[FrontEnd(b)..]);
      ([FrontFrame(b)] + tail.0, tail.1)
  }

  predicate Short(f: Frame) {
    |f.payload| < SIZE_LIMIT
  }

  ghost predicate AllShort(fs: seq<Frame>) {
    forall i :: 0 <= i < |fs| ==> Short(fs[i])
  }

  /** The bytes sent on stream `t`, in order. */
  function Demux(fs: seq<Frame>, t: StdType): seq<Byte> {
    if fs == [] then []
    else (if fs[0].stream == t then fs[0].payload else []) + Demux(fs[1..], t)
  }

  lemma BigEndianStep(n: nat, k: nat)
    requires k > 0
    ensures FromBigEndian(BigEndian(n, k)) == 256 * FromBigEndian(BigEndian(n / 256, k - 1)) + n % 256
  {
    assert BigEndian(n, k)[..k - 1] == BigEndian(n / 256, k - 1);
  }

  lemma SizeRoundTrip(n: nat)
    ensures FromBigEndian(BigEndian(n, 4)) == n % SIZE_LIMIT
  {
    var a, b, c := n / 256, n / 256 / 256, n / 256 / 256 / 256;
    BigEndianStep(n, 4);
    BigEndianStep(a, 3);
    BigEndianStep(b, 2);
    BigEndianStep(c, 1);
    assert BigEndian(c / 256, 0) == [];
    FourDigits(n, a, b, c);
  }

  /** The header as the API fixes it: the stream, three zeros, and the size from its most significant byte on. */
  lemma HeaderBytes(t: StdType, n: nat)
    ensures Header(t, n) ==
            [if t == Stdin then 0 else if t == Stdout then 1 else 2, 0, 0, 0,
             n / 256 / 256 / 256 % 256, n / 256 / 256 % 256, n / 256 % 256, n % 256]
  {
    var a, b, c := n / 256, n / 256 / 256, n / 256 / 256 / 256;
    assert BigEndian(c / 256, 0) == [];
    assert BigEndian(c, 1) == [] + [c % 256] == [c % 256];
    assert BigEndian(b, 2) == [c % 256] + [b % 256];
    assert BigEndian(a, 3) == [c % 256, b % 256] + [a % 256];
    assert BigEndian(n, 4) == [c % 256, b % 256, a % 256] + [n % 256];
  }

  lemma FourDigits(n: nat, a: nat, b: nat, c: nat)
    requires a == n / 256 && b == a / 256 && c == b / 256
    ensures 256 * (256 * (256 * (c % 256) + b % 256) + a % 256) + n % 256 == n % SIZE_LIMIT
  {
    var low := 256 * (256 * (256 * (c % 256) + b % 256) + a % 256) + n % 256;
    assert n == SIZE_LIMIT * (c / 256) + low && 0 <= low < SIZE_LIMIT;
  }

  lemma {:induction false} SizeBack(b: seq<Byte>)
    ensures BigEndian(FromBigEndian(b), |b|) == b
  {
    if b != [] {
      var high, low := FromBigEndian(b[..|b| - 1]), b[|b| - 1];
      SizeBack(b[..|b| - 1]);
      DigitSplits(high, low);
      assert BigEndian(256 * high + low, |b|) == BigEndian(high, |b| - 1) + [low];
    }
  }

  lemma DigitSplits(high: nat, low: Byte)
    ensures (256 * high + low) / 256 == high && (256 * high + low) % 256 == low
  {
  }

  lemma {:induction false} EncodeAllConcat(a: seq<Frame>, b: seq<Frame>)
    ensures EncodeAll(a + b) == EncodeAll(a) + EncodeAll(b)
  {
    if a == [] {
      assert a + b == b;
    } else {
      assert (a + b)[1..] == a[1..] + b;
      EncodeAllConcat(a[1..], b);
    }
  }

  lemma {:induction false} DemuxConcat(a: seq<Frame>, b: seq<Frame>, t: StdType)
    ensures Demux(a + b, t) == Demux(a, t) + Demux(b, t)
  {
    if a == [] {
      assert a + b == b;
    } else {
      assert (a + b)[1..] == a[1..] + b;
      DemuxConcat(a[1..], b, t);
    }
  }

  /** What the reader sees at the front of a printed frame. */
  lemma EncodedFront(f: Frame, rest: seq<Byte>)
    ensures SizeOf(Encode(f) + rest) == |f.payload| % SIZE_LIMIT
    ensures FrameReady(Encode(f) + rest)
    ensures (Encode(f) + rest)[0] == Code(f.stream)
    ensures (Encode(f) + rest)[HEADER_SIZE..] == f.payload + rest
  {
    var b := Encode(f) + rest;
    assert b[4..HEADER_SIZE] == BigEndian(|f.payload|, 4);
    SizeRoundTrip(|f.payload|);
  }

  /** One step of the reader, on bytes cut where the header says. */
  lemma ParseStep(b: seq<Byte>, f: Frame, rest: seq<Byte>)
    requires FrameReady(b) && SizeOf(b) == |f.payload| && b[0] == Code(f.stream)
    requires b[HEADER_SIZE..] == f.payload + rest
    ensures Parse(b) == ([f] + Parse(rest).0, Parse(rest).1)
  {
    var end := HEADER_SIZE + |f.payload|;
    assert b[end..] == b[HEADER_SIZE..][|f.payload|..] == rest;
    assert b[HEADER_SIZE..end] == b[HEADER_SIZE..][..|f.payload|] == f.payload;
  }

  lemma ParseShortFrame(f: Frame, rest: seq<Byte>)
    requires Short(f)
    ensures Parse(Encode(f) + rest) == ([f] + Parse(rest).0, Parse(rest).1)
  {
    EncodedFront(f, rest);
    ParseStep(Encode(f) + rest, f, rest);
  }

  /** A payload of 2^32 bytes or more is read back cut short: its size was truncated. */
  lemma ParseLongFrame(f: Frame, rest: seq<Byte>)
    requires !Short(f)
    ensures Parse(Encode(f) + rest).0 != []
    ensures Parse(Encode(f) + rest).0[0] != f
  {
    EncodedFront(f, rest);
    assert |Parse(Encode(f) + rest).0[0].payload| < SIZE_LIMIT;
  }

  /** Printing then reading gives back the frames exactly when every payload is below 2^32 bytes. */
  lemma {:induction false} RoundTrip(fs: seq<Frame>)
    ensures Parse(EncodeAll(fs)) == (fs, []) <==> AllShort(fs)
  {
    if fs != [] {
      var rest := EncodeAll(fs[1..]);
      RoundTrip(fs[1..]);
      assert fs == [fs[0]] + fs[1..];
      if Short(fs[0]) {
        ParseShortFrame(fs[0], rest);
        assert AllShort(fs) <==> AllShort(fs[1..]) by {
          assert forall i :: 0 < i < |fs| ==> fs[i] == fs[1..][i - 1];
        }
        assert Parse(EncodeAll(fs)) == (fs, []) <==> Parse(rest) == (fs[1..], []) by {
          assert ([fs[0]] + Parse(rest).0)[1..] == Parse(rest).0;
        }
      } else {
        ParseLongFrame(fs[0], rest);
      }
    }
  }

  lemma FrontFramePrints(b: seq<Byte>)
    requires FrameReady(b)
    ensures Encode(FrontFrame(b)) == b[..FrontEnd(b)] && Short(FrontFrame(b))
  {
    SizeBack(b[4..HEADER_SIZE]);
    SizeRoundTrip(SizeOf(b));
    assert Header(FromCode(b[0]), SizeOf(b)) == b[..HEADER_SIZE];
  }

  lemma FrontFrameFirst(b: seq<Byte>, fs: seq<Frame>, left: seq<Byte>)
    requires FrameReady(b) && EncodeAll(fs) + left == b[FrontEnd(b)..]
    ensures EncodeAll([FrontFrame(b)] + fs) + left == b
  {
    FrontFramePrints(b);
    assert ([FrontFrame(b)] + fs)[1..] == fs;
    assert b[..FrontEnd(b)] + EncodeAll(fs) + left == b[..FrontEnd(b)] + b[FrontEnd(b)..] == b;
  }

  /** Reading is injective: what was read, printed again, is what was there. */
  lemma {:induction false} ParseInverse(b: seq<Byte>)
    ensures EncodeAll(Parse(b).0) + Parse(b).1 == b
    decreases |b|
  {
    if FrameReady(b) {
      ParseInverse(b[FrontEnd(b)..]);
      FrontFrameFirst(b, Parse(b[FrontEnd(b)..]).0, Parse(b[FrontEnd(b)..]).1);
    }
  }

  lemma {:induction false} ParsedAreShort(b: seq<Byte>)
    ensures AllShort(Parse(b).0)
    decreases |b|
  {
    if FrameReady(b) {
      ParsedAreShort(b[FrontEnd(b)..]);
      FrontFramePrints(b);
    }
  }

  /** More bytes never change the frames already read. */
  lemma {:induction false} ParsePrefix(b: seq<Byte>, more: seq<Byte>)
    ensures Parse(b).0 <= Parse(b + more).0
    decreases |b|
  {
    if FrameReady(b) {
      var end := FrontEnd(b);
      assert (b + more)[4..HEADER_SIZE] == b[4..HEADER_SIZE];
      assert (b + more)[end..] == b[end..] + more;
      assert FrontFrame(b + more) == FrontFrame(b);
      ParsePrefix(b[end..], more);
    }
  }

  /**
   A client that sees any prefix of a printed stream - because the connection is
   still busy or was cut - reads only frames that were sent, in order from the first.
   */
  lemma CutStreamReadsSentFrames(fs: seq<Frame>, cut: seq<Byte>)
    requires AllShort(fs)
    requires cut <= EncodeAll(fs)
    ensures Parse(cut).0 <= fs
  {
    RoundTrip(fs);
    ParsePrefix(cut, EncodeAll(fs)[|cut|..]);
    assert cut + EncodeAll(fs)[|cut|..] == EncodeAll(fs);
  }
}
