/**
 A reader that gives back sniffed bytes before the rest of a stream, and the
 detection of the compression of an archive from its first five bytes.
 */
module ConcatReader {
  import opened Common

  datatype ReadError = EOF | Failed

  /** A stream: a read delivers any number of the next bytes that fits, and may report an error with them. */
  class Stream {
    var rest: seq<Byte>
    /** How often it was read, and whether a read failed. */
    ghost var count: nat
    ghost var failed: bool

    constructor (contents: seq<Byte>)
      ensures rest == contents && count == 0 && !failed
    {
      rest := contents;
      count, failed := 0, false;
    }

    /** What lies in the buffer past the bytes read is up to the stream. */
    method Read(p: array<Byte>) returns (n: nat, err: Option<ReadError>)
      modifies this, p
      ensures n <= p.Length && n <= |old(rest)|
      ensures p[..n] == old(rest)[..n] && rest == old(rest)[n..]
      ensures err == Some(EOF) ==> rest == []
      ensures count == old(count) + 1 && failed == (old(failed) || err == Some(Failed))
    {
      n :| 0 <= n <= p.Length && n <= |rest|;
      Copy(p, rest, n);
      rest := rest[n..];
      var fails: bool := *;
      err := if fails then Some(Failed) else if rest == [] then Some(EOF) else None;
      count, failed := count + 1, failed || fails;
    }
  }

  class ConcatReader {
    const data: seq<Byte>
    const reader: Stream
    var offset: nat
    /** What the stream held when the reader was made. */
    ghost const behind: seq<Byte>

    /** The prefix and then the stream. */
    ghost function Contents(): seq<Byte> {
      data + behind
    }

    ghost predicate Valid()
      reads this, reader
    {
      && offset <= |Contents()|
      && reader.rest == if offset <= |data| then behind else behind[offset - |data|..]
    }

    constructor (data: seq<Byte>, reader: Stream)
      ensures this.data == data && this.reader == reader && offset == 0
      ensures behind == reader.rest && Valid()
    {
      this.data, this.reader, offset := data, reader, 0;
      behind := reader.rest;
    }

    /**
     Delivers the next bytes of the contents, whatever the stream does. A read
     never spans the seam, and while the prefix lasts the buffer is filled as far
     as the prefix goes, without an error and without reading the stream. After that
     each read is one of the stream, and its failures are passed on.
     */
    method Read(p: array<Byte>) returns (n: nat, err: Option<ReadError>)
      requires Valid()
      modifies this`offset, reader, p
      ensures Valid() && n <= p.Length && offset == old(offset) + n
      ensures p[..n] == Contents()[old(offset)..offset]
      ensures old(offset) < |data| ==>
          err.None? && n == if p.Length < |data| - old(offset) then p.Length else |data| - old(offset)
      ensures err == Some(EOF) ==> offset == |Contents()|
      ensures reader.count == old(reader.count) + if old(offset) < |data| then 0 else 1
      ensures reader.failed == (old(reader.failed) || err == Some(Failed))
    {
      if offset >= |data| {
        n, err := ReadStream(p);
        return;
      }
      n := if p.Length < |data| - offset then p.Length else |data| - offset;
      Copy(p, data[offset..], n);
      PrefixSlice(data, behind, offset, n);
      offset := offset + n;
      return n, None;
    }

    /** Past the prefix. */
    method ReadStream(p: array<Byte>) returns (n: nat, err: Option<ReadError>)
      requires Valid() && offset >= |data|
      modifies this`offset, reader, p
      ensures Valid() && n <= p.Length && offset == old(offset) + n
      ensures p[..n] == Contents()[old(offset)..offset]
      ensures err == Some(EOF) ==> offset == |Contents()|
      ensures reader.count == old(reader.count) + 1 && reader.failed == (old(reader.failed) || err == Some(Failed))
    {
      ghost var rest := behind[offset - |data|..];
      assert reader.rest == rest;
      n, err := reader.Read(p);
      StreamSlice(data, behind, offset, n);
      offset := offset + n;
    }

    function ReadBytes(): nat
      reads this
    {
      offset
    }

    /**
     Any sequence of reads with buffers of any sizes: what was delivered in all is
     what lies between the first offset and ReadBytes().
     */
    method ReadMany(sizes: seq<nat>) returns (delivered: seq<Byte>)
      requires Valid()
      modifies this`offset, reader
      ensures Valid() && old(offset) <= ReadBytes()
      ensures delivered == Contents()[old(offset)..ReadBytes()]
    {
      delivered := [];
      for i := 0 to |sizes|
        invariant Valid() && old(offset) <= offset && delivered == Contents()[old(offset)..offset]
      {
        var p := new Byte[sizes[i]];
        var from := offset;
        var n, err := Read(p);
        Joined(Contents(), old(offset), from, offset);
        delivered := delivered + p[..n];
      }
    }
  }

  method Copy(p: array<Byte>, from: seq<Byte>, n: nat)
    requires n <= p.Length && n <= |from|
    modifies p
    ensures p[..n] == from[..n]
  {
    for i := 0 to n
      invariant p[..i] == from[..i]
    {
      p[i] := from[i];
    }
  }

  lemma Joined(s: seq<Byte>, i: nat, j: nat, k: nat)
    requires i <= j <= k <= |s|
    ensures s[i..j] + s[j..k] == s[i..k]
  {
  }

  lemma StreamSlice(data: seq<Byte>, behind: seq<Byte>, o: nat, n: nat)
    requires |data| <= o && o + n <= |data| + |behind|
    ensures behind[o - |data|..][..n] == (data + behind)[o..o + n]
    ensures behind[o - |data|..][n..] == behind[o + n - |data|..]
  {
    assert (data + behind)[|data|..] == behind;
  }

  lemma PrefixSlice(data: seq<Byte>, behind: seq<Byte>, o: nat, n: nat)
    requires o + n <= |data|
    ensures data[o..][..n] == (data + behind)[o..o + n]
  {
  }

  // ---- compression ----

  datatype Compression = Unknown | Gzip | Xz | Bzip2

  const GZIP: seq<Byte> := [0x1f, 0x8b]
  const XZ: seq<Byte> := [0xfd, 0x37, 0x7a, 0x58, 0x5a]
  const BZIP2: seq<Byte> := [0x42, 0x5a, 0x68]

  function DetectCompressionType(dat: seq<Byte>): Compression {
    if |dat| < 3 then Unknown
    else if GZIP <= dat then Gzip
    else if XZ <= dat then Xz
    else if BZIP2 <= dat then Bzip2
    else Unknown
  }

  /** The mark of a compression. */
  function Mark(c: Compression): seq<Byte> {
    match c
    case Unknown => []
    case Gzip => GZIP
    case Xz => XZ
    case Bzip2 => BZIP2
  }

  /**
   The order of the tests does not matter: of the three marks, at most one fits. Fewer than
   three bytes tell nothing.
   */
  lemma DetectedExactly(dat: seq<Byte>, c: Compression)
    requires c != Unknown
    ensures DetectCompressionType(dat) == c <==> |dat| >= 3 && Mark(c) <= dat
  {
    assert GZIP <= dat ==> dat[0] == 0x1f;
    assert XZ <= dat ==> dat[0] == 0xfd;
    assert BZIP2 <= dat ==> dat[0] == 0x42;
  }

  /** Five bytes are enough to tell. */
  lemma FiveBytesTell(contents: seq<Byte>)
    requires |contents| >= 5
    ensures DetectCompressionType(contents[..5]) == DetectCompressionType(contents)
  {
    var dat := contents[..5];
    assert forall c :: c != Unknown ==> (Mark(c) <= dat <==> Mark(c) <= contents) by {
      forall c | c != Unknown ensures Mark(c) <= dat <==> Mark(c) <= contents {
        MarkFits(contents, Mark(c));
      }
    }
    DetectedExactly(dat, Gzip);
    DetectedExactly(dat, Xz);
    DetectedExactly(dat, Bzip2);
    DetectedExactly(contents, Gzip);
    DetectedExactly(contents, Xz);
    DetectedExactly(contents, Bzip2);
  }

  lemma MarkFits(contents: seq<Byte>, mark: seq<Byte>)
    requires |mark| <= 5 <= |contents|
    ensures mark <= contents[..5] <==> mark <= contents
  {
    assert contents[..5][..|mark|] == contents[..|mark|];
  }

  /**
   Reads five bytes to tell the compression, and puts them before the stream. The
   buffer always counts as five bytes, so that the archive is replayed as it is
   exactly when the one read filled it; otherwise bytes that were never in the
   archive follow the ones that were read.
   */
  method NewReader(reader: Stream) returns (r: Option<ConcatReader>, c: Compression, ghost n: nat)
    modifies reader
    ensures n <= 5 && n <= |old(reader.rest)|
    ensures reader.count == old(reader.count) + 1
    ensures !old(reader.failed) ==> (r.None? <==> reader.failed)
    ensures r.Some? ==> fresh(r.value) && r.value.reader == reader && r.value.Valid() && r.value.offset == 0
    ensures r.Some? ==> |r.value.data| == 5 && r.value.Contents()[..n] == old(reader.rest)[..n]
    ensures r.Some? ==> r.value.Contents()[5..] == old(reader.rest)[n..]
    ensures r.Some? ==> (r.value.Contents() == old(reader.rest) <==> n == 5)
    ensures r.Some? ==> c == DetectCompressionType(r.value.data)
    ensures r.Some? && n == 5 ==> c == DetectCompressionType(old(reader.rest))
  {
    var first5Bytes := new Byte[5](_ => 0);
    var k, err := reader.Read(first5Bytes);
    n := k;
    c := Unknown;
    if err.Some? && err != Some(EOF) {
      assert err.value.Failed?;
      return None, c, n;
    }
    var data := first5Bytes[..];
    assert data[..n] == first5Bytes[..n];
    var concat := new ConcatReader(data, reader);
    c := DetectCompressionType(data);
    if n == 5 {
      FiveBytesTell(old(reader.rest));
      assert data == old(reader.rest)[..5];
    }
    assert |concat.Contents()| == 5 + |old(reader.rest)| - n;
    return Some(concat), c, n;
  }
}
