/** Reading and writing whole records over a connection: the header and the
    BEGIN_REQUEST body are read with one read each, STDIN and DATA content is read
    in chunks of 4096 bytes, padding is skipped with one read, and STDOUT and
    END_REQUEST records are written.

    Each operation is a method on the connection, specified by a function of the
    input and the cursor (reads) or of the sending side (writes). */
module Codec {
  import opened Wire
  import opened Net

  /** Size of the buffer the content readers allocate for every chunk. */
  const ChunkSize := 4096

  // ---------------------------------------------------------------------------
  // Header and BEGIN_REQUEST body

  datatype HeaderRead = HeaderRead(header: Header, next: nat, failed: bool)

  /** One header read: 8 bytes mapped in order onto the header fields; a failed
      read gives the zero header. */
  function ReadHeaderAt(input: seq<Byte>, pos: nat): (r: HeaderRead)
    requires pos <= |input|
    ensures pos <= r.next <= |input|
    ensures r.failed <==> pos == |input|
    ensures r.failed ==> r.header == ZeroHeader && r.next == pos
  {
    var rd := ReadAt(input, pos, HeaderSize);
    if rd.failed then HeaderRead(ZeroHeader, rd.next, true)
    else HeaderRead(DecodeHeader(rd.bytes), rd.next, false)
  }

  /** The header fields are the next 8 bytes of input in order; when fewer are
      left, the missing fields are zero. */
  lemma HeaderBytes(input: seq<Byte>, pos: nat)
    requires pos <= |input|
    ensures var r := ReadHeaderAt(input, pos);
      && r.next == Min(pos + HeaderSize, |input|)
      && (!r.failed ==> EncodeHeader(r.header) == input[pos..r.next] + Zeros(HeaderSize - (r.next - pos)))
  {
    ReadContent(input, pos, HeaderSize);
  }

  method ReadHeader(conn: Conn) returns (h: Header, err: bool)
    requires conn.Valid()
    modifies conn`pos
    ensures conn.Valid()
    ensures ReadHeaderAt(conn.input, old(conn.pos)) == HeaderRead(h, conn.pos, err)
  {
    var buf, e := conn.Read(HeaderSize);
    if e {
      return ZeroHeader, e;
    }
    h, err := DecodeHeader(buf), false;
  }

  datatype BodyRead = BodyRead(body: BeginRequestBody, next: nat, failed: bool)

  /** One BEGIN_REQUEST body read: role and flags from the first three bytes; a
      failed read gives the zero body together with the error. */
  function ReadBeginRequestBodyAt(input: seq<Byte>, pos: nat): (r: BodyRead)
    requires pos <= |input|
    ensures pos <= r.next <= |input|
    ensures r.failed <==> pos == |input|
    ensures r.failed ==> r.body == ZeroBeginRequestBody && r.next == pos
  {
    var rd := ReadAt(input, pos, BeginRequestBodySize);
    if rd.failed then BodyRead(ZeroBeginRequestBody, rd.next, true)
    else BodyRead(DecodeBeginRequestBody(rd.bytes), rd.next, false)
  }

  /** A whole body in the input gives the role from its first two bytes and the
      flags from the third. */
  lemma BeginRequestBodyBytes(input: seq<Byte>, pos: nat)
    requires pos + BeginRequestBodySize <= |input|
    ensures var r := ReadBeginRequestBodyAt(input, pos);
      && r.next == pos + BeginRequestBodySize && !r.failed
      && r.body.Role() == (input[pos] as int) * 256 + input[pos + 1]
      && r.body.flags == input[pos + 2]
  {
    ReadWithin(input, pos, BeginRequestBodySize);
  }

  method ReadBeginRequestBody(conn: Conn) returns (body: BeginRequestBody, err: bool)
    requires conn.Valid()
    modifies conn`pos
    ensures conn.Valid()
    ensures ReadBeginRequestBodyAt(conn.input, old(conn.pos)) == BodyRead(body, conn.pos, err)
  {
    var buf, e := conn.Read(BeginRequestBodySize);
    if e {
      return ZeroBeginRequestBody, e;
    }
    body, err := DecodeBeginRequestBody(buf), false;
  }

  // ---------------------------------------------------------------------------
  // STDIN and DATA content

  datatype Content = Content(data: seq<Byte>, next: nat, failed: bool)

  /** How many times the chunk loop runs for `length`: ceil(length / 4096), and
      none when length <= 0. */
  function Iterations(length: int): nat
  {
    if length <= 0 then 0 else (length + ChunkSize - 1) / ChunkSize
  }

  /** The chunk loop of the STDIN and DATA readers: while length > 0, read into a
      fresh 4096-byte buffer, lower length by min(length, 4096), stop with no data
      at the first error, else append the whole buffer. */
  function ReadChunksAt(input: seq<Byte>, pos: nat, length: int): (r: Content)
    requires pos <= |input|
    ensures pos <= r.next <= |input|
    ensures r.failed ==> r.data == [] && r.next == |input|
    ensures !r.failed ==> |r.data| == ChunkSize * Iterations(length)
    decreases length
  {
    if length <= 0 then Content([], pos, false)
    else
      var rd := ReadAt(input, pos, ChunkSize);
      var rest := if length > ChunkSize then length - ChunkSize else length - length;
      if rd.failed then Content([], rd.next, true)
      else
        var tail := ReadChunksAt(input, rd.next, rest);
        if tail.failed then Content([], tail.next, true)
        else Content(rd.bytes + tail.data, tail.next, false)
  }

  /** A successful result is whole chunks: at least `length` bytes and less than
      one chunk more; a length <= 0 gives no data. */
  lemma ChunksCoverLength(input: seq<Byte>, pos: nat, length: int)
    requires pos <= |input|
    ensures var r := ReadChunksAt(input, pos, length);
      && (length <= 0 ==> r == Content([], pos, false))
      && (!r.failed && length > 0 ==> length <= |r.data| < length + ChunkSize)
  {
  }

  /** The loop fails exactly when one of its reads starts at the end of input,
      that is when the last chunk would start there or later. */
  lemma {:induction false} ChunksSucceedIff(input: seq<Byte>, pos: nat, length: int)
    requires pos <= |input|
    ensures !ReadChunksAt(input, pos, length).failed <==>
      length <= 0 || pos + ChunkSize * (Iterations(length) - 1) < |input|
    decreases length
  {
    if length > 0 {
      var rd := ReadAt(input, pos, ChunkSize);
      var rest := if length > ChunkSize then length - ChunkSize else 0;
      var m := Iterations(rest);
      assert Iterations(length) == 1 + m;
      assert ChunkSize * (Iterations(length) - 1) == ChunkSize * m;
      if !rd.failed {
        ChunksSucceedIff(input, rd.next, rest);
        if rest > 0 {
          assert m >= 1;
          if pos + ChunkSize <= |input| {
            assert rd.next == pos + ChunkSize;
            assert ChunkSize * m == ChunkSize + ChunkSize * (m - 1);
          } else {
            assert rd.next == |input|;
            assert ChunkSize * m >= ChunkSize;
          }
        } else {
          assert m == 0;
        }
      }
    }
  }

  /** A successful chunk loop is the same as one read of all its chunks: the data
      is the next ChunkSize * Iterations(length) bytes of input, zero-filled past
      the end of input. So the readers consume up to the next 4096-byte boundary,
      beyond the declared length. */
  lemma {:induction false} ChunksAsOneRead(input: seq<Byte>, pos: nat, length: int)
    requires pos <= |input|
    ensures var r := ReadChunksAt(input, pos, length);
      !r.failed ==> Received(r.data, r.next, false) == ReadAt(input, pos, ChunkSize * Iterations(length))
    decreases length
  {
    var r := ReadChunksAt(input, pos, length);
    if length > 0 && !r.failed {
      var rd := ReadAt(input, pos, ChunkSize);
      var rest := if length > ChunkSize then length - ChunkSize else 0;
      ChunksAsOneRead(input, rd.next, rest);
      if rest > 0 {
        assert Iterations(length) == 1 + Iterations(rest);
        ReadSplit(input, pos, ChunkSize, ChunkSize * Iterations(rest));
      } else {
        assert Iterations(length) == 1;
      }
    }
  }

  function Prepend(prefix: seq<Byte>, r: Content): Content
  {
    if r.failed then r else Content(prefix + r.data, r.next, false)
  }

  /** Prepending two pieces one after the other prepends them joined. */
  lemma PrependTwice(a: seq<Byte>, b: seq<Byte>, r: Content)
    ensures Prepend(a, Prepend(b, r)) == Prepend(a + b, r)
  {
    if !r.failed {
      assert a + (b + r.data) == (a + b) + r.data;
    }
  }

  /** One turn of the chunk loop, for a read that succeeds: the buffer joins the
      data gathered so far and the loop goes on with length lowered by
      min(length, 4096). */
  lemma ChunksContinue(input: seq<Byte>, pos: nat, length: int, buf: seq<Byte>, next: nat, rest: int, data: seq<Byte>)
    requires pos <= |input| && length > 0
    requires ReadAt(input, pos, ChunkSize) == Received(buf, next, false)
    requires rest == if length > ChunkSize then length - ChunkSize else 0
    ensures next <= |input|
    ensures Prepend(data, ReadChunksAt(input, pos, length)) == Prepend(data + buf, ReadChunksAt(input, next, rest))
  {
    PrependTwice(data, buf, ReadChunksAt(input, next, rest));
  }

  /** ReadFcgiStdin and ReadFcgiData: the same chunk loop over the connection. */
  method ReadChunks(conn: Conn, length: int) returns (data: seq<Byte>, err: bool)
    requires conn.Valid()
    modifies conn`pos
    ensures conn.Valid()
    ensures ReadChunksAt(conn.input, old(conn.pos), length) == Content(data, conn.pos, err)
  {
    data := [];
    var remaining := length;
    while remaining > 0
      invariant conn.Valid()
      invariant ReadChunksAt(conn.input, old(conn.pos), length)
        == Prepend(data, ReadChunksAt(conn.input, conn.pos, remaining))
      decreases remaining
    {
      ghost var before, left := conn.pos, remaining;
      var buf, e := conn.Read(ChunkSize);
      if remaining > ChunkSize {
        remaining := remaining - ChunkSize;
      } else {
        remaining := remaining - remaining;
      }
      if e {
        return [], e;
      }
      ChunksContinue(conn.input, before, left, buf, conn.pos, remaining, data);
      data := data + buf;
    }
    err := false;
  }

  // ---------------------------------------------------------------------------
  // Padding

  datatype Skip = Skip(next: nat, failed: bool)

  /** Skips the padding after a record's content: nothing when paddingLength is 0,
      else one read of paddingLength bytes whose error is returned. */
  function SkipPaddingAt(input: seq<Byte>, pos: nat, paddingLength: int): (r: Skip)
    requires pos <= |input|
    ensures paddingLength <= 0 ==> r == Skip(pos, false)
    ensures pos + paddingLength <= |input| ==> r == Skip(pos + Max(paddingLength, 0), false)
    ensures paddingLength > 0 ==> (r.failed <==> pos == |input|)
    ensures pos <= r.next <= |input|
  {
    if paddingLength > 0 then
      var rd := ReadAt(input, pos, paddingLength);
      Skip(rd.next, rd.failed)
    else
      Skip(pos, false)
  }

  function Max(a: int, b: int): int
  {
    if a >= b then a else b
  }

  method SkipPadding(conn: Conn, paddingLength: int) returns (err: bool)
    requires conn.Valid()
    modifies conn`pos
    ensures conn.Valid()
    ensures SkipPaddingAt(conn.input, old(conn.pos), paddingLength) == Skip(conn.pos, err)
  {
    if paddingLength > 0 {
      var _, e := conn.Read(paddingLength);
      if e {
        return e;
      }
    }
    err := false;
  }

  // ---------------------------------------------------------------------------
  // STDOUT and END_REQUEST

  /** What a record writer returns: the byte count, an error, or (for a failed
      STDOUT header write) a panic. */
  datatype Written = Wrote(n: int) | WriteFailed | Panicked

  datatype Write = Write(after: Outbound, result: Written)

  /** WriteFcgStdout: the header (a failure panics), the body when it is not empty
      (a failure returns 0 and the error), then the padding zeros, whose write
      error is not looked at. It reports the body length plus 8. */
  function WriteStdoutAt(s: Outbound, body: seq<Byte>, requestId: int): Write
  {
    var header := PutAt(s, EncodeHeader(StdoutHeader(|body|, requestId)));
    if header.failed then Write(header.after, Panicked)
    else
      var content := if |body| > 0 then PutAt(header.after, body) else Put(header.after, false);
      if content.failed then Write(content.after, WriteFailed)
      else
        var pad := Padding(|body|);
        var padded := if pad > 0 then PutAt(content.after, Zeros(pad)).after else content.after;
        Write(padded, Wrote(|body| + HeaderSize))
  }

  /** What a STDOUT write does, case by case: it panics exactly when the header
      does not go through, fails after the header exactly when a non-empty body
      does not fit, and otherwise reports |body| + 8 (the padding is not counted).
      The peer receives a prefix of the record: nothing, the header, or header and
      body with or without the padding; nothing is written after a failure, and
      the whole record arrives whenever it fits. */
  lemma WriteStdoutOutcome(s: Outbound, body: seq<Byte>, requestId: int)
    ensures var w := WriteStdoutAt(s, body, requestId);
      var rec := StdoutRecord(body, requestId);
      && w.after.closed == s.closed
      && (w.result.Panicked? <==> s.closed || s.room < HeaderSize)
      && (w.result.WriteFailed? <==>
            !s.closed && HeaderSize <= s.room < HeaderSize + |body|)
      && (w.result.Panicked? ==> w.after == s)
      && (w.result.WriteFailed? ==> w.after.output == s.output + rec[..HeaderSize])
      && (w.result.Wrote? ==> w.result.n == |body| + HeaderSize)
      && (!s.closed && |rec| <= s.room ==>
            w == Write(Outbound(s.output + rec, s.room - |rec|, false), Wrote(|body| + HeaderSize)))
      && (w.result.Wrote? && s.room < |rec| ==>
            w.after == Outbound(s.output + rec[..HeaderSize + |body|], s.room - HeaderSize - |body|, false))
  {
    var rec := StdoutRecord(body, requestId);
    var hdr := EncodeHeader(StdoutHeader(|body|, requestId));
    assert rec[..HeaderSize] == hdr;
    assert rec[..HeaderSize + |body|] == hdr + body;
    assert rec == hdr + body + Zeros(Padding(|body|));
  }

  method WriteStdout(conn: Conn, body: seq<Byte>, requestId: int) returns (w: Written)
    modifies conn`output, conn`room
    ensures WriteStdoutAt(old(conn.Sending()), body, requestId) == Write(conn.Sending(), w)
  {
    var err := conn.Write(EncodeHeader(StdoutHeader(|body|, requestId)));
    if err {
      return Panicked;
    }
    if |body| > 0 {
      err := conn.Write(body);
      if err {
        return WriteFailed;
      }
    }
    var pad := Padding(|body|);
    if pad > 0 {
      var _ := conn.Write(Zeros(pad));
    }
    w := Wrote(|body| + HeaderSize);
  }

  /** WriteFcgiEndRequest: one write of the 16-byte record; it reports 16, or the
      error with nothing sent. */
  function WriteEndRequestAt(s: Outbound, requestId: int): (w: Write)
    ensures w.result.Wrote? <==> !s.closed && EndRequestRecordSize <= s.room
    ensures w.result.Wrote? ==>
      w == Write(Outbound(s.output + EndRequestRecord(requestId), s.room - EndRequestRecordSize, false), Wrote(16))
    ensures !w.result.Wrote? ==> w == Write(s, WriteFailed)
  {
    var p := PutAt(s, EndRequestRecord(requestId));
    if p.failed then Write(p.after, WriteFailed) else Write(p.after, Wrote(EndRequestRecordSize))
  }

  method WriteEndRequest(conn: Conn, requestId: int) returns (w: Written)
    modifies conn`output, conn`room
    ensures WriteEndRequestAt(old(conn.Sending()), requestId) == Write(conn.Sending(), w)
  {
    var err := conn.Write(EndRequestRecord(requestId));
    if err {
      return WriteFailed;
    }
    w := Wrote(EndRequestRecordSize);
  }
}
