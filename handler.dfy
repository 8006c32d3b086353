/** The standard STDOUT handler: for every request handed off by the record
    loop it writes a fixed HTML response as one STDOUT record, an empty STDOUT
    record that ends the stream and an END_REQUEST record, then closes the
    connection. Any write error makes it panic, which ends the response there. */
module Handler {
  import opened Wire
  import opened Net
  import opened Codec

  /** The response text: a Content-type header line, an empty line, and the body. */
  const ResponseText: string := "Content-type: text/html\r\n\r\nHELLO"

  /** The response text as bytes (it is plain ASCII). */
  function Payload(): (p: seq<Byte>)
    ensures |p| == |ResponseText|
    ensures forall i :: 0 <= i < |p| ==> p[i] == ResponseText[i] as int
  {
    seq(|ResponseText|, i requires 0 <= i < |ResponseText| => ResponseText[i] as int % 256)
  }

  /** Everything the handler sends when no write fails. */
  function Response(requestId: int): seq<Byte>
  {
    StdoutRecord(Payload(), requestId) + StdoutRecord([], requestId) + EndRequestRecord(requestId)
  }

  datatype Handled = Handled(after: Outbound, panicked: bool)

  /** Handle on the sending side: each of the three writes panics on error, and
      the connection is closed only after all three went through. */
  function RespondAt(s: Outbound, requestId: int): Handled
  {
    var body := WriteStdoutAt(s, Payload(), requestId);
    if !body.result.Wrote? then Handled(body.after, true)
    else
      var end := WriteStdoutAt(body.after, [], requestId);
      if !end.result.Wrote? then Handled(end.after, true)
      else
        var done := WriteEndRequestAt(end.after, requestId);
        if !done.result.Wrote? then Handled(done.after, true)
        else Handled(done.after.(closed := true), false)
  }

  /** The handler for the accumulated request, given the request's connection and
      identifier: the response goes to that connection, under that identifier. */
  method Handle(conn: Conn, requestId: int) returns (panicked: bool)
    modifies conn
    ensures RespondAt(old(conn.Sending()), requestId) == Handled(conn.Sending(), panicked)
    ensures conn.pos == old(conn.pos)
  {
    var w := WriteStdout(conn, Payload(), requestId);
    if !w.Wrote? {
      return true;
    }
    w := WriteStdout(conn, [], requestId);
    if !w.Wrote? {
      return true;
    }
    w := WriteEndRequest(conn, requestId);
    if !w.Wrote? {
      return true;
    }
    conn.Close();
    panicked := false;
  }

  /** The response text is 32 bytes, a multiple of 8, so its record has no padding. */
  lemma PayloadSize()
    ensures |Payload()| == 32 && Padding(|Payload()|) == 0
  {
  }

  /** The response is the 40-byte text record, the 8-byte empty record and the
      16-byte END_REQUEST record, in that order. */
  lemma ResponsePieces(requestId: int)
    ensures var r := Response(requestId);
      && |r| == 64
      && r[..40] == StdoutRecord(Payload(), requestId)
      && r[40..48] == StdoutRecord([], requestId)
      && r[48..] == EndRequestRecord(requestId)
  {
    PayloadSize();
    var r := Response(requestId);
    var a, b, c := StdoutRecord(Payload(), requestId), StdoutRecord([], requestId), EndRequestRecord(requestId);
    assert |a| == 40 && |b| == 8 && |c| == 16;
    assert r == a + b + c;
  }

  /** What the three records of the response (ResponsePieces) carry: all three
      the request identifier modulo 2^16; the first the text unpadded, the second
      no content and no padding, and the last REQUEST_COMPLETE with application
      status 0. */
  lemma ResponseLayout(requestId: int)
    ensures var r := Response(requestId);
      && |r| == 64
      && var first, second, last := DecodeHeader(r[..8]), DecodeHeader(r[40..48]), DecodeHeader(r[48..56]);
      && first.typ == Stdout && ContentLength(first) == 32 && first.paddingLength == 0
      && r[8..40] == Payload()
      && second.typ == Stdout && ContentLength(second) == 0 && second.paddingLength == 0
      && last.typ == EndRequest && r[56..] == [0, 0, 0, 0, RequestComplete, 0, 0, 0]
      && FullRequestId(first) == FullRequestId(second) == FullRequestId(last) == requestId % 0x1_0000
  {
    PayloadSize();
    ResponsePieces(requestId);
    var r := Response(requestId);
    var a, b, c := StdoutRecord(Payload(), requestId), StdoutRecord([], requestId), EndRequestRecord(requestId);
    StdoutRecordLayout(Payload(), requestId);
    StdoutRecordLayout([], requestId);
    EndRequestRecordLayout(requestId);
    assert r[..8] == a[..8] && r[8..40] == a[8..40];
    assert r[40..48] == b[..8];
    assert r[48..56] == c[..8] && r[56..] == c[8..];
  }

  /** The first write: the text record goes through whole, or the peer gets
      nothing or only its header. */
  lemma FirstWrite(s: Outbound, requestId: int)
    ensures var w := WriteStdoutAt(s, Payload(), requestId);
      var r := Response(requestId);
      && (w.result.Wrote? <==> !s.closed && 40 <= s.room)
      && (w.result.Wrote? ==> w.after == Outbound(s.output + r[..40], s.room - 40, s.closed))
      && (!w.result.Wrote? ==> w.after.closed == s.closed && w.after.output in {s.output, s.output + r[..8]})
  {
    PayloadSize();
    ResponsePieces(requestId);
    StdoutRecordLayout(Payload(), requestId);
    WriteStdoutOutcome(s, Payload(), requestId);
    assert Response(requestId)[..8] == StdoutRecord(Payload(), requestId)[..8];
  }

  /** The second write: the empty record goes through whole or not at all. */
  lemma SecondWrite(s: Outbound, requestId: int)
    ensures var w := WriteStdoutAt(s, [], requestId);
      && (w.result.Wrote? <==> !s.closed && 8 <= s.room)
      && (w.result.Wrote? ==> w.after == Outbound(s.output + StdoutRecord([], requestId), s.room - 8, s.closed))
      && (!w.result.Wrote? ==> w.after == s)
  {
    assert StdoutRecord([], requestId) == EncodeHeader(StdoutHeader(0, requestId));
  }

  /** The two STDOUT writes: both go through exactly when the connection is open
      and takes 48 bytes, and then the peer has the first 48 bytes of the response. */
  lemma StdoutWrites(s: Outbound, requestId: int)
    ensures var body := WriteStdoutAt(s, Payload(), requestId);
      var end := WriteStdoutAt(body.after, [], requestId);
      && (body.result.Wrote? && end.result.Wrote? <==> !s.closed && 48 <= s.room)
      && (body.result.Wrote? && end.result.Wrote? ==>
            end.after == Outbound(s.output + Response(requestId)[..48], s.room - 48, s.closed))
  {
    var r := Response(requestId);
    ResponsePieces(requestId);
    FirstWrite(s, requestId);
    var body := WriteStdoutAt(s, Payload(), requestId);
    if body.result.Wrote? {
      SecondWrite(body.after, requestId);
      assert s.output + r[..48] == s.output + r[..40] + r[40..48];
    }
  }

  /** The handler goes through exactly when the connection is open and takes the
      whole 64-byte response; then the peer has received exactly the response and
      the connection is closed. */
  lemma RespondSucceedsIff(s: Outbound, requestId: int)
    ensures var h := RespondAt(s, requestId);
      && (!h.panicked <==> !s.closed && 64 <= s.room)
      && (!h.panicked ==> h.after == Outbound(s.output + Response(requestId), s.room - 64, true))
  {
    var r := Response(requestId);
    ResponsePieces(requestId);
    StdoutWrites(s, requestId);
    FirstWrite(s, requestId);
    assert s.output + r == s.output + r[..48] + r[48..];
  }

  /** A handler that panics leaves the connection as it was (open, if it was),
      and the peer has received a proper prefix of the response that ends at a
      write boundary: nothing, the first header, the first record, or both STDOUT
      records. */
  lemma PanicLeavesPrefix(s: Outbound, requestId: int)
    ensures var h := RespondAt(s, requestId);
      var r := Response(requestId);
      h.panicked ==>
        && h.after.closed == s.closed
        && h.after.output in {s.output, s.output + r[..8], s.output + r[..40], s.output + r[..48]}
  {
    var r := Response(requestId);
    ResponsePieces(requestId);
    FirstWrite(s, requestId);
    var body := WriteStdoutAt(s, Payload(), requestId);
    if body.result.Wrote? {
      SecondWrite(body.after, requestId);
      if WriteStdoutAt(body.after, [], requestId).result.Wrote? {
        assert s.output + r[..48] == s.output + r[..40] + r[40..48];
      }
    }
  }

  /** The handler closes the connection after one response, so a second request
      answered on the same connection makes the handler panic with nothing sent. */
  lemma SecondResponsePanics(s: Outbound, first: int, second: int)
    requires !RespondAt(s, first).panicked
    ensures var again := RespondAt(RespondAt(s, first).after, second);
      again.panicked && again.after == RespondAt(s, first).after
  {
    RespondSucceedsIff(s, first);
  }
}
