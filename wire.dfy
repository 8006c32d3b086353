/** Fixed record layouts of the FastCGI wire protocol as the server lays them out:
    the 8-byte record header, the BEGIN_REQUEST body, the END_REQUEST record and the
    padding rule used when a STDOUT record is written. Every multi-byte integer is
    split big-endian over single bytes; the structs are read and written as raw
    memory, so each layout is the field order of the struct. */
module Wire {

  /** One octet on the wire. */
  type Byte = b: int | 0 <= b < 256

  // Record types
  const BeginRequest: Byte := 1
  const AbortRequest: Byte := 2
  const EndRequest: Byte := 3
  const Params: Byte := 4
  const Stdin: Byte := 5
  const Stdout: Byte := 6
  const Data: Byte := 8

  // Roles carried by a BEGIN_REQUEST body
  const Responder := 1

  // protocolStatus values of an END_REQUEST body
  const RequestComplete: Byte := 0

  /** The version byte the server writes into every header it sends. */
  const Version1: Byte := 1

  const HeaderSize := 8
  const BeginRequestBodySize := 8
  const EndRequestRecordSize := 16

  function Zeros(n: nat): (z: seq<Byte>)
    ensures |z| == n
    ensures forall i :: 0 <= i < n ==> z[i] == 0
  {
    seq(n, _ => 0)
  }

  /** The record header, fields in wire order. */
  datatype Header = Header(
    version: Byte,
    typ: Byte,
    requestIdB1: Byte,
    requestIdB0: Byte,
    contentLengthB1: Byte,
    contentLengthB0: Byte,
    paddingLength: Byte,
    reserved: Byte)

  /** The value a failed header read leaves behind. */
  const ZeroHeader := Header(0, 0, 0, 0, 0, 0, 0, 0)

  function EncodeHeader(h: Header): (b: seq<Byte>)
    ensures |b| == HeaderSize
  {
    [h.version, h.typ, h.requestIdB1, h.requestIdB0,
     h.contentLengthB1, h.contentLengthB0, h.paddingLength, h.reserved]
  }

  /** Reinterprets 8 bytes as a header; encoding the result gives the same bytes back. */
  function DecodeHeader(b: seq<Byte>): (h: Header)
    requires |b| == HeaderSize
    ensures EncodeHeader(h) == b
  {
    Header(b[0], b[1], b[2], b[3], b[4], b[5], b[6], b[7])
  }

  lemma HeaderRoundTrip(h: Header)
    ensures DecodeHeader(EncodeHeader(h)) == h
  {
  }

  /** contentLength as the parser computes it, in int arithmetic: B1 * 256 + B0. */
  function ContentLength(h: Header): (n: nat)
    ensures n < 0x1_0000
    ensures n % 256 == h.contentLengthB0 && n / 256 == h.contentLengthB1
  {
    h.contentLengthB1 * 256 + h.contentLengthB0
  }

  /** The 16-bit request identifier the two bytes carry. */
  function FullRequestId(h: Header): (id: nat)
    ensures id < 0x1_0000
    ensures id % 256 == h.requestIdB0 && id / 256 == h.requestIdB1
  {
    h.requestIdB1 * 256 + h.requestIdB0
  }

  /** requestId as the parser computes it: the shift and the addition are done on
      bytes, so B1 << 8 wraps to 0 and only the low byte of the identifier survives. */
  function ParsedRequestId(h: Header): (id: Byte)
    ensures id == h.requestIdB0
    ensures id == FullRequestId(h) % 256
  {
    ((h.requestIdB1 * 256) % 256 + h.requestIdB0) % 256
  }

  /** byte(x & 0xff) */
  function LowByte(x: int): Byte
  {
    x % 256
  }

  /** byte(x >> 8) & 0xff; the shift is arithmetic, which is floor division by 256 */
  function SecondByte(x: int): Byte
  {
    (x / 256) % 256
  }

  /** The BEGIN_REQUEST body, fields in wire order. */
  datatype BeginRequestBody = BeginRequestBody(roleB1: Byte, roleB0: Byte, flags: Byte, reserved: seq<Byte>)
  {
    function Role(): nat
    {
      roleB1 * 256 + roleB0
    }
  }

  const ZeroBeginRequestBody := BeginRequestBody(0, 0, 0, Zeros(5))

  /** Reinterprets 8 bytes as a BEGIN_REQUEST body: role and flags come from the
      first three bytes, the last five are the reserved bytes. */
  function DecodeBeginRequestBody(b: seq<Byte>): (body: BeginRequestBody)
    requires |b| == BeginRequestBodySize
    ensures body.Role() == (b[0] as int) * 256 + b[1] && body.flags == b[2]
    ensures [body.roleB1, body.roleB0, body.flags] + body.reserved == b
  {
    BeginRequestBody(b[0], b[1], b[2], b[3..])
  }

  /** Role and flags do not depend on the reserved bytes. */
  lemma BeginRequestIgnoresReserved(b: seq<Byte>, c: seq<Byte>)
    requires |b| == |c| == BeginRequestBodySize
    requires b[..3] == c[..3]
    ensures DecodeBeginRequestBody(b).Role() == DecodeBeginRequestBody(c).Role()
    ensures DecodeBeginRequestBody(b).flags == DecodeBeginRequestBody(c).flags
  {
    assert b[0] == b[..3][0] && b[1] == b[..3][1] && b[2] == b[..3][2];
    assert c[0] == c[..3][0] && c[1] == c[..3][1] && c[2] == c[..3][2];
  }

  /** The END_REQUEST body, fields in wire order. */
  datatype EndRequestBody = EndRequestBody(
    appStatusB3: Byte, appStatusB2: Byte, appStatusB1: Byte, appStatusB0: Byte,
    protocolStatus: Byte, reserved: seq<Byte>)

  function EncodeEndRequestBody(b: EndRequestBody): seq<Byte>
  {
    [b.appStatusB3, b.appStatusB2, b.appStatusB1, b.appStatusB0, b.protocolStatus] + b.reserved
  }

  /** Alignment padding of a STDOUT record: 8 - length % 8 when that remainder is
      not 0, else none. */
  function Padding(length: nat): (pad: Byte)
    ensures pad < 8
    ensures (length + pad) % 8 == 0
    ensures length % 8 == 0 <==> pad == 0
  {
    if length % 8 > 0 then 8 - length % 8 else 0
  }

  /** The padding is the least amount that aligns the record to 8 bytes. */
  lemma PaddingIsLeast(length: nat, p: nat)
    requires (length + p) % 8 == 0
    ensures Padding(length) <= p
  {
  }

  /** The header WriteFcgStdout builds for a body of `length` bytes. */
  function StdoutHeader(length: nat, requestId: int): Header
  {
    Header(Version1, Stdout, SecondByte(requestId), LowByte(requestId),
           SecondByte(length), LowByte(length), Padding(length), 0)
  }

  /** A STDOUT record as a whole: header, body, then zero padding. */
  function StdoutRecord(body: seq<Byte>, requestId: int): seq<Byte>
  {
    EncodeHeader(StdoutHeader(|body|, requestId)) + body + Zeros(Padding(|body|))
  }

  /** The header of the END_REQUEST record as WriteFcgiEndRequest fills it in:
      contentLengthB1 is 8 and contentLengthB0 is 0. */
  function EndRequestHeader(requestId: int): Header
  {
    Header(Version1, EndRequest, SecondByte(requestId), LowByte(requestId), 8, 0, 0, 0)
  }

  /** The END_REQUEST record as WriteFcgiEndRequest sends it: appStatus 0 and
      protocolStatus REQUEST_COMPLETE. */
  function EndRequestRecord(requestId: int): seq<Byte>
  {
    EncodeHeader(EndRequestHeader(requestId))
      + EncodeEndRequestBody(EndRequestBody(0, 0, 0, 0, RequestComplete, Zeros(3)))
  }

  /** The two identifier bytes of an outgoing header carry the identifier modulo 2^16. */
  lemma OutgoingRequestId(requestId: int)
    ensures FullRequestId(StdoutHeader(0, requestId)) == requestId % 0x1_0000
  {
    var q := requestId / 256;
    assert requestId == 256 * q + LowByte(requestId);
    assert q == 256 * (q / 256) + q % 256;
    RemainderOf(requestId, q / 256, SecondByte(requestId) * 256 + LowByte(requestId));
  }

  /** x % 2^16 is the m in x == 2^16 * k + m with 0 <= m < 2^16. */
  lemma RemainderOf(x: int, k: int, m: int)
    requires 0 <= m < 0x1_0000 && x == 0x1_0000 * k + m
    ensures x % 0x1_0000 == m
  {
  }

  /** The header fields of an outgoing STDOUT record. */
  lemma StdoutHeaderFields(length: nat, requestId: int)
    ensures var h := StdoutHeader(length, requestId);
      && FullRequestId(h) == requestId % 0x1_0000
      && ContentLength(h) == length % 0x1_0000
  {
    OutgoingRequestId(requestId);
    OutgoingRequestId(length);
  }

  /** A header in front keeps a length a multiple of 8. */
  lemma HeaderKeepsAlignment(m: nat)
    requires m % 8 == 0
    ensures (HeaderSize + m) % 8 == 0
  {
  }

  /** Layout of a STDOUT record: the header decodes to version 1, type STDOUT, the
      identifier, the body length modulo 2^16 and the padding; the body follows
      unchanged, then padding zeros, and the whole record is a multiple of 8 long. */
  lemma StdoutRecordLayout(body: seq<Byte>, requestId: int)
    ensures var r := StdoutRecord(body, requestId);
      && |r| == HeaderSize + |body| + Padding(|body|)
      && |r| % 8 == 0
      && var h := DecodeHeader(r[..HeaderSize]);
      && h == StdoutHeader(|body|, requestId)
      && h.version == Version1 && h.typ == Stdout && h.reserved == 0
      && FullRequestId(h) == requestId % 0x1_0000
      && ContentLength(h) == |body| % 0x1_0000
      && h.paddingLength == Padding(|body|)
      && r[HeaderSize..HeaderSize + |body|] == body
      && forall i :: HeaderSize + |body| <= i < |r| ==> r[i] == 0
  {
    var h := StdoutHeader(|body|, requestId);
    var e, z := EncodeHeader(h), Zeros(Padding(|body|));
    var r := e + body + z;
    assert r == StdoutRecord(body, requestId);
    HeaderKeepsAlignment(|body| + Padding(|body|));
    assert r[..HeaderSize] == e;
    HeaderRoundTrip(h);
    StdoutHeaderFields(|body|, requestId);
    assert r[HeaderSize..HeaderSize + |body|] == body;
    forall i | HeaderSize + |body| <= i < |r|
      ensures r[i] == 0
    {
      assert r[i] == z[i - HeaderSize - |body|];
    }
  }

  /** Layout of the END_REQUEST record: 16 bytes, type END_REQUEST, the identifier,
      a declared content length of 8 * 256 = 2048 although the body has 8 bytes,
      no padding, appStatus 0 and protocolStatus REQUEST_COMPLETE. */
  lemma EndRequestRecordLayout(requestId: int)
    ensures var r := EndRequestRecord(requestId);
      && |r| == EndRequestRecordSize
      && var h := DecodeHeader(r[..HeaderSize]);
      && h.version == Version1 && h.typ == EndRequest
      && FullRequestId(h) == requestId % 0x1_0000
      && ContentLength(h) == 2048
      && h.paddingLength == 0
      && r[HeaderSize..] == [0, 0, 0, 0, RequestComplete, 0, 0, 0]
  {
    var r := EndRequestRecord(requestId);
    assert r[..HeaderSize] == EncodeHeader(EndRequestHeader(requestId));
    OutgoingRequestId(requestId);
    assert FullRequestId(StdoutHeader(0, requestId)) == FullRequestId(EndRequestHeader(requestId));
  }
}
