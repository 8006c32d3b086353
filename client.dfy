/** Records laid out the way a FastCGI client sends them, and what the record loop
    makes of them. A request of BEGIN_REQUEST, PARAMS with the encoded pairs, an
    empty PARAMS and an empty STDIN is handed off with exactly those pairs as its
    parameters; the same request with a short STDIN body before the empty STDIN
    is never handed off, because the body's chunk read swallows the terminator. */
module Client {
  import opened Wire
  import opened Net
  import opened Codec
  import opened Request
  import opened Parser

  /** The header a client puts in front of `contentLength` bytes of content and
      `pad` bytes of padding. */
  function ClientHeader(typ: Byte, requestId: int, contentLength: nat, pad: Byte): (h: Header)
    requires contentLength < 0x1_0000
    ensures h.typ == typ && h.paddingLength == pad
    ensures ContentLength(h) == contentLength && h.requestIdB0 == requestId % 256
  {
    Header(Version1, typ, SecondByte(requestId), LowByte(requestId), contentLength / 256, contentLength % 256, pad, 0)
  }

  /** A whole record: header, content, then zero padding. */
  function ClientRecord(typ: Byte, requestId: int, content: seq<Byte>, pad: Byte): (r: seq<Byte>)
    requires |content| < 0x1_0000
    ensures |r| == HeaderSize + |content| + pad
  {
    EncodeHeader(ClientHeader(typ, requestId, |content|, pad)) + content + Zeros(pad)
  }

  /** Reading a header where its encoding occurs gives that header back. */
  lemma HeaderOccurrence(input: seq<Byte>, pos: nat, h: Header)
    requires Occurs(input, pos, EncodeHeader(h))
    ensures ReadHeaderAt(input, pos) == HeaderRead(h, pos + HeaderSize, false)
  {
    ReadOccurrence(input, pos, EncodeHeader(h));
    HeaderRoundTrip(h);
  }

  lemma RecordLayout(input: seq<Byte>, pos: nat, typ: Byte, requestId: int, content: seq<Byte>, pad: Byte)
    requires |content| < 0x1_0000
    requires Occurs(input, pos, ClientRecord(typ, requestId, content, pad))
    ensures ReadHeaderAt(input, pos) == HeaderRead(ClientHeader(typ, requestId, |content|, pad), pos + HeaderSize, false)
    ensures Occurs(input, pos + HeaderSize, content)
  {
    var h := ClientHeader(typ, requestId, |content|, pad);
    OccursConcat(input, pos, EncodeHeader(h) + content, Zeros(pad), pos + HeaderSize + |content|);
    OccursConcat(input, pos, EncodeHeader(h), content, pos + HeaderSize);
    HeaderOccurrence(input, pos, h);
  }

  /** A BEGIN_REQUEST record: the body is read and dropped, and the loop goes on
      right after the body; padding, if the client sent any, is not skipped and
      would be read as the next header. */
  lemma BeginStep(input: seq<Byte>, pos: nat, requestId: int, body: seq<Byte>, pad: Byte, acc: RequestSequence)
    requires |body| == BeginRequestBodySize
    requires Occurs(input, pos, ClientRecord(BeginRequest, requestId, body, pad))
    ensures StepAt(input, pos, acc) == Continue(pos + BeginRecordSize, acc)
  {
    RecordLayout(input, pos, BeginRequest, requestId, body, pad);
    BeginRequestBodyBytes(input, pos + HeaderSize);
  }

  /** A PARAMS record carrying short pairs: the pairs are added in order and the
      padding is skipped, so the loop goes on after the whole record. An empty
      PARAMS record changes nothing. */
  lemma ParamsStep(input: seq<Byte>, pos: nat, requestId: int, ps: seq<NameValue>, pad: Byte, acc: RequestSequence)
    requires AllShort(ps) && |EncodePairs(ps)| < 0x1_0000
    requires Occurs(input, pos, ClientRecord(Params, requestId, EncodePairs(ps), pad))
    ensures StepAt(input, pos, acc)
      == Continue(pos + HeaderSize + |EncodePairs(ps)| + pad, acc.(params := InsertAll(acc.params, ps)))
  {
    RecordLayout(input, pos, Params, requestId, EncodePairs(ps), pad);
    ParamsRoundTrip(input, pos + HeaderSize, ps, acc.params);
  }

  /** The empty STDIN record ends the loop with the low byte of its identifier. */
  lemma TerminatorStep(input: seq<Byte>, pos: nat, requestId: int, pad: Byte, acc: RequestSequence)
    requires Occurs(input, pos, ClientRecord(Stdin, requestId, [], pad))
    ensures StepAt(input, pos, acc) == Complete(pos + HeaderSize, acc.SetRequestId(requestId % 256))
  {
    RecordLayout(input, pos, Stdin, requestId, [], pad);
  }

  /** A Responder BEGIN_REQUEST body with no flags. */
  const ResponderBody: seq<Byte> := [0, Responder, 0, 0, 0, 0, 0, 0]

  /** Size of a BEGIN_REQUEST record: header and 8-byte body. */
  const BeginRecordSize := HeaderSize + BeginRequestBodySize

  /** What a client sends before STDIN: BEGIN_REQUEST, one PARAMS record with the
      pairs followed by `pad` bytes of padding, and the empty PARAMS record. */
  function Preamble(requestId: int, ps: seq<NameValue>, pad: Byte): (r: seq<Byte>)
    requires AllShort(ps) && |EncodePairs(ps)| < 0x1_0000
    ensures |r| == BeginRecordSize + HeaderSize + |EncodePairs(ps)| + pad + HeaderSize
  {
    ClientRecord(BeginRequest, requestId, ResponderBody, 0)
    + ClientRecord(Params, requestId, EncodePairs(ps), pad)
    + ClientRecord(Params, requestId, [], 0)
  }

  /** The empty STDIN record that ends a request. */
  function Terminator(requestId: int): (r: seq<Byte>)
    ensures |r| == HeaderSize
  {
    ClientRecord(Stdin, requestId, [], 0)
  }

  /** A request without a body. */
  function SimpleRequest(requestId: int, ps: seq<NameValue>, pad: Byte): seq<Byte>
    requires AllShort(ps) && |EncodePairs(ps)| < 0x1_0000
  {
    Preamble(requestId, ps, pad) + Terminator(requestId)
  }

  /** A request with a STDIN body: one STDIN record with content before the empty one. */
  function RequestWithBody(requestId: int, ps: seq<NameValue>, pad: Byte, body: seq<Byte>, bodyPad: Byte): seq<Byte>
    requires AllShort(ps) && |EncodePairs(ps)| < 0x1_0000 && |body| < 0x1_0000
  {
    Preamble(requestId, ps, pad) + ClientRecord(Stdin, requestId, body, bodyPad) + Terminator(requestId)
  }

  /** The BEGIN_REQUEST record takes one iteration and changes nothing. */
  lemma BeginRun(input: seq<Byte>, pos: nat, requestId: int, acc: RequestSequence, fuel: nat)
    requires Occurs(input, pos, ClientRecord(BeginRequest, requestId, ResponderBody, 0)) && fuel > 0
    ensures pos + BeginRecordSize <= |input|
    ensures RunAt(input, pos, acc, fuel) == RunAt(input, pos + BeginRecordSize, acc, fuel - 1)
  {
    BeginStep(input, pos, requestId, ResponderBody, 0, acc);
    RunContinues(input, pos, acc, fuel, pos + BeginRecordSize, acc, fuel - 1);
  }

  /** A PARAMS record with short pairs takes one iteration and adds the pairs. */
  lemma ParamsRun(input: seq<Byte>, pos: nat, requestId: int, ps: seq<NameValue>, pad: Byte, acc: RequestSequence, fuel: nat)
    requires AllShort(ps) && |EncodePairs(ps)| < 0x1_0000
    requires Occurs(input, pos, ClientRecord(Params, requestId, EncodePairs(ps), pad)) && fuel > 0
    ensures pos + HeaderSize + |EncodePairs(ps)| + pad <= |input|
    ensures RunAt(input, pos, acc, fuel)
      == RunAt(input, pos + HeaderSize + |EncodePairs(ps)| + pad, acc.(params := InsertAll(acc.params, ps)), fuel - 1)
  {
    ParamsStep(input, pos, requestId, ps, pad, acc);
    RunContinues(input, pos, acc, fuel, pos + HeaderSize + |EncodePairs(ps)| + pad,
                 acc.(params := InsertAll(acc.params, ps)), fuel - 1);
  }

  /** The empty PARAMS record takes one iteration and changes nothing. */
  lemma EmptyParamsRun(input: seq<Byte>, pos: nat, requestId: int, acc: RequestSequence, fuel: nat)
    requires Occurs(input, pos, ClientRecord(Params, requestId, [], 0)) && fuel > 0
    ensures pos + HeaderSize <= |input|
    ensures RunAt(input, pos, acc, fuel) == RunAt(input, pos + HeaderSize, acc, fuel - 1)
  {
    assert EncodePairs([]) == [];
    ParamsStep(input, pos, requestId, [], 0, acc);
    RunContinues(input, pos, acc, fuel, pos + HeaderSize, acc, fuel - 1);
  }

  /** The two PARAMS records, the one with the pairs and the empty one, take two
      iterations and add the pairs. */
  lemma PairsRun(input: seq<Byte>, pos: nat, requestId: int, ps: seq<NameValue>, pad: Byte, acc: RequestSequence, fuel: nat)
    requires AllShort(ps) && |EncodePairs(ps)| < 0x1_0000
    requires Occurs(input, pos, ClientRecord(Params, requestId, EncodePairs(ps), pad) + ClientRecord(Params, requestId, [], 0))
    requires fuel >= 2
    ensures pos + HeaderSize + |EncodePairs(ps)| + pad + HeaderSize <= |input|
    ensures RunAt(input, pos, acc, fuel)
      == RunAt(input, pos + HeaderSize + |EncodePairs(ps)| + pad + HeaderSize, acc.(params := InsertAll(acc.params, ps)), fuel - 2)
  {
    var p := ClientRecord(Params, requestId, EncodePairs(ps), pad);
    OccursConcat(input, pos, p, ClientRecord(Params, requestId, [], 0), pos + |p|);
    ParamsRun(input, pos, requestId, ps, pad, acc, fuel);
    EmptyParamsRun(input, pos + |p|, requestId, acc.(params := InsertAll(acc.params, ps)), fuel - 1);
  }

  /** Three iterations take the loop through the preamble and add the pairs to
      the parameters. */
  lemma PreambleRun(input: seq<Byte>, pos: nat, requestId: int, ps: seq<NameValue>, pad: Byte, acc: RequestSequence, fuel: nat)
    requires AllShort(ps) && |EncodePairs(ps)| < 0x1_0000
    requires Occurs(input, pos, Preamble(requestId, ps, pad))
    requires fuel >= 3
    ensures pos + |Preamble(requestId, ps, pad)| <= |input|
    ensures RunAt(input, pos, acc, fuel)
      == RunAt(input, pos + |Preamble(requestId, ps, pad)|, acc.(params := InsertAll(acc.params, ps)), fuel - 3)
  {
    var b := ClientRecord(BeginRequest, requestId, ResponderBody, 0);
    var rest := ClientRecord(Params, requestId, EncodePairs(ps), pad) + ClientRecord(Params, requestId, [], 0);
    assert Preamble(requestId, ps, pad) == b + rest;
    OccursConcat(input, pos, b, rest, pos + BeginRecordSize);
    BeginRun(input, pos, requestId, acc, fuel);
    PairsRun(input, pos + BeginRecordSize, requestId, ps, pad, acc, fuel - 1);
  }

  /** The terminating record hands the accumulator off on the next iteration. */
  lemma TerminatorRun(input: seq<Byte>, pos: nat, requestId: int, acc: RequestSequence, fuel: nat)
    requires Occurs(input, pos, Terminator(requestId)) && fuel >= 1
    ensures RunAt(input, pos, acc, fuel) == Handed(pos + HeaderSize, acc.SetRequestId(requestId % 256))
  {
    TerminatorStep(input, pos, requestId, 0, acc);
    RunCompletes(input, pos, acc, fuel, pos + HeaderSize, acc.SetRequestId(requestId % 256));
  }

  /** A request without a body is handed off on the fourth iteration, right
      after its last record, with the pairs added to the parameters and the low
      byte of the identifier; the padding after the pairs is skipped, whatever
      its length. */
  lemma RunSimpleRequest(input: seq<Byte>, pos: nat, requestId: int, ps: seq<NameValue>, pad: Byte,
                         acc: RequestSequence, fuel: nat)
    requires AllShort(ps) && |EncodePairs(ps)| < 0x1_0000
    requires Occurs(input, pos, SimpleRequest(requestId, ps, pad))
    requires fuel >= 4
    ensures RunAt(input, pos, acc, fuel)
      == Handed(pos + |SimpleRequest(requestId, ps, pad)|,
                acc.(params := InsertAll(acc.params, ps), requestId := requestId % 256))
  {
    var pre := Preamble(requestId, ps, pad);
    var q: nat, f: nat := pos + |pre|, fuel - 3;
    OccursConcat(input, pos, pre, Terminator(requestId), q);
    PreambleRun(input, pos, requestId, ps, pad, acc, fuel);
    TerminatorRun(input, q, requestId, acc.(params := InsertAll(acc.params, ps)), f);
  }

  /** A STDIN record whose content fills one 4096-byte chunk exactly: the chunk
      read takes the content and nothing more, the padding is skipped, and the
      loop goes on right after the record with the content as STDIN. */
  lemma FullChunkStep(input: seq<Byte>, pos: nat, requestId: int, body: seq<Byte>, pad: Byte, acc: RequestSequence)
    requires |body| == ChunkSize
    requires Occurs(input, pos, ClientRecord(Stdin, requestId, body, pad))
    ensures StepAt(input, pos, acc) == Continue(pos + HeaderSize + ChunkSize + pad, acc.SetStdin(body))
  {
    var q := pos + HeaderSize;
    RecordLayout(input, pos, Stdin, requestId, body, pad);
    ReadOccurrence(input, q, body);
    assert body + [] == body;
  }

  /** A STDIN body of exactly 4096 bytes, whatever its padding, then the
      terminating record: the chunk read stops at the padding, and the request is
      handed off on the second iteration with the body as STDIN. */
  lemma FullChunkHandsOff(input: seq<Byte>, pos: nat, requestId: int, body: seq<Byte>, pad: Byte, acc: RequestSequence, fuel: nat)
    requires |body| == ChunkSize
    requires Occurs(input, pos, ClientRecord(Stdin, requestId, body, pad) + Terminator(requestId))
    requires fuel >= 2
    ensures RunAt(input, pos, acc, fuel)
      == Handed(pos + HeaderSize + ChunkSize + pad + HeaderSize, acc.SetStdin(body).SetRequestId(requestId % 256))
  {
    var q := pos + HeaderSize + ChunkSize + pad;
    OccursConcat(input, pos, ClientRecord(Stdin, requestId, body, pad), Terminator(requestId), q);
    FullChunkRun(input, pos, requestId, body, pad, acc, fuel);
    TerminatorRun(input, q, requestId, acc.SetStdin(body), fuel - 1);
  }

  /** The full-chunk STDIN record takes one iteration and sets STDIN. */
  lemma FullChunkRun(input: seq<Byte>, pos: nat, requestId: int, body: seq<Byte>, pad: Byte, acc: RequestSequence, fuel: nat)
    requires |body| == ChunkSize
    requires Occurs(input, pos, ClientRecord(Stdin, requestId, body, pad)) && fuel > 0
    ensures pos + HeaderSize + ChunkSize + pad <= |input|
    ensures RunAt(input, pos, acc, fuel) == RunAt(input, pos + HeaderSize + ChunkSize + pad, acc.SetStdin(body), fuel - 1)
  {
    FullChunkStep(input, pos, requestId, body, pad, acc);
    RunContinues(input, pos, acc, fuel, pos + HeaderSize + ChunkSize + pad, acc.SetStdin(body), fuel - 1);
  }

  /** When a client sends a request with a STDIN body and then waits for the
      reply, and body, padding and the terminating record fit in one 4096-byte
      chunk, the body's chunk read takes the terminator too and the loop waits at
      the end of input: however many iterations run, the request is never handed
      off. This holds in the read model, where a read sees every byte the client
      has sent. What decides is the content length alone: a body of exactly 4096
      bytes is handed off whatever its padding (FullChunkHandsOff). */
  lemma RequestWithBodyHangs(requestId: int, ps: seq<NameValue>, pad: Byte, body: seq<Byte>, bodyPad: Byte,
                             acc: RequestSequence, fuel: nat)
    requires AllShort(ps) && |EncodePairs(ps)| < 0x1_0000
    requires 0 < |body| && |body| + bodyPad + HeaderSize <= ChunkSize
    ensures !RunAt(RequestWithBody(requestId, ps, pad, body, bodyPad), 0, acc, fuel).Handed?
  {
    var input := RequestWithBody(requestId, ps, pad, body, bodyPad);
    BodyLayout(requestId, ps, pad, body, bodyPad);
    HangsAfterPreamble(input, 0, requestId, ps, pad, acc, fuel);
  }

  /** Where the pieces of a request with a body lie, and the STDIN header. */
  lemma BodyLayout(requestId: int, ps: seq<NameValue>, pad: Byte, body: seq<Byte>, bodyPad: Byte)
    requires AllShort(ps) && |EncodePairs(ps)| < 0x1_0000
    requires 0 < |body| && |body| + bodyPad + HeaderSize <= ChunkSize
    ensures var input := RequestWithBody(requestId, ps, pad, body, bodyPad);
      var q := |Preamble(requestId, ps, pad)|;
      && Occurs(input, 0, Preamble(requestId, ps, pad))
      && q + HeaderSize < |input| <= q + HeaderSize + ChunkSize
      && var h := ReadHeaderAt(input, q).header;
      && h.typ == Stdin && 0 < ContentLength(h) <= ChunkSize
  {
    var input := RequestWithBody(requestId, ps, pad, body, bodyPad);
    var pre, s := Preamble(requestId, ps, pad), ClientRecord(Stdin, requestId, body, bodyPad);
    assert Occurs(input, 0, input) by {
      OccursIff(input, 0, input);
    }
    OccursConcat(input, 0, pre + s, Terminator(requestId), |pre| + |s|);
    OccursConcat(input, 0, pre, s, 0 + |pre|);
    RecordLayout(input, 0 + |pre|, Stdin, requestId, body, bodyPad);
  }

  /** After the preamble a STDIN record with content whose chunk reaches the end
      of input: the loop is never handed off. */
  lemma HangsAfterPreamble(input: seq<Byte>, pos: nat, requestId: int, ps: seq<NameValue>, pad: Byte, acc: RequestSequence, fuel: nat)
    requires AllShort(ps) && |EncodePairs(ps)| < 0x1_0000
    requires Occurs(input, pos, Preamble(requestId, ps, pad))
    requires var q := pos + |Preamble(requestId, ps, pad)|;
      && q + HeaderSize < |input| <= q + HeaderSize + ChunkSize
      && var h := ReadHeaderAt(input, q).header;
      && h.typ == Stdin && 0 < ContentLength(h) <= ChunkSize
    ensures !RunAt(input, pos, acc, fuel).Handed?
  {
    var f: nat := if fuel >= 3 then fuel else 3;
    StdinAfterPreamble(input, pos, requestId, ps, pad, acc, f);
    if fuel < 3 {
      EndIsFinal(input, pos, acc, fuel, f);
    }
  }

  /** The same, for runs long enough to get through the preamble. */
  lemma StdinAfterPreamble(input: seq<Byte>, pos: nat, requestId: int, ps: seq<NameValue>, pad: Byte, acc: RequestSequence, fuel: nat)
    requires AllShort(ps) && |EncodePairs(ps)| < 0x1_0000
    requires Occurs(input, pos, Preamble(requestId, ps, pad))
    requires var q := pos + |Preamble(requestId, ps, pad)|;
      && q + HeaderSize < |input| <= q + HeaderSize + ChunkSize
      && var h := ReadHeaderAt(input, q).header;
      && h.typ == Stdin && 0 < ContentLength(h) <= ChunkSize
    requires fuel >= 3
    ensures !RunAt(input, pos, acc, fuel).Handed?
  {
    PreambleRun(input, pos, requestId, ps, pad, acc, fuel);
    StdinSwallowsRest(input, pos + |Preamble(requestId, ps, pad)|, acc.(params := InsertAll(acc.params, ps)), fuel - 3);
  }
}
