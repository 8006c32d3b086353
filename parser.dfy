/** The per-connection record loop: read a header, act on its type, repeat, and
    hand the accumulated request off when a STDIN record with content length 0
    arrives.

    - BEGIN_REQUEST: the 8-byte body is read (role and flags are only logged; a
      read error is dropped) and its padding is not skipped.
    - PARAMS: name-value pairs are decoded while the declared content length is
      positive, then the padding is skipped.
    - DATA and STDIN: the content is read in 4096-byte chunks and replaces the
      DATA or STDIN buffer, then the padding is skipped.
    - ABORT_REQUEST and every other type: nothing is read; the `break` under
      ABORT_REQUEST leaves only the switch, not the loop.

    A header read error is dropped and leaves the zero header, whose type 0 falls
    into the no-op branch, so at the end of input the loop spins; the loop is
    therefore driven by a fuel bound. A read error inside PARAMS, DATA or STDIN
    panics; here that is the Crashed outcome. */
module Parser {
  import opened Wire
  import opened Net
  import opened Codec
  import opened Request

  // ---------------------------------------------------------------------------
  // Name-value lengths

  datatype LengthRead = LengthRead(value: nat, width: nat, next: nat, failed: bool)

  /** One name or value length: a byte whose high bit (c & 0x80) is clear is the
      length itself; otherwise it and the next three bytes are combined
      big-endian, high bit included, and contentLength is lowered by 4. */
  function ReadLengthAt(input: seq<Byte>, pos: nat): (r: LengthRead)
    requires pos <= |input|
    ensures pos <= r.next <= |input|
    ensures r.width >= 1
  {
    if pos == |input| then LengthRead(0, 1, pos, true)
    else if input[pos] < 0x80 then LengthRead(input[pos], 1, pos + 1, false)
    else
      var rest := ReadAt(input, pos + 1, 3);
      if rest.failed then LengthRead(0, 4, rest.next, true)
      else
        var value := (input[pos] as int) * 0x100_0000 + (rest.bytes[0] as int) * 0x1_0000
                     + (rest.bytes[1] as int) * 0x100 + rest.bytes[2];
        LengthRead(value, 4, rest.next, false)
  }

  method ReadLength(conn: Conn) returns (value: nat, width: nat, err: bool)
    requires conn.Valid()
    modifies conn`pos
    ensures conn.Valid()
    ensures ReadLengthAt(conn.input, old(conn.pos)) == LengthRead(value, width, conn.pos, err)
  {
    if conn.pos < |conn.input| {
      ReadWithin(conn.input, conn.pos, 1);
    }
    var c, e := conn.Read(1);
    if e {
      return 0, 1, true;
    }
    if c[0] >= 0x80 {
      var c3, e3 := conn.Read(3);
      if e3 {
        return 0, 4, true;
      }
      value := (c[0] as int) * 0x100_0000 + (c3[0] as int) * 0x1_0000 + (c3[1] as int) * 0x100 + c3[2];
      return value, 4, false;
    }
    value, width, err := c[0], 1, false;
  }

  /** The length encoding a client uses (section 3.4 of the FastCGI
      specification): one byte below 128, else four bytes big-endian with the
      high bit of the first one set as a marker. */
  function EncodeLength(n: nat): (b: seq<Byte>)
    requires n < 0x8000_0000
    ensures |b| == if n < 0x80 then 1 else 4
  {
    if n < 0x80 then [n]
    else [n / 0x100_0000 + 0x80, (n / 0x1_0000) % 0x100, (n / 0x100) % 0x100, n % 0x100]
  }

  lemma BigEndian(n: nat)
    requires n < 0x8000_0000
    ensures (n / 0x100_0000) * 0x100_0000 + ((n / 0x1_0000) % 0x100) * 0x1_0000
            + ((n / 0x100) % 0x100) * 0x100 + n % 0x100 == n
  {
    var a := n / 0x100;
    var b := a / 0x100;
    var c := b / 0x100;
    assert n == a * 0x100 + n % 0x100;
    assert a == b * 0x100 + a % 0x100;
    assert b == c * 0x100 + b % 0x100;
    assert n / 0x1_0000 == b;
    assert n / 0x100_0000 == c;
  }

  /** Decoding what a client encodes: a length below 128 comes back unchanged, but
      a four-byte length comes back with its marker bit still set, 2^31 too large. */
  lemma LengthRoundTrip(input: seq<Byte>, pos: nat, n: nat)
    requires n < 0x8000_0000
    requires Occurs(input, pos, EncodeLength(n))
    ensures ReadLengthAt(input, pos) ==
      LengthRead(if n < 0x80 then n else n + 0x8000_0000, |EncodeLength(n)|, pos + |EncodeLength(n)|, false)
  {
    var e := EncodeLength(n);
    assert input[pos + 0] == e[0];
    if n >= 0x80 {
      OccursPiece(input, pos, e, 1, 4);
      ReadOccurrence(input, pos + 1, e[1..4]);
      BigEndian(n);
    }
  }

  // ---------------------------------------------------------------------------
  // Name-value pairs

  datatype NameValue = NameValue(name: seq<Byte>, value: seq<Byte>)

  datatype PairRead = PairRead(name: seq<Byte>, value: seq<Byte>, consumed: int, next: nat, failed: bool)

  /** One pair: name length, value length, then that many name bytes and value
      bytes. `consumed` is what contentLength is lowered by: the prefix widths
      plus the two declared lengths. */
  function ReadPairAt(input: seq<Byte>, pos: nat): (r: PairRead)
    requires pos <= |input|
    ensures pos <= r.next <= |input|
    ensures r.failed ==> r.next == |input|
    ensures !r.failed ==> r.consumed >= 2 && |r.name| + |r.value| + 2 <= r.consumed
  {
    var nameLength := ReadLengthAt(input, pos);
    if nameLength.failed then PairRead([], [], 0, nameLength.next, true)
    else
      var valueLength := ReadLengthAt(input, nameLength.next);
      if valueLength.failed then PairRead([], [], 0, valueLength.next, true)
      else
        var name := ReadAt(input, valueLength.next, nameLength.value);
        if name.failed then PairRead([], [], 0, name.next, true)
        else
          var value := ReadAt(input, name.next, valueLength.value);
          if value.failed then PairRead([], [], 0, value.next, true)
          else
            PairRead(name.bytes, value.bytes,
                     nameLength.width + valueLength.width + nameLength.value + valueLength.value,
                     value.next, false)
  }

  type ParamMap = map<seq<Byte>, seq<Byte>>

  datatype ParamsRead = ParamsRead(params: ParamMap, next: nat, failed: bool)

  /** The PARAMS loop: while contentLength > 0, read a pair, lower contentLength
      by what the pair consumed and store the pair in the parameters. */
  function ReadParamsAt(input: seq<Byte>, pos: nat, contentLength: int, params: ParamMap): (r: ParamsRead)
    requires pos <= |input|
    ensures pos <= r.next <= |input|
    ensures r.failed ==> r.next == |input|
    decreases if contentLength <= 0 then 0 else contentLength, 1
  {
    if contentLength <= 0 then ParamsRead(params, pos, false)
    else ParamsAfterPair(input, contentLength, params, ReadPairAt(input, pos))
  }

  /** The rest of one turn of the PARAMS loop, once the pair has been read. */
  function ParamsAfterPair(input: seq<Byte>, contentLength: int, params: ParamMap, pair: PairRead): (r: ParamsRead)
    requires contentLength > 0
    requires pair.next <= |input| && (!pair.failed ==> pair.consumed >= 2)
    requires pair.failed ==> pair.next == |input|
    ensures pair.next <= r.next <= |input|
    ensures r.failed ==> r.next == |input|
    decreases contentLength, 0
  {
    if pair.failed then ParamsRead(params, pair.next, true)
    else ReadParamsAt(input, pair.next, contentLength - pair.consumed, params[pair.name := pair.value])
  }

  method ReadPair(conn: Conn) returns (name: seq<Byte>, value: seq<Byte>, consumed: int, err: bool)
    requires conn.Valid()
    modifies conn`pos
    ensures conn.Valid()
    ensures ReadPairAt(conn.input, old(conn.pos)) == PairRead(name, value, consumed, conn.pos, err)
  {
    var nameLength, nameWidth, e := ReadLength(conn);
    if e {
      return [], [], 0, true;
    }
    var valueLength, valueWidth, e2 := ReadLength(conn);
    if e2 {
      return [], [], 0, true;
    }
    var e3, e4;
    name, e3 := conn.Read(nameLength);
    if e3 {
      return [], [], 0, true;
    }
    value, e4 := conn.Read(valueLength);
    if e4 {
      return [], [], 0, true;
    }
    consumed, err := nameWidth + valueWidth + nameLength + valueLength, false;
  }

  /** One turn of the PARAMS loop: a pair read successfully is stored and the
      loop goes on from after it with `left` = contentLength - consumed. */
  lemma ParamsContinue(input: seq<Byte>, pos: nat, contentLength: int, params: ParamMap,
                        name: seq<Byte>, value: seq<Byte>, consumed: int, next: nat, left: int)
    requires pos <= |input| && contentLength > 0
    requires ReadPairAt(input, pos) == PairRead(name, value, consumed, next, false)
    requires left == contentLength - consumed
    ensures next <= |input|
    ensures ReadParamsAt(input, pos, contentLength, params) == ReadParamsAt(input, next, left, params[name := value])
  {
  }

  /** The PARAMS loop over the connection: only the parameters of the
      accumulator change. */
  method ReadParams(conn: Conn, contentLength: int, acc: RequestSequence) returns (result: RequestSequence, err: bool)
    requires conn.Valid()
    modifies conn`pos
    ensures conn.Valid()
    ensures ReadParamsAt(conn.input, old(conn.pos), contentLength, acc.params) == ParamsRead(result.params, conn.pos, err)
    ensures result == acc.(params := result.params)
  {
    result := acc;
    var remaining := contentLength;
    while remaining > 0
      invariant conn.Valid()
      invariant ReadParamsAt(conn.input, old(conn.pos), contentLength, acc.params)
        == ReadParamsAt(conn.input, conn.pos, remaining, result.params)
      invariant result == acc.(params := result.params)
      decreases remaining
    {
      var left, after, e := ParamsTurn(conn, remaining, result);
      if e {
        return result, true;
      }
      remaining, result := left, after;
    }
    err := false;
  }

  /** One turn of the PARAMS loop: read a pair (the source has the two length
      reads written out inline), lower contentLength, add the pair. */
  method ParamsTurn(conn: Conn, remaining: int, acc: RequestSequence) returns (left: int, result: RequestSequence, err: bool)
    requires conn.Valid() && remaining > 0
    modifies conn`pos
    ensures conn.Valid()
    ensures result == acc.(params := result.params)
    ensures err ==> ReadParamsAt(conn.input, old(conn.pos), remaining, acc.params) == ParamsRead(acc.params, conn.pos, true)
    ensures !err ==> left < remaining
    ensures !err ==> ReadParamsAt(conn.input, old(conn.pos), remaining, acc.params)
                     == ReadParamsAt(conn.input, conn.pos, left, result.params)
  {
    ghost var before := conn.pos;
    var name, value, consumed, e := ReadPair(conn);
    if e {
      return remaining, acc, true;
    }
    ParamsContinue(conn.input, before, remaining, acc.params, name, value, consumed, conn.pos, remaining - consumed);
    left, result, err := remaining - consumed, acc.AddParams(name, value), false;
  }

  predicate Short(p: NameValue)
  {
    |p.name| < 0x80 && |p.value| < 0x80
  }

  predicate Encodable(p: NameValue)
  {
    |p.name| < 0x8000_0000 && |p.value| < 0x8000_0000
  }

  function EncodePair(p: NameValue): seq<Byte>
    requires Encodable(p)
  {
    EncodeLength(|p.name|) + EncodeLength(|p.value|) + p.name + p.value
  }

  /** The same encoding when both lengths are below 128: one byte each. */
  function EncodeShortPair(p: NameValue): (b: seq<Byte>)
    requires Short(p)
    ensures |b| == 2 + |p.name| + |p.value|
  {
    [|p.name|, |p.value|] + p.name + p.value
  }

  predicate AllShort(ps: seq<NameValue>)
  {
    forall i :: 0 <= i < |ps| ==> Short(ps[i])
  }

  function EncodePairs(ps: seq<NameValue>): seq<Byte>
    requires AllShort(ps)
  {
    if ps == [] then [] else EncodeShortPair(ps[0]) + EncodePairs(ps[1..])
  }

  /** The parameters after adding the pairs in order. */
  function InsertAll(params: ParamMap, ps: seq<NameValue>): ParamMap
    decreases |ps|
  {
    if ps == [] then params else InsertAll(params[ps[0].name := ps[0].value], ps[1..])
  }

  /** Where a short pair's encoding occurs: its two one-byte lengths, then the
      name, then the value. */
  lemma ShortPairLayout(input: seq<Byte>, pos: nat, p: NameValue)
    requires Short(p)
    requires Occurs(input, pos, EncodeShortPair(p))
    ensures input[pos] == |p.name| && input[pos + 1] == |p.value|
    ensures Occurs(input, pos + 2, p.name) && Occurs(input, pos + 2 + |p.name|, p.value)
  {
    var e := EncodeShortPair(p);
    var n := |p.name|;
    OccursAt(input, pos, e, 1);
    OccursPiece(input, pos, e, 2, 2 + n);
    assert e[2..2 + n] == p.name;
    OccursPiece(input, pos, e, 2 + n, |e|);
    assert e[2 + n..|e|] == p.value;
  }

  /** A pair with short name and value is read back exactly. */
  lemma PairRoundTrip(input: seq<Byte>, pos: nat, p: NameValue)
    requires Short(p)
    requires Occurs(input, pos, EncodeShortPair(p))
    ensures ReadPairAt(input, pos) == PairRead(p.name, p.value, |EncodeShortPair(p)|, pos + |EncodeShortPair(p)|, false)
  {
    ShortPairLayout(input, pos, p);
    ReadOccurrence(input, pos + 2, p.name);
    ReadOccurrence(input, pos + 2 + |p.name|, p.value);
  }

  /** A name of 128 bytes or more, encoded as a client does, is read as 2^31 bytes
      longer; the name read then runs to the end of input, and the read of a
      non-empty value fails there, so the pair crashes the loop. */
  lemma LongNameFails(input: seq<Byte>, pos: nat, p: NameValue)
    requires Encodable(p) && 0x80 <= |p.name| && |p.value| > 0
    requires |input| < 0x8000_0000
    requires Occurs(input, pos, EncodePair(p))
    ensures ReadPairAt(input, pos).failed
  {
    var e := EncodePair(p);
    var n, v := |p.name|, |p.value|;
    var wv := |EncodeLength(v)|;
    assert ReadLengthAt(input, pos) == LengthRead(n + 0x8000_0000, 4, pos + 4, false) by {
      OccursPiece(input, pos, e, 0, 4);
      assert e[0..4] == EncodeLength(n);
      LengthRoundTrip(input, pos, n);
    }
    assert ReadLengthAt(input, pos + 4) == LengthRead(if v < 0x80 then v else v + 0x8000_0000, wv, pos + 4 + wv, false) by {
      OccursPiece(input, pos, e, 4, 4 + wv);
      assert e[4..4 + wv] == EncodeLength(v);
      LengthRoundTrip(input, pos + 4, v);
    }
    var name := ReadAt(input, pos + 4 + wv, n + 0x8000_0000);
    assert name.next == |input|;
  }

  /** Pairs with short names and values, packed into one content of exactly their
      length, are read back in order and nothing more is consumed. */
  lemma {:induction false} ParamsRoundTrip(input: seq<Byte>, pos: nat, ps: seq<NameValue>, params: ParamMap)
    requires AllShort(ps)
    requires Occurs(input, pos, EncodePairs(ps))
    ensures ReadParamsAt(input, pos, |EncodePairs(ps)|, params) == ParamsRead(InsertAll(params, ps), pos + |EncodePairs(ps)|, false)
    decreases |ps|
  {
    if ps != [] {
      var first, rest := EncodeShortPair(ps[0]), EncodePairs(ps[1..]);
      var after := params[ps[0].name := ps[0].value];
      var mid := pos + |first|;
      PairsLayout(input, pos, ps);
      assert ReadParamsAt(input, mid, |rest|, after) == ParamsRead(InsertAll(after, ps[1..]), mid + |rest|, false) by {
        ParamsRoundTrip(input, mid, ps[1..], after);
      }
      assert ReadPairAt(input, pos) == PairRead(ps[0].name, ps[0].value, |first|, mid, false) by {
        PairRoundTrip(input, pos, ps[0]);
      }
      ParamsCons(input, pos, |EncodePairs(ps)|, params, ps[0].name, ps[0].value, |first|, mid, |rest|,
                 InsertAll(after, ps[1..]), mid + |rest|);
    }
  }

  /** A pair read successfully, followed by the rest of the PARAMS loop. */
  lemma ParamsCons(input: seq<Byte>, pos: nat, contentLength: int, params: ParamMap,
                   name: seq<Byte>, value: seq<Byte>, consumed: int, next: nat, left: int,
                   result: ParamMap, end: nat)
    requires pos <= |input| && next <= |input| && contentLength > 0 && left == contentLength - consumed
    requires ReadPairAt(input, pos) == PairRead(name, value, consumed, next, false)
    requires ReadParamsAt(input, next, left, params[name := value]) == ParamsRead(result, end, false)
    ensures ReadParamsAt(input, pos, contentLength, params) == ParamsRead(result, end, false)
  {
    ParamsContinue(input, pos, contentLength, params, name, value, consumed, next, left);
  }

  /** Where a list of short pairs occurs: the first pair, then the others. */
  lemma PairsLayout(input: seq<Byte>, pos: nat, ps: seq<NameValue>)
    requires AllShort(ps) && ps != []
    requires Occurs(input, pos, EncodePairs(ps))
    ensures AllShort(ps[1..])
    ensures |EncodePairs(ps)| == |EncodeShortPair(ps[0])| + |EncodePairs(ps[1..])|
    ensures Occurs(input, pos, EncodeShortPair(ps[0]))
    ensures Occurs(input, pos + |EncodeShortPair(ps[0])|, EncodePairs(ps[1..]))
  {
    var e, first, rest := EncodePairs(ps), EncodeShortPair(ps[0]), EncodePairs(ps[1..]);
    assert e == first + rest;
    assert AllShort(ps[1..]) by {
      forall i | 0 <= i < |ps[1..]| ensures Short(ps[1..][i]) { assert ps[1..][i] == ps[i + 1]; }
    }
    OccursPiece(input, pos, e, 0, |first|);
    assert e[0..|first|] == first;
    OccursPiece(input, pos, e, |first|, |e|);
    assert e[|first|..|e|] == rest;
  }

  // ---------------------------------------------------------------------------
  // One iteration of the record loop

  datatype Progress =
    | Continue(next: nat, acc: RequestSequence)
    | Complete(next: nat, acc: RequestSequence)
    | Failed(next: nat)

  /** One iteration: read a header, then act on the record it announces. */
  function StepAt(input: seq<Byte>, pos: nat, acc: RequestSequence): (s: Progress)
    requires pos <= |input|
    ensures pos <= s.next <= |input|
  {
    var hr := ReadHeaderAt(input, pos);
    RecordAt(input, hr.next, hr.header, acc)
  }

  /** The switch on the record type, with the cursor just past the header. */
  function RecordAt(input: seq<Byte>, pos: nat, h: Header, acc: RequestSequence): (s: Progress)
    requires pos <= |input|
    ensures pos <= s.next <= |input|
  {
    if h.typ == Stdin && ContentLength(h) == 0 then
      Complete(pos, acc.SetRequestId(ParsedRequestId(h)))
    else if h.typ == BeginRequest then
      Continue(ReadBeginRequestBodyAt(input, pos).next, acc)
    else if h.typ == Params then
      ParamsRecordAt(input, pos, h, acc)
    else if h.typ == Data || h.typ == Stdin then
      ContentRecordAt(input, pos, h, acc)
    else
      Continue(pos, acc)
  }

  /** A PARAMS record: the pairs, then the padding. */
  function ParamsRecordAt(input: seq<Byte>, pos: nat, h: Header, acc: RequestSequence): (s: Progress)
    requires pos <= |input|
    ensures pos <= s.next <= |input|
  {
    var p := ReadParamsAt(input, pos, ContentLength(h), acc.params);
    if p.failed then Failed(p.next)
    else Continue(SkipPaddingAt(input, p.next, h.paddingLength).next, acc.(params := p.params))
  }

  /** A DATA or STDIN record with content: the content replaces the DATA or
      STDIN buffer, then the padding is skipped. */
  function ContentRecordAt(input: seq<Byte>, pos: nat, h: Header, acc: RequestSequence): (s: Progress)
    requires pos <= |input|
    ensures pos <= s.next <= |input|
  {
    var d := ReadChunksAt(input, pos, ContentLength(h));
    if d.failed then Failed(d.next)
    else
      var next := SkipPaddingAt(input, d.next, h.paddingLength).next;
      if h.typ == Data then Continue(next, acc.SetData(d.data)) else Continue(next, acc.SetStdin(d.data))
  }

  method Step(conn: Conn, acc: RequestSequence) returns (s: Progress)
    requires conn.Valid()
    modifies conn`pos
    ensures conn.Valid()
    ensures s == StepAt(conn.input, old(conn.pos), acc) && conn.pos == s.next
  {
    var h, _ := ReadHeader(conn);
    s := Record(conn, h, acc);
  }

  method Record(conn: Conn, h: Header, acc: RequestSequence) returns (s: Progress)
    requires conn.Valid()
    modifies conn`pos
    ensures conn.Valid()
    ensures s == RecordAt(conn.input, old(conn.pos), h, acc) && conn.pos == s.next
  {
    var contentLength := (h.contentLengthB1 as int) * 256 + h.contentLengthB0;
    if h.typ == Stdin && contentLength == 0 {
      return Complete(conn.pos, acc.SetRequestId(ParsedRequestId(h)));
    }
    if h.typ == BeginRequest {
      var _, _ := ReadBeginRequestBody(conn);
      s := Continue(conn.pos, acc);
    } else if h.typ == Params {
      s := ParamsRecord(conn, h, acc);
    } else if h.typ == Data || h.typ == Stdin {
      s := ContentRecord(conn, h, acc);
    } else {
      s := Continue(conn.pos, acc);
    }
  }

  method ParamsRecord(conn: Conn, h: Header, acc: RequestSequence) returns (s: Progress)
    requires conn.Valid()
    modifies conn`pos
    ensures conn.Valid()
    ensures s == ParamsRecordAt(conn.input, old(conn.pos), h, acc) && conn.pos == s.next
  {
    var contentLength := (h.contentLengthB1 as int) * 256 + h.contentLengthB0;
    var result, err := ReadParams(conn, contentLength, acc);
    if err {
      return Failed(conn.pos);
    }
    var _ := SkipPadding(conn, h.paddingLength);
    s := Continue(conn.pos, result);
  }

  method ContentRecord(conn: Conn, h: Header, acc: RequestSequence) returns (s: Progress)
    requires conn.Valid()
    modifies conn`pos
    ensures conn.Valid()
    ensures s == ContentRecordAt(conn.input, old(conn.pos), h, acc) && conn.pos == s.next
  {
    var contentLength := (h.contentLengthB1 as int) * 256 + h.contentLengthB0;
    var data, err := ReadChunks(conn, contentLength);
    if err {
      return Failed(conn.pos);
    }
    var _ := SkipPadding(conn, h.paddingLength);
    if h.typ == Data {
      s := Continue(conn.pos, acc.SetData(data));
    } else {
      s := Continue(conn.pos, acc.SetStdin(data));
    }
  }

  // ---------------------------------------------------------------------------
  // The loop

  datatype Outcome =
    | Handed(next: nat, request: RequestSequence)
    | Crashed(next: nat)
    | Pending(next: nat, acc: RequestSequence)

  /** At most `fuel` iterations of the loop. */
  function RunAt(input: seq<Byte>, pos: nat, acc: RequestSequence, fuel: nat): (o: Outcome)
    requires pos <= |input|
    ensures pos <= o.next <= |input|
    decreases fuel, 2
  {
    if fuel == 0 then Pending(pos, acc) else IterateAt(input, pos, acc, fuel)
  }

  /** One iteration: read the header, then handle the record and go on. */
  function IterateAt(input: seq<Byte>, pos: nat, acc: RequestSequence, fuel: nat): (o: Outcome)
    requires pos <= |input| && fuel > 0
    ensures pos <= o.next <= |input|
    decreases fuel, 1
  {
    var hr := ReadHeaderAt(input, pos);
    HandleAt(input, hr.next, hr.header, acc, fuel)
  }

  /** The record whose header is `h`, then at most `fuel - 1` more iterations. */
  function HandleAt(input: seq<Byte>, pos: nat, h: Header, acc: RequestSequence, fuel: nat): (o: Outcome)
    requires pos <= |input| && fuel > 0
    ensures pos <= o.next <= |input|
    decreases fuel, 0
  {
    match RecordAt(input, pos, h, acc)
    case Complete(next, a) => Handed(next, a)
    case Failed(next) => Crashed(next)
    case Continue(next, a) => RunAt(input, next, a, fuel - 1)
  }

  /** An iteration is a step of the loop followed by the rest of the run. */
  lemma RunUnfolds(input: seq<Byte>, pos: nat, acc: RequestSequence, fuel: nat)
    requires pos <= |input| && fuel > 0
    ensures RunAt(input, pos, acc, fuel) == match StepAt(input, pos, acc)
      case Complete(next, a) => Handed(next, a)
      case Failed(next) => Crashed(next)
      case Continue(next, a) => RunAt(input, next, a, fuel - 1)
  {
    var hr := ReadHeaderAt(input, pos);
    assert RunAt(input, pos, acc, fuel) == HandleAt(input, hr.next, hr.header, acc, fuel);
  }

  /** An iteration that goes on leaves one iteration fewer for the rest. */
  lemma RunContinues(input: seq<Byte>, pos: nat, acc: RequestSequence, fuel: nat, next: nat, a: RequestSequence, rest: nat)
    requires pos <= |input| && fuel > 0 && rest == fuel - 1
    requires StepAt(input, pos, acc) == Continue(next, a)
    ensures next <= |input|
    ensures RunAt(input, pos, acc, fuel) == RunAt(input, next, a, rest)
  {
    RunUnfolds(input, pos, acc, fuel);
  }

  /** An iteration that completes hands the accumulator off. */
  lemma RunCompletes(input: seq<Byte>, pos: nat, acc: RequestSequence, fuel: nat, next: nat, a: RequestSequence)
    requires pos <= |input| && fuel > 0
    requires StepAt(input, pos, acc) == Complete(next, a)
    ensures RunAt(input, pos, acc, fuel) == Handed(next, a)
  {
    RunUnfolds(input, pos, acc, fuel);
  }

  /** Once the loop has handed off or crashed, more iterations change nothing. */
  lemma {:induction false} EndIsFinal(input: seq<Byte>, pos: nat, acc: RequestSequence, fuel: nat, more: nat)
    requires pos <= |input| && fuel <= more
    ensures !RunAt(input, pos, acc, fuel).Pending? ==> RunAt(input, pos, acc, more) == RunAt(input, pos, acc, fuel)
    decreases fuel
  {
    if fuel > 0 {
      RunUnfolds(input, pos, acc, fuel);
      RunUnfolds(input, pos, acc, more);
      var s := StepAt(input, pos, acc);
      if s.Continue? {
        EndIsFinal(input, s.next, s.acc, fuel - 1, more - 1);
      }
    }
  }

  /** The inner loop of the connection worker, from a fresh accumulator. */
  method ServeConnection(conn: Conn, fuel: nat) returns (o: Outcome)
    requires conn.Valid()
    modifies conn`pos
    ensures conn.Valid()
    ensures o == RunAt(conn.input, old(conn.pos), NewRequestSequence(conn), fuel) && conn.pos == o.next
  {
    var acc := NewRequestSequence(conn);
    var left := fuel;
    while left > 0
      invariant conn.Valid()
      invariant RunAt(conn.input, old(conn.pos), NewRequestSequence(conn), fuel)
        == RunAt(conn.input, conn.pos, acc, left)
    {
      ghost var before := conn.pos;
      var s := Step(conn, acc);
      RunUnfolds(conn.input, before, acc, left);
      if s.Complete? {
        return Handed(conn.pos, s.acc);
      } else if s.Failed? {
        return Crashed(conn.pos);
      }
      acc := s.acc;
      left := left - 1;
    }
    o := Pending(conn.pos, acc);
  }

  // ---------------------------------------------------------------------------
  // Properties of the loop

  /** The first byte of a length decides its width: below 128 it is the length;
      otherwise four bytes are combined with the high bit kept, so the value is at
      least 2^31; a marker byte that ends the input makes the read fail. */
  lemma LengthPrefix(input: seq<Byte>, pos: nat)
    requires pos < |input|
    ensures var r := ReadLengthAt(input, pos);
      && (input[pos] < 0x80 ==> r == LengthRead(input[pos], 1, pos + 1, false))
      && (input[pos] >= 0x80 && pos + 4 <= |input| ==>
            && r == LengthRead((input[pos] as int) * 0x100_0000 + (input[pos + 1] as int) * 0x1_0000
                               + (input[pos + 2] as int) * 0x100 + input[pos + 3], 4, pos + 4, false)
            && r.value >= 0x8000_0000)
      && (input[pos] >= 0x80 && pos + 1 == |input| ==> r.failed)
  {
    if input[pos] >= 0x80 && pos + 4 <= |input| {
      ReadWithin(input, pos + 1, 3);
    }
  }

  /** What a pair lowers contentLength by is never less than the bytes it took from
      the input, and is exactly that unless the pair ran into the end of input. */
  lemma PairConsumed(input: seq<Byte>, pos: nat)
    requires pos <= |input|
    ensures var r := ReadPairAt(input, pos);
      !r.failed ==> r.next - pos <= r.consumed && (r.next < |input| ==> r.next - pos == r.consumed)
  {
  }

  /** The loop ends exactly on a STDIN header with content length 0, and then hands
      off the accumulator with only the identifier changed, to the low byte of the
      header's 16-bit identifier; the cursor stays just past the header. */
  lemma StepCompletesIff(input: seq<Byte>, pos: nat, acc: RequestSequence)
    requires pos <= |input|
    ensures var hr := ReadHeaderAt(input, pos);
      var s := StepAt(input, pos, acc);
      && (s.Complete? <==> hr.header.typ == Stdin && ContentLength(hr.header) == 0)
      && (s.Complete? ==> s == Complete(hr.next, acc.(requestId := FullRequestId(hr.header) % 256)))
  {
    var hr := ReadHeaderAt(input, pos);
    assert StepAt(input, pos, acc) == RecordAt(input, hr.next, hr.header, acc);
    assert ParsedRequestId(hr.header) == FullRequestId(hr.header) % 256;
  }

  /** ABORT_REQUEST and every type other than BEGIN_REQUEST, PARAMS, DATA and STDIN
      read nothing past the header and leave the accumulator alone. */
  lemma StepIgnoresOtherTypes(input: seq<Byte>, pos: nat, acc: RequestSequence)
    requires pos <= |input|
    ensures var hr := ReadHeaderAt(input, pos);
      hr.header.typ !in {BeginRequest, Params, Data, Stdin} ==> StepAt(input, pos, acc) == Continue(hr.next, acc)
  {
  }

  /** Only PARAMS, DATA and STDIN records can crash the loop, and only by running
      into the end of input. */
  lemma StepFailsOnlyAtEnd(input: seq<Byte>, pos: nat, acc: RequestSequence)
    requires pos <= |input|
    ensures var s := StepAt(input, pos, acc);
      s.Failed? ==> s.next == |input| && ReadHeaderAt(input, pos).header.typ in {Params, Data, Stdin}
  {
  }

  /** At the end of input the header read fails, the zero header has type 0, and
      the iteration does nothing. */
  lemma StepAtEndOfInput(input: seq<Byte>, acc: RequestSequence)
    ensures StepAt(input, |input|, acc) == Continue(|input|, acc)
  {
    assert ReadHeaderAt(input, |input|) == HeaderRead(ZeroHeader, |input|, true);
  }

  /** Once the input is used up the loop spins without end: whatever the fuel, it
      neither hands off nor crashes, and nothing changes. */
  lemma {:induction false} RunSpinsAtEndOfInput(input: seq<Byte>, acc: RequestSequence, fuel: nat)
    ensures RunAt(input, |input|, acc, fuel) == Pending(|input|, acc)
    decreases fuel
  {
    if fuel > 0 {
      StepAtEndOfInput(input, acc);
      RunUnfolds(input, |input|, acc, fuel);
      RunSpinsAtEndOfInput(input, acc, fuel - 1);
    }
  }

  /** The header at p is a terminator the loop hands off on, leaving the cursor at
      next with identifier requestId. */
  predicate HandsOffAt(input: seq<Byte>, p: nat, next: nat, requestId: int)
    requires p <= |input|
  {
    var hr := ReadHeaderAt(input, p);
    hr.header.typ == Stdin && ContentLength(hr.header) == 0 && next == hr.next && requestId == hr.header.requestIdB0
  }

  /** A hand-off always follows a STDIN header with content length 0 somewhere at
      or after the start, before the end of input, and carries the low byte of
      that header's identifier. */
  lemma {:induction false} HandOffFollowsTerminator(input: seq<Byte>, pos: nat, acc: RequestSequence, fuel: nat)
    requires pos <= |input|
    ensures var o := RunAt(input, pos, acc, fuel);
      o.Handed? ==> exists p :: pos <= p < |input| && HandsOffAt(input, p, o.next, o.request.requestId)
    decreases fuel
  {
    var o := RunAt(input, pos, acc, fuel);
    if fuel > 0 && o.Handed? {
      RunUnfolds(input, pos, acc, fuel);
      var s := StepAt(input, pos, acc);
      if s.Continue? {
        HandOffFollowsTerminator(input, s.next, s.acc, fuel - 1);
      } else {
        StepCompletesIff(input, pos, acc);
        assert HandsOffAt(input, pos, o.next, o.request.requestId);
      }
    }
  }

  /** A DATA or STDIN record whose content is at most one chunk: the buffer becomes
      the 4096 bytes after the header, zero-filled past the end of input, whatever
      the declared length, and the loop goes on after that chunk and paddingLength
      more bytes, or at the end of input if that comes first. */
  lemma ContentStep(input: seq<Byte>, pos: nat, acc: RequestSequence)
    requires pos + HeaderSize < |input|
    requires var h := ReadHeaderAt(input, pos).header;
      (h.typ == Data || h.typ == Stdin) && 0 < ContentLength(h) <= ChunkSize
    ensures var h := ReadHeaderAt(input, pos).header;
      var start := pos + HeaderSize;
      var end := Min(start + ChunkSize, |input|);
      var chunk := input[start..end] + Zeros(start + ChunkSize - end);
      var s := StepAt(input, pos, acc);
      && s.Continue? && s.next == Min(end + h.paddingLength, |input|)
      && s.acc == (if h.typ == Data then acc.SetData(chunk) else acc.SetStdin(chunk))
  {
    var start := pos + HeaderSize;
    HeaderBytes(input, pos);
    ReadContent(input, start, ChunkSize);
    var h := ReadHeaderAt(input, pos).header;
    assert Iterations(ContentLength(h)) == 1;
    ChunksSucceedIff(input, start, ContentLength(h));
    ChunksAsOneRead(input, start, ContentLength(h));
  }

  /** A STDIN record with content, when what follows its header fits in one chunk,
      swallows the rest of the input, the terminating empty STDIN record included:
      the loop never hands off. */
  lemma StdinSwallowsRest(input: seq<Byte>, pos: nat, acc: RequestSequence, fuel: nat)
    requires pos + HeaderSize < |input| <= pos + HeaderSize + ChunkSize
    requires var h := ReadHeaderAt(input, pos).header;
      h.typ == Stdin && 0 < ContentLength(h) <= ChunkSize
    ensures !RunAt(input, pos, acc, fuel).Handed?
  {
    if fuel > 0 {
      ContentStep(input, pos, acc);
      var s := StepAt(input, pos, acc);
      assert s.next == |input|;
      RunContinues(input, pos, acc, fuel, s.next, s.acc, fuel - 1);
      RunSpinsAtEndOfInput(input, s.acc, fuel - 1);
    }
  }
}
