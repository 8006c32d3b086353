# FastCGI responder: record codec, record loop and response framing

This project models the server side of a small FastCGI responder written in Go,
and proves properties of that model. It covers three parts:

- **The record codec** (`fcgi_utils.go`), in `Wire` and `Codec`. It covers:
  - the 8-byte record header, the BEGIN_REQUEST body and the END_REQUEST record;
  - the STDIN and DATA readers, which read content in 4096-byte chunks;
  - the padding skip;
  - the STDOUT writer with its 8-byte alignment padding, and the END_REQUEST writer.
- **The request accumulator and the per-connection record loop** (`fcgi.go`), in
  `Request` and `Parser`. The loop:
  - reads a header and switches on the record type;
  - decodes PARAMS name-value pairs with 1- or 4-byte length prefixes;
  - replaces the DATA or STDIN buffer;
  - stops when it reads a STDIN header with content length 0.
- **The standard STDOUT handler** (`fcgi_handler.go`), in `Handler`. It writes a
  fixed HTML reply as three records, then closes the connection. `Handle` takes
  the request's connection and identifier. Apart from printing the whole
  accumulator, these are the only fields of it that the Go handler uses.

`Net` models the connection. The peer's bytes are a fixed sequence with a read
cursor, and the sending side is an output sequence, a byte budget and a closed
flag:

- A read into a k-byte buffer takes min(k, remaining) bytes and leaves the rest
  of the buffer zero. It fails exactly when k > 0 and the input is used up.
- A write fails when the connection is closed or the bytes exceed the budget. A
  failed write delivers nothing.

Only `Read`, `Write` and `Close` are methods of the `Conn` class. Every other
operation that reads or writes the connection is a module method that takes a
`Conn`, and its postcondition equates its result and the new cursor or
sending side to a function of the old state. The lemmas are stated about those
functions. `Client` lays out records the way a FastCGI client sends them and
proves what the loop makes of whole requests.

The model follows the code, including where it departs from the FastCGI
specification. Lemmas state each departure:

- The loop computes the request identifier in byte arithmetic, so only its low
  byte survives.
- A 4-byte name or value length keeps its marker bit, which makes it 2^31 too
  large.
- The END_REQUEST header declares a content length of 2048 for its 8-byte body.
- A BEGIN_REQUEST record's padding is not skipped.
- ABORT_REQUEST is a no-op.
- Each STDIN or DATA record replaces the earlier buffer instead of adding to it.
- The chunk readers always read whole 4096-byte buffers, and the padding is
  skipped after them. A DATA or STDIN record with content length L therefore
  takes 4096·⌈L/4096⌉ − L bytes past its own end, whatever its padding, and the
  next header is read at its boundary only when L is a multiple of 4096. In the
  read model, where a read sees every byte the client has sent, a request with a
  short body whose terminating record falls within that range is never handed
  off. A body of exactly 4096 bytes is handed off whatever its padding.

## Model

| member | source | states |
|---|---|---|
| Wire.Zeros | fcgi_utils.go:284 | a freshly made buffer of n bytes holds n zeros |
| Wire.EncodeHeader | fcgi_utils.go:30-39 | a header is laid out as exactly 8 bytes |
| Wire.DecodeHeader | fcgi_utils.go:167 | reinterpreting 8 bytes as a header is undone by the layout: encoding the decoded header gives the same bytes |
| Wire.HeaderRoundTrip | fcgi_utils.go:30-39 | decoding the layout of a header gives the header back |
| Wire.ContentLength | fcgi.go:102 | contentLength is below 2^16, with contentLengthB0 as its low byte and contentLengthB1 as its high byte |
| Wire.FullRequestId | fcgi_utils.go:33-34 | the two identifier bytes carry a 16-bit identifier, high byte first |
| Wire.ParsedRequestId | fcgi.go:103 | the identifier the loop computes is requestIdB0 alone, the full identifier modulo 256 |
| Wire.DecodeBeginRequestBody | fcgi_utils.go:42-47 | the role is bytes 0-1 big-endian and the flags are byte 2; the body keeps all 8 bytes in order |
| Wire.BeginRequestIgnoresReserved | fcgi_utils.go:42-47 | two bodies that agree on their first 3 bytes have the same role and flags |
| Wire.Padding | fcgi_utils.go:261-265 | the padding is below 8, aligns length + padding to 8, and is 0 exactly when the length is already aligned |
| Wire.PaddingIsLeast | fcgi_utils.go:261-265 | no smaller padding aligns the record |
| Wire.OutgoingRequestId | fcgi_utils.go:256-257 | the identifier bytes of an outgoing header carry the identifier modulo 2^16 |
| Wire.StdoutHeader | fcgi_utils.go:253-265 | the STDOUT header is built as WriteFcgStdout builds it; Wire.StdoutHeaderFields and Wire.OutgoingRequestId state that it carries the identifier and the body length modulo 2^16, and Wire.Padding states its padding |
| Wire.StdoutRecord | fcgi_utils.go:251-289 | the bytes of a STDOUT record: header, body, padding zeros; Wire.StdoutRecordLayout states its layout and that its length is a multiple of 8 |
| Wire.StdoutHeaderFields | fcgi_utils.go:253-265 | an outgoing STDOUT header carries the identifier and the body length, each modulo 2^16 |
| Wire.StdoutRecordLayout | fcgi_utils.go:251-289 | a STDOUT record is a version-1 STDOUT header with the identifier, the length and the padding, then the unchanged body, then zeros; its length is a multiple of 8 |
| Wire.EndRequestHeader | fcgi_utils.go:293-305 | the END_REQUEST header as WriteFcgiEndRequest builds it; Wire.EndRequestRecordLayout states its fields, including the declared content length 2048 |
| Wire.EndRequestRecord | fcgi_utils.go:292-315 | the 16 bytes of the END_REQUEST record; Wire.EndRequestRecordLayout states its header and body |
| Wire.EndRequestRecordLayout | fcgi_utils.go:292-315 | the END_REQUEST record is 16 bytes: a version-1 header with the identifier, declared content length 2048 and no padding, then appStatus 0 and REQUEST_COMPLETE |
| Net.ReadAt | fcgi_utils.go:162-163 | a read fills the whole buffer and moves the cursor forward without passing the end of input |
| Net.ReadContent | fcgi_utils.go:162-163 | the buffer holds the consumed input bytes followed by zeros |
| Net.ReadWithin | fcgi_utils.go:162-163 | a read that fits in the remaining input returns exactly the next k bytes, without error |
| Net.PutAt | fcgi_utils.go:269 | a write fails exactly when the connection is closed or the bytes do not fit; on failure nothing changes, and otherwise the bytes are appended |
| Net.Conn.constructor | fcgi.go:96 | a new connection has its cursor at the start, has sent nothing and is open |
| Net.Conn.Read | fcgi_utils.go:162-163 | the read returns the buffer, the error and the new cursor that ReadAt gives |
| Net.Conn.Write | fcgi_utils.go:269 | the new sending side and the error are what PutAt gives |
| Net.Conn.Close | fcgi_handler.go:41 | the connection is closed afterwards |
| Request.NewRequestSequence | fcgi.go:17-22 | a fresh accumulator keeps the connection and has identifier 0, no parameters and empty DATA and STDIN |
| Request.RequestSequence.SetRequestId | fcgi.go:24-28 | only the identifier changes |
| Request.RequestSequence.AddParams | fcgi.go:30-34 | the key maps to the value, the key set grows by the key, other keys keep their values and the other fields do not change |
| Request.RequestSequence.SetData | fcgi.go:36-41 | the DATA buffer becomes the given bytes and nothing else changes |
| Request.RequestSequence.SetStdin | fcgi.go:43-48 | the STDIN buffer becomes the given bytes and nothing else changes |
| Request.LastParamWins | fcgi.go:30-34 | when a key is added twice, the value added last wins |
| Request.ParamsCommute | fcgi.go:30-34 | distinct keys can be added in either order |
| Request.LastBufferWins | fcgi.go:36-48 | of two STDIN or two DATA payloads only the last remains, not their concatenation |
| Codec.ReadHeaderAt | fcgi_utils.go:160-170 | the header read fails exactly at the end of input, and then it yields the zero header and consumes nothing |
| Codec.HeaderBytes | fcgi_utils.go:160-170 | the header fields are the next 8 input bytes in order, zero-filled past the end of input |
| Codec.ReadHeader | fcgi_utils.go:160-170 | the header, the error and the new cursor are what ReadHeaderAt gives |
| Codec.ReadBeginRequestBodyAt | fcgi_utils.go:173-184 | the body read fails exactly at the end of input, and then it yields the zero body and consumes nothing |
| Codec.BeginRequestBodyBytes | fcgi_utils.go:173-184 | with a whole body in the input, the role is the next two bytes big-endian, the flags are the third byte and 8 bytes are consumed |
| Codec.ReadBeginRequestBody | fcgi_utils.go:173-184 | the body, the error and the new cursor are what ReadBeginRequestBodyAt gives |
| Codec.ReadChunksAt | fcgi_utils.go:196-215 | a failed chunk loop returns no data at the end of input; a successful one returns 4096 bytes per iteration |
| Codec.ChunksCoverLength | fcgi_utils.go:196-215 | a length <= 0 reads nothing; otherwise a successful result has at least `length` bytes and less than one chunk more |
| Codec.ChunksSucceedIff | fcgi_utils.go:196-215 | the loop fails exactly when its last chunk would start at or after the end of input |
| Codec.ChunksAsOneRead | fcgi_utils.go:196-215 | a successful chunk loop equals a single read of 4096 x iterations bytes, so it consumes past the declared length |
| Codec.ChunksContinue | fcgi_utils.go:200-213 | one successful turn prepends the 4096-byte buffer to what the rest of the loop returns, with length lowered by min(length, 4096) |
| Codec.ReadChunks | fcgi_utils.go:196-237 | the data, the error and the new cursor are what ReadChunksAt gives; this serves both the STDIN and the DATA reader |
| Codec.SkipPaddingAt | fcgi_utils.go:239-248 | a padding of 0 consumes nothing; padding that is present in the input is consumed exactly; a positive padding fails exactly at the end of input |
| Codec.SkipPadding | fcgi_utils.go:239-248 | the error and the new cursor are what SkipPaddingAt gives |
| Codec.WriteStdoutAt | fcgi_utils.go:251-289 | WriteFcgStdout on the sending side; its outcomes are stated by Codec.WriteStdoutOutcome, and for the handler's two writes by Handler.FirstWrite, Handler.SecondWrite and Handler.StdoutWrites |
| Codec.WriteStdoutOutcome | fcgi_utils.go:251-289 | the write panics exactly when the header does not go through; it fails exactly when a non-empty body does not fit after the header; otherwise it reports length + 8. The peer receives a prefix of the record, and the whole record when it fits |
| Codec.WriteStdout | fcgi_utils.go:251-289 | the result and the new sending side are what WriteStdoutAt gives |
| Codec.WriteEndRequestAt | fcgi_utils.go:292-315 | the write succeeds exactly when the connection is open and 16 bytes fit; it then appends the END_REQUEST record and reports 16, and otherwise changes nothing and reports the error |
| Codec.WriteEndRequest | fcgi_utils.go:292-315 | the result and the new sending side are what WriteEndRequestAt gives |
| Parser.ReadLengthAt | fcgi.go:115-132 | a length read takes at least one byte and never moves the cursor back |
| Parser.ReadLength | fcgi.go:115-132 | the length, its width, the error and the new cursor are what ReadLengthAt gives |
| Parser.LengthPrefix | fcgi.go:115-132 | a first byte below 128 is the length; otherwise four bytes are combined big-endian with the high bit kept, so the value is at least 2^31; a marker byte at the end of input fails |
| Parser.LengthRoundTrip | fcgi.go:115-150 | decoding a client's length encoding gives back a length below 128, and a longer length 2^31 too large |
| Parser.ReadPairAt | fcgi.go:115-164 | a failed pair read ends at the end of input; a successful one charges contentLength at least 2 plus the name and value lengths |
| Parser.ReadPair | fcgi.go:115-164 | the pair, the charge, the error and the new cursor are what ReadPairAt gives |
| Parser.PairConsumed | fcgi.go:115-164 | the charge to contentLength is never less than the bytes taken, and equals them unless the pair ran into the end of input |
| Parser.PairRoundTrip | fcgi.go:115-164 | a pair with short name and value is read back exactly, and is charged its encoded size |
| Parser.LongNameFails | fcgi.go:115-164 | a name of 128 bytes or more, encoded as a client does and followed by a non-empty value, makes the pair read fail |
| Parser.ReadParamsAt | fcgi.go:114-166 | a failed PARAMS loop ends at the end of input |
| Parser.ParamsContinue | fcgi.go:114-166 | one successful turn stores the pair and continues with contentLength lowered by the charge |
| Parser.ReadParams | fcgi.go:114-166 | the parameters, the error and the new cursor are what ReadParamsAt gives; only the parameters of the accumulator change |
| Parser.ParamsTurn | fcgi.go:115-165 | a turn either fails with the parameters unchanged or strictly lowers contentLength and leaves the rest of the loop to give the same result |
| Parser.ParamsRoundTrip | fcgi.go:114-166 | short pairs packed into a content of exactly their size are read back in order, and exactly that content is consumed |
| Parser.StepAt | fcgi.go:101-187 | an iteration never moves the cursor back or past the end of input |
| Parser.Step | fcgi.go:101-187 | the iteration's outcome and the new cursor are what StepAt gives |
| Parser.RecordAt | fcgi.go:105-187 | the switch never moves the cursor back or past the end of input; Parser.StepCompletesIff, Parser.StepIgnoresOtherTypes, Parser.StepFailsOnlyAtEnd and Parser.StepAtEndOfInput state what each branch does |
| Parser.ParamsRecordAt | fcgi.go:113-168 | a PARAMS record never moves the cursor back or past the end of input; Parser.ParamsRoundTrip and Client.ParamsStep state that short pairs are added in order and the padding is skipped |
| Parser.ContentRecordAt | fcgi.go:169-182 | a DATA or STDIN record never moves the cursor back or past the end of input; Parser.ContentStep, Parser.StdinSwallowsRest and Client.FullChunkStep state what the buffer becomes and where the loop goes on |
| Parser.Record | fcgi.go:102-187 | the switch's outcome and the new cursor are what RecordAt gives |
| Parser.ParamsRecord | fcgi.go:113-168 | a PARAMS record's outcome and the new cursor are what ParamsRecordAt gives |
| Parser.ContentRecord | fcgi.go:169-182 | a DATA or STDIN record's outcome and the new cursor are what ContentRecordAt gives |
| Parser.RunAt | fcgi.go:100-188 | a bounded run of the loop never moves the cursor back or past the end of input |
| Parser.RunUnfolds | fcgi.go:100-188 | a run is one iteration followed by the rest: hand-off on completion, crash on failure, otherwise one iteration fewer |
| Parser.RunContinues | fcgi.go:100-188 | an iteration that goes on leaves the rest of the run with one iteration fewer |
| Parser.RunCompletes | fcgi.go:105-107 | an iteration that completes hands off the accumulator |
| Parser.EndIsFinal | fcgi.go:100-188 | once a run has handed off or crashed, more iterations give the same outcome |
| Parser.ServeConnection | fcgi.go:97-190 | from a fresh accumulator, the loop's outcome and the final cursor are what RunAt gives |
| Parser.StepCompletesIff | fcgi.go:101-107 | an iteration completes exactly on a STDIN header with content length 0, and then hands off the accumulator with only the identifier changed, to the low byte of the header's identifier |
| Parser.StepIgnoresOtherTypes | fcgi.go:183-186 | ABORT_REQUEST and every unlisted type read nothing after the header and leave the accumulator alone |
| Parser.StepFailsOnlyAtEnd | fcgi.go:113-182 | only PARAMS, DATA and STDIN records crash the loop, and only at the end of input |
| Parser.StepAtEndOfInput | fcgi.go:101 | at the end of input the dropped header error leaves a type-0 header, and the iteration does nothing |
| Parser.RunSpinsAtEndOfInput | fcgi.go:100-188 | at the end of input the loop never hands off or crashes, whatever the number of iterations |
| Parser.HandOffFollowsTerminator | fcgi.go:103-107 | a hand-off always follows a STDIN header with content length 0 before the end of input, and carries the low byte of its identifier |
| Parser.ContentStep | fcgi.go:169-182 | a DATA or STDIN record of at most one chunk replaces the buffer with the 4096 bytes after the header, zero-filled, whatever the declared length; the loop goes on after that chunk and paddingLength more bytes, or at the end of input |
| Parser.StdinSwallowsRest | fcgi.go:176-182 | a STDIN record with content whose chunk reaches the end of input keeps the loop from ever handing off |
| Client.ClientHeader | fcgi_utils.go:30-39 | a client header carries the type, padding, content length and identifier low byte that the loop reads back |
| Client.HeaderOccurrence | fcgi_utils.go:160-170 | reading where a header's layout occurs gives that header and consumes 8 bytes |
| Client.RecordLayout | fcgi_utils.go:160-170 | a client record's header is read back and its content follows |
| Client.BeginStep | fcgi.go:110-112 | a BEGIN_REQUEST record leaves the accumulator alone and the loop continues right after the body, its padding unread |
| Client.ParamsStep | fcgi.go:113-168 | a PARAMS record with short pairs adds the pairs in order and the loop continues after the record's padding |
| Client.TerminatorStep | fcgi.go:103-107 | an empty STDIN record completes the iteration with the low byte of its identifier |
| Client.BeginRun | fcgi.go:110-112 | the BEGIN_REQUEST record takes one iteration and changes nothing |
| Client.ParamsRun | fcgi.go:113-168 | a PARAMS record takes one iteration and adds its pairs |
| Client.EmptyParamsRun | fcgi.go:113-168 | the empty PARAMS record takes one iteration and changes nothing |
| Client.PairsRun | fcgi.go:113-168 | the PARAMS record with the pairs and the empty PARAMS record take two iterations and add the pairs |
| Client.PreambleRun | fcgi.go:110-168 | BEGIN_REQUEST, PARAMS and empty PARAMS take three iterations and add the pairs |
| Client.TerminatorRun | fcgi.go:105-107 | the empty STDIN record hands off on the next iteration with the identifier's low byte |
| Client.RunSimpleRequest | fcgi.go:97-190 | a request without a body is handed off on the fourth iteration, right after its last record, with exactly its pairs added and the identifier's low byte |
| Client.RequestWithBodyHangs | fcgi.go:176-182 | a request with a short STDIN body is never handed off, however many iterations run |
| Client.HangsAfterPreamble | fcgi.go:176-182 | after the preamble, a STDIN record whose chunk reaches the end of input keeps the loop from handing off |
| Client.StdinAfterPreamble | fcgi.go:176-182 | the same, for runs with fuel for the whole preamble |
| Client.FullChunkStep | fcgi.go:176-182 | a STDIN record of exactly 4096 content bytes sets STDIN to its content, and the loop goes on right after the record, its padding skipped |
| Client.FullChunkRun | fcgi.go:176-182 | that record takes one iteration and sets STDIN |
| Client.FullChunkHandsOff | fcgi.go:100-188 | a 4096-byte STDIN body with any padding, followed by the terminating record, is handed off on the second iteration, right after the terminator, with the body as STDIN and the identifier's low byte |
| Handler.Payload | fcgi_handler.go:17-21 | the payload is the response text byte for byte |
| Handler.Handle | fcgi_handler.go:12-44 | given the request's connection and identifier, the panic flag and the new sending side are what RespondAt gives, and the read cursor does not move |
| Handler.RespondAt | fcgi_handler.go:12-44 | the handler on the sending side: three writes, each panicking on error, then the close; Handler.RespondSucceedsIff, Handler.PanicLeavesPrefix and Handler.SecondResponsePanics state its outcomes |
| Handler.PayloadSize | fcgi_handler.go:17-21 | the payload is 32 bytes and needs no padding |
| Handler.ResponsePieces | fcgi_handler.go:23-39 | the response is the text record, the empty STDOUT record and the END_REQUEST record, in write order |
| Handler.ResponseLayout | fcgi_handler.go:23-39 | the three records of the 64-byte response all carry the identifier modulo 2^16; the first is a STDOUT record with the 32-byte text unpadded, the second an empty STDOUT record without padding, the last an END_REQUEST record with REQUEST_COMPLETE and application status 0 |
| Handler.FirstWrite | fcgi_handler.go:23-26 | the first write succeeds exactly when 40 bytes fit on an open connection; a failure leaves nothing or only the header |
| Handler.SecondWrite | fcgi_handler.go:30-33 | the end-of-stream write succeeds exactly when 8 bytes fit on an open connection, and otherwise changes nothing |
| Handler.StdoutWrites | fcgi_handler.go:23-33 | both STDOUT writes go through exactly when the connection is open and takes 48 bytes, and the peer then has the first 48 bytes of the response |
| Handler.RespondSucceedsIff | fcgi_handler.go:12-44 | the handler succeeds exactly when the connection is open and takes 64 bytes; the peer then has exactly the response and the connection is closed |
| Handler.PanicLeavesPrefix | fcgi_handler.go:23-39 | a panic leaves the connection's closed flag unchanged, and the peer has a prefix of the response ending at a write boundary |
| Handler.SecondResponsePanics | fcgi_handler.go:41 | answering a second request on the closed connection panics and sends nothing |

## Left out

- The worker goroutines, channels and `select` on the context (fcgi.go:90-241) are concurrency and are not modelled, and neither are the handler workers that call Handle (fcgi.go:200-214). The loop ends in the Handed outcome, which carries the accumulator that fcgi.go:190 sends to the request channel; the channel itself is not modelled.
- `NewFCGIServer`, listening and accepting connections (fcgi.go:74-88, 218-224) are network I/O; a connection is given to the model as its input bytes and an output budget.
- `TransformBits` and the unsafe struct-to-bytes casts are replaced by explicit byte layouts of the structs in field order.
- `RequestSequence.String` and all `fmt` printing are diagnostics only and are left out.
- The stubs `ReadFcgiParams` and `ReadFcgiParamsPair11`, the unused name-value and unknown-type structs, and the management record constants have no code path that uses them.
- Go panics on read or write errors are outcomes (Crashed, Panicked, panicked), not process termination.
- Parser.RunAt: the loop is bounded by a fuel argument, because it spins forever at the end of input; Pending is the state after the fuel runs out.
- Codec.ReadChunks: ReadFcgiStdin and ReadFcgiData have identical loops, so one method models both.
- Net.Conn.Read: a real connection may return short reads before the end of input; the model reads as much as is available and errs only at the end of input.
- Net.Conn.Write: how much the peer accepts is a budget parameter; a real write may deliver part of its bytes before failing.
- Parser.LongNameFails and the Client lemmas: whole-loop round trips are proved for pairs whose names and values are shorter than 128 bytes, because longer ones never round-trip (Parser.LengthRoundTrip).
- Go's `int` is taken to be 64 bits wide. On a 32-bit target, `int(c[0]) << 24` at fcgi.go:128 and fcgi.go:146 makes a marker-bit length negative, and `make` at fcgi.go:152 and fcgi.go:159 then panics; the model has the 64-bit value.
- Parser.ReadPairAt: a 4-byte length keeps its marker bit, so the name or value buffer is at least 2^31 bytes. The model reads it as a zero-filled buffer of that size; in Go, `make([]byte, nameLength)` at fcgi.go:152 and fcgi.go:159 may instead end the process with a fatal out-of-memory error, and the model does not capture that.
- Parameter names and values are Go strings built from bytes; the model keeps them as byte sequences.
