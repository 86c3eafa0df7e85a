# Socketify, verified

A Dafny model of the hand-written core of Socketify, a C++20 HTTP and
WebSocket server: its byte-level state machines, its codecs, and the small
concurrent protocol between its worker threads and everybody else.  Each part
is modelled in the form the source gives it (classes with mutable fields, loops
over arrays and cursors, a step machine for the interleavings) and is proved
against a specification function, about which the properties the source promises
are then proved as lemmas.

Check it with `dafny verify dfyconfig.toml`.

## The parts

| files | what they model | main results |
|---|---|---|
| `HttpParser`, `ByteBuffer` | the incremental HTTP/1.1 request parser | cuts never matter; caps hold under an exact condition |
| `HttpFraming`, `HttpRefusals`, `Numerals` | what a head decides and what is refused, by the text alone | requests that could be read in two ways are refused; every refusal has its status |
| `ServerInput`, `ServerRuns`, `ServerPipelines`, `ServerClosing` | a worker's HTTP connection: reading, processing, flushing and closing, over whole lives | the responses are those the bytes determine, under an exact condition; pipelined requests are answered in order; every byte is accounted for |
| `HttpMessage`, `HttpClient`, `HttpRoundTrip` | request messages as text, and the client's printer | the server parses back what is printed |
| `Chunked`, `Dechunk` | chunked encoding and its two decoders | both undo the encoding; where the client's loop decodes, stops and never stops |
| `PulseFrame`, `PulseChannel`, `PulseControl`, `PulseRooms` | RFC 6455 frames, reassembly, fragmentation, close handlers, rooms, the application layer | send, mask, cut, receive is the identity; close handlers run once; the close hook cleans up, with the exact condition |
| `OutputPipe` | enqueue, notify, post, flush, partial writes and write interest, as steps of an arbitrary interleaving | no byte lost or reordered, no wakeup lost, requested closes are complete, everything gets written |
| `Words`, `MerkleDamgard`, `Sha256`, `Sha1`, `Hmac`, `Base64Url`, `Blocks`, `HmacExample`, `Sha1Example` | streaming hashes over 32-bit words, HMAC, base64url | every split of the input hashes like the standard says; published answers; exact round trips |
| `RateLimit` | the token bucket, over the reals | a bound on every window, pruning invisible, Retry-After exact |
| `Splitting`, `Router`, `Dispatch`, `Serving` | path patterns, route lookup, the middleware chain | matching is sound, complete and undone by rendering; nothing starts after the end |
| `Multipart`, `MultipartRoundTrip`, `MultipartRefusals` | multipart/form-data | written parts are read back; what breaks off is refused |
| `Where`, `WhereReader`, `WhereRows` | WHERE text, identifier quoting | each dialect's engine selects the rows the filters ask for |
| `Sse` | Server-Sent Events text | an event comes through if and only if it is clean |
| `Common`, `Text`, `Http` | shared vocabulary: bytes, searching, trimming, the C number scanners, methods, header maps | |

A char stands for one byte in the text modules; Pulse frames use an 8-bit
integer type and the hash functions 8- and 32-bit vectors.

## What turned out not to hold as written

Eight promises fail on some inputs; the model keeps the code as it is and proves
exactly when they hold.

* The body cap of the parser (`include/socketify/detail/http_parser.h:129-135`):
  the sum of body size and chunk size is taken in 64 bits and can wrap, so a
  huge chunk size can pass the cap.  `CapsHoldExactly` is the condition over a
  run, `WrappingExample` a request.
* The client's chunked decoder (`src/http_client.cpp:212-215`) adds position and
  chunk size in 64 bits.  When the sum wraps, the loop goes back, and can go
  round for ever.  `LoopIsIdeal` is the condition, `LoopingExample` a response.
* The answers of a connection can depend on how its bytes are cut into reads
  (`src/server.cpp:454-541`).  Nothing stops the loop from being entered again
  after the last response was queued, as long as that response is still being
  written; and what is read together with the peer's end is dropped when nothing
  is being written, and processed for one round only when something is.
  `AnswersExactly` is the condition; `LateRequestAnswered`, `RefusedTwice` and
  `DroppedExample` are the inputs.
* The close hook (`src/pulse_easy.cpp:96-158`) leaves a channel in a room when
  one of its own close handlers releases the connection and a later action joins
  a room for good.  `HookEmptiesRooms` is the condition on the handlers,
  `EarlyReleaseExample` a run.
* A close frame without a status is answered with one that says 1005
  (`src/pulse.cpp:193-219`), a number that section 7.4.1 of RFC 6455 forbids to
  send.  `CloseEchoed` and `EmptyCloseEchoed` say for every payload what goes out.
* Empty `IN` and `NOT IN` lists (`src/db/query.cpp:137-139`): the comment says
  always false and always true, but the text keeps the column in front of the
  constant.  `EmptyListKeepsColumn` is the condition, `EmptyInExample` a clause.
* Engines that number question marks (`src/db/postgres_engine.cpp:20-36`,
  `src/db/mysql_engine.cpp:92-118`) also count those inside quoted column names.
  `EngineSeesItsParams` is the condition, `MarkInColumnExample` a clause.
* `send_event` (`src/sse.cpp:36-49`) splits data at line feeds only, and does not
  look at event names and ids.  `EventRoundTrip` is the condition,
  `ReturnCutsData` and `LineFeedLeavesName` are failing inputs.

Besides, the fragmenting sender never ends with a fragment size of zero
(`SendingEnds`).

## Model

| member | source | states |
|---|---|---|
| `HttpParser.RunAppend` | src/detail/http_parser_sm.cpp:55-95 | Parser state after a stream does not depend on where the stream is cut: running on `a + b` is running on `a`, then on `b` |
| `HttpParser.UsedAppend` | src/detail/http_parser_sm.cpp:55-95 | Neither does the number of bytes taken: the second piece counts only if the first left the message open |
| `HttpParser.UsedEnds` | src/detail/http_parser_sm.cpp:55-95 | Every byte is taken unless the message ended, and a message that ended depends on its own bytes only |
| `HttpParser.RunTerminal` | src/detail/http_parser_sm.cpp:55-58 | Complete and Error take nothing more |
| `HttpParser.Parser.Consume` | src/detail/http_parser_sm.cpp:55-95 | The phase loops refine the one-byte step: the new state is the fold of the step over the bytes, the result is how many belong to the message, and less than all is taken only in Complete or Error |
| `HttpParser.Parser.ParsePhase` | src/detail/http_parser_sm.cpp:61-93 | One turn of the loop takes at least one byte and goes exactly where the one-byte steps go |
| `HttpParser.Parser.ParseStartLine` | src/detail/http_parser_sm.cpp:98-158 | The request-line phase is a run of one-byte steps that stops with the phase |
| `HttpParser.Parser.AcceptRequestLine` | src/detail/http_parser_sm.cpp:122-153 | The three words are accepted or refused in the order unknown method (501), empty target (400), unsupported version (505); the target splits at its first question mark |
| `HttpParser.Parser.ParseHeaders` | src/detail/http_parser_sm.cpp:161-263 | The header phase is a run of one-byte steps that stops with the phase |
| `HttpParser.CutField` | src/detail/http_parser_sm.cpp:178-196 | The two index loops cut out the name without trailing blanks and the value without blanks at either end |
| `HttpParser.Parser.StoreField` | src/detail/http_parser_sm.cpp:203-210 | A repeated header is joined to the earlier one, whatever the letter case of its name |
| `HttpParser.Parser.FinishHeaders` | src/detail/http_parser_sm.cpp:213-260 | Transfer-Encoding and Content-Length decide the framing, their combination is refused, an oversized length is 413 |
| `HttpFraming.HeadDecides` | src/detail/http_parser_sm.cpp:213-260 | What a head leads to, by its header lines: an unknown transfer coding is 501; chunked together with a length is refused with 400; a length that is no number, is negative or has 2^63 bytes or more is 400, one over the cap 413; otherwise exactly the announced bytes, chunks, or nothing follow |
| `HttpFraming.RefusedForGood` | src/detail/http_parser_sm.cpp:55-58 | A refusal stays, whatever follows |
| `HttpFraming.LookupJoined` | src/detail/http_parser_sm.cpp:203-210 | What the header map answers for a name is what its lines say, in any letter case, joined in order by comma and space |
| `HttpFraming.LengthAnnounced` | src/detail/http_parser_sm.cpp:232-249 | A length is accepted if and only if it is white space, a sign, decimal digits and nothing more (or a NUL), with a value of its own sign below 2^63 |
| `HttpFraming.ChunkAnnounced` | src/detail/http_parser_sm.cpp:299-316 | A chunk size is accepted if and only if it is such a numeral in base 16, with or without 0x, below 2^64, and a minus sign negates it modulo 2^64 |
| `HttpRefusals.RequestLineRefused` | src/detail/http_parser_sm.cpp:114-138 | A request line of three words is judged by its method (501), then an empty target (400), then the version (505), for every line and whatever follows |
| `HttpRefusals.FewWordsRefused` | src/detail/http_parser_sm.cpp:114-121 | A first line without two spaces is 400 |
| `HttpRefusals.NoColonRefused` | src/detail/http_parser_sm.cpp:177-181 | A header line without a colon is 400 |
| `HttpRefusals.NoNameRefused` | src/detail/http_parser_sm.cpp:183-201 | So is one with nothing but blanks before its colon |
| `HttpRefusals.HeadTooLong` | include/socketify/detail/http_parser.h:121-128 | The byte of the head that passes the cap is 431, and no byte before it |
| `HttpRefusals.SizeLineJudged` | src/detail/http_parser_sm.cpp:296-320 | A size line is judged by what stands before its first semicolon: empty or no numeral is 400, too much for the cap is 413, and otherwise exactly that many bytes are awaited, or the trailers |
| `HttpRefusals.SizeLineTooLong` | src/detail/http_parser_sm.cpp:284-290 | The 130th byte of a size line is 400 |
| `HttpRefusals.ChunkEndRefused` | src/detail/http_parser_sm.cpp:338-352 | After the bytes of a chunk anything but a line break is 400 |
| `HttpRefusals.TrailersDropped` | src/detail/http_parser_sm.cpp:355-381 | Any trailer lines are dropped and the message is complete with the body and headers it had |
| `HttpRefusals.TrailerTooLong` | src/detail/http_parser_sm.cpp:357-363 | The byte after 8193 of one trailer line is 400 |
| `Numerals.NumeralScanned` | src/detail/http_parser_sm.cpp:232-249 | The scanner reads every well-formed numeral to its end and gives sign and value |
| `Numerals.OnlyNumerals` | src/detail/http_parser_sm.cpp:232-249 | Whatever it reads to the end is one |
| `HttpParser.Parser.ParseBody` | src/detail/http_parser_sm.cpp:266-279 | Taking a slice of a fixed-length body at once is taking it byte by byte |
| `HttpParser.Parser.ParseChunkSize` | src/detail/http_parser_sm.cpp:282-323 | The chunk-size phase is a run of one-byte steps, with extensions dropped and the line capped |
| `HttpParser.Parser.ParseChunkData` | src/detail/http_parser_sm.cpp:326-335 | Taking a slice of a chunk at once is taking it byte by byte |
| `HttpParser.Parser.ParseChunkDataEnd` | src/detail/http_parser_sm.cpp:338-352 | Carriage returns before the line feed are skipped; anything else fails |
| `HttpParser.Parser.ParseChunkTrailer` | src/detail/http_parser_sm.cpp:355-381 | Trailer lines are discarded up to the empty one, which completes the message |
| `HttpParser.Parser.Reset` | src/detail/http_parser_sm.cpp:34-52 | Reset equals a fresh parser; the limits stay |
| `HttpParser.Parser.TakeBody` | include/socketify/detail/http_parser.h:97-102 | The body is handed over whole and nothing but the body changes |
| `HttpParser.Parser.GrowHeaderBytes` | include/socketify/detail/http_parser.h:121-128 | Fails with 431 exactly when the count passes a nonzero cap |
| `HttpParser.Parser.GrowBodyBytes` | include/socketify/detail/http_parser.h:129-135 | Fails with 413 exactly when the 64-bit sum passes a nonzero cap |
| `HttpParser.RunKeepsShape` | src/detail/http_parser_sm.cpp:55-381 | In every reachable state the counters fit the phase: body size equals bytes received and stays below the announced length, chunk bytes are outstanding only in chunk data, a complete message has its announced length |
| `HttpParser.CapsHoldExactly` | src/detail/http_parser_sm.cpp:98-335 | Over a whole run both caps (header bytes, and body bytes received plus those still announced) hold in every state passed through if and only if no size line on the way is accepted with a wrapping 64-bit sum |
| `HttpParser.CapBreaksOnlyByWrapping` | include/socketify/detail/http_parser.h:129-135 | An accepted chunk size breaks the body cap if and only if body size plus chunk size wraps modulo 2^64 |
| `Chunked.WrappingExample` | include/socketify/detail/http_parser.h:129-135 | A short request after which a fresh parser has announced more body than any cap of at least one byte allows |
| `Http.MethodRoundTrip` | src/http.cpp:42-76 | Reading a printed method name gives the method back, for the nine real methods |
| `Text.ScanPrinted` | src/detail/http_parser_sm.cpp:234-242 | The C number scanner reads a printed number back exactly, in base 10 and 16 |
| `HttpClient.BuildRequest` | src/http_client.cpp:261-282 | The appended text is request line, Host, Connection, the caller's other headers in order, User-Agent and Content-Length when missing, blank line, body |
| `HttpClient.AppendFields` | src/http_client.cpp:269-276 | The loop keeps exactly the headers that are not Host or Connection and notices the caller's own User-Agent and Content-Length |
| `HttpRoundTrip.RequestRoundTrip` | src/http_client.cpp:261-282 | The server's parser takes the client's text whole, reaches Complete, and gives back method, target, version, body and every header sent, and no other header |
| `HttpRoundTrip.RequestArrives` | src/http_client.cpp:267-280 | What arrives: the client's own Host and Connection, whatever the caller put there; every other header of the caller with its value; a User-Agent and the length of the body when the caller gave none; and no other header |
| `HttpMessage.MessageRoundTrip` | src/detail/http_parser_sm.cpp:98-279 | Any message with clean fields, names repeating or not, is taken whole and comes back: line, body, and the headers its lines add up to |
| `HttpMessage.MessageRuns` | src/detail/http_parser_sm.cpp:98-279 | Run on the text of a message the parser ends in the one state the message determines, and not before its last byte |
| `HttpRoundTrip.AddAllHolds` | src/detail/http_parser_sm.cpp:203-210 | Header lines with distinct names fill the map with exactly those entries |
| `HttpRoundTrip.SentDistinct` | src/http_client.cpp:267-280 | What the client adds never collides with what it keeps of the caller's headers |
| `Chunked.ParserUndoes` | src/detail/http_parser_sm.cpp:282-381 | So does the incremental parser: it completes on the last byte with that body |
| `Dechunk.Decode` | src/http_client.cpp:197-220 | So many turns of the one-shot decoder loop, with the end of a chunk computed in 64 bits, are that many turns of the one-chunk function |
| `Dechunk.DecodeChunk` | src/http_client.cpp:200-218 | The body of the loop is one turn: it stops for want of a line break, a size or bytes, and otherwise appends a chunk and moves to the wrapped end |
| `Dechunk.LoopIsIdeal` | src/http_client.cpp:212-215 | The loop goes as it would with unbounded positions if and only if no size line it reaches makes position plus size wrap modulo 2^64 |
| `Dechunk.DecodesUnlessWrapping` | src/http_client.cpp:197-220 | In that case it ends and has decoded exactly the chunks that fit, up to the first one that does not |
| `Dechunk.LoopsForever` | src/http_client.cpp:212-215 | A size line that announces 2^64 less its own length leads back to itself, and the rest is appended again at every turn, for ever |
| `Dechunk.LoopingExample` | src/http_client.cpp:212-215 | The size line -4 is one |
| `Dechunk.DechunkUndoes` | src/http_client.cpp:197-220 | The one-shot decoder turns the encoding of any non-empty chunks back into their concatenation, in one turn for each chunk and one for the last |
| `Dechunk.DecodersAgree` | src/detail/http_parser_sm.cpp:282-381 | Both decoders recover the same bytes, whatever bytes the chunks hold (section 4.1 of RFC 7230) |
| `ByteBuffer.Buffer.Append` | include/socketify/detail/buffer.h:28-32 | Bytes come out in the order they went in: the unread bytes are the old ones and then the new ones, compacted or not |
| `ByteBuffer.Buffer.Consume` | include/socketify/detail/buffer.h:53-59 | Consuming drops that many unread bytes, at most all |
| `ByteBuffer.Buffer.MaybeCompact` | include/socketify/detail/buffer.h:68-74 | Compaction changes nothing a reader can see |
| `ServerRuns.AnswersExactly` | src/server.cpp:454-541 | Over any life of a connection, with any cuts, stalls and partial writes, the responses queued are those the bytes read determine if and only if every read was faithful: no request is completed or broken by bytes read after the last response was queued, or dropped with the peer's end |
| `ServerRuns.CutsDoNotMatter` | src/server.cpp:454-541 | Two lives that read the same bytes give the same responses if neither reads between the last response and its draining, nor in the wake-up that sees the peer's end |
| `ServerRuns.EverythingAccounted` | src/server.cpp:454-709 | In every state the bytes written and still to be written are the queued texts in order, with at most one interim text before each response, and nothing read lies unparsed while another request would be answered |
| `ServerRuns.ClosesDrained` | src/server.cpp:641-698 | A flush that closes the connection, other than by a write error, has written every queued text |
| `ServerRuns.EventStep` | src/server.cpp:454-541 | One event keeps the responses those of the bytes if and only if it is faithful, whatever came before |
| `ServerRuns.DifferencesStay` | src/server.cpp:454-541 | Once they differ, no later event brings them back in line |
| `ServerRuns.ServeAppend` | src/server.cpp:499-538 | The conversation of a stream cut anywhere is that of its pieces one after the other |
| `ServerRuns.ServeRound` | src/server.cpp:499-538 | One consume-and-react round is the corresponding number of one-byte reactions |
| `ServerRuns.ProcessServes` | src/server.cpp:499-538 | While another request would be answered the loop serves the conversation to the end of what was read |
| `ServerRuns.ProcessOnceMore` | src/server.cpp:506-533 | After the last response was queued a further read runs the loop exactly once more: one more response if the bytes complete or break a request, and the same failure again if the parser had failed |
| `ServerPipelines.PipelineAnswered` | src/server.cpp:499-541 | A connection that reads exactly a pipeline of requests gives one answer for each, in order and with its own content, up to the first that ends HTTP, if and only if it reads faithfully |
| `ServerPipelines.PipelineServed` | src/server.cpp:499-538 | So does the conversation of that pipeline, for requests with arbitrary clean fields |
| `ServerPipelines.AnswersAre` | src/server.cpp:499-538 | All of them are answered if and only if none but the last ends HTTP, by its Connection header, the response's, or its version |
| `ServerPipelines.OneRequestServed` | src/server.cpp:499-538 | A request is answered with its own content and the rest of the stream is served from a fresh parser |
| `ServerPipelines.LateRequestAnswered` | src/server.cpp:527-533 | After a request that asks for closing, another one in a later read is answered while the first response is still being written; in the same read it is not |
| `ServerPipelines.LateRequestExample` | src/server.cpp:175-186 | Two such requests, written out |
| `ServerPipelines.RefusedAgain` | src/server.cpp:506-509 | While the refusal of a broken request is still being written, every further read queues it again |
| `ServerPipelines.RefusedTwice` | src/server.cpp:506-509 | So any broken request is refused twice if bytes follow it in a later read, and once if they follow in the same read |
| `ServerPipelines.DroppedExample` | src/server.cpp:465-472 | A request that arrives together with the peer's end, with nothing being written, is dropped unanswered |
| `ServerClosing.ClosingDecided` | src/server.cpp:175-186 | Whether a written response ends the connection, by the request's Connection lines, the response's header and the version, in that order; an HTTP/1.0 client that asks for nothing gets its end, and a connection that goes on is as it was before the request |
| `ServerClosing.OtherOutcomes` | src/server.cpp:592-609 | A refusal before routing closes, a stream protocol keeps, whatever anybody asked for |
| `ServerClosing.BrokenAndClosed` | src/server.cpp:506-509 | A request that cannot be parsed is answered with its refusal, and then the connection is closed |
| `ServerClosing.EndAfterDrain` | src/server.cpp:465-475 | A peer that has sent its last byte still gets what is being written, and then the connection is closed |
| `ServerClosing.BodyAskedFor` | src/server.cpp:511-520 | A head that announces a body gets the interim response if and only if one of its lines says Expect: 100-continue |
| `ServerClosing.AskedThenAnswered` | src/server.cpp:499-538 | When the body follows, the interim response is followed by the answer, and a connection that goes on is as it was and offers the next request the same |
| `ServerClosing.WriteFailureCloses` | src/server.cpp:643-656 | A socket that breaks in the middle of a response closes the connection, with what it took on the wire |
| `ServerInput.Connection.ProcessInput` | src/server.cpp:499-538 | The loop does what the recursive processing says, whatever state the connection is in when it is entered |
| `ServerInput.Connection.ProcessOnce` | src/server.cpp:499-538 | One turn of the loop feeds the parser, reacts to where it stopped, and goes on exactly after a complete request that was not the last, with bytes left |
| `ServerInput.Connection.HandleRequest` | src/server.cpp:544-624 | The handler is given the parsed request with its body, its answer is queued, the connection is to close if the answer was the last, and the parser is as new |
| `ServerInput.Connection.OfferContinue` | src/server.cpp:511-520 | An interim response is offered at most once per request, when it expects one |
| `ServerInput.Connection.FlushOutput` | src/server.cpp:641-698 | Writing goes on until the socket takes no more, fails, or all is written, and then closes if that was the last response |
| `ServerInput.Connection.OnReadable` | src/server.cpp:454-477 | A wake-up reads everything; with the peer's end it closes if nothing is being written and otherwise makes this the last processing |
| `ServerInput.Connection.OnWritable` | src/server.cpp:401-404 | A wake-up for writing flushes exactly when something is waiting |
| `ServerInput.Connection.OnHangup` | src/server.cpp:380-383 | An error on the socket closes the connection and changes nothing else |
| `ServerInput.Connection.FeedParser` | src/server.cpp:500-504 | The parser takes what belongs to the current request and the buffer keeps the rest |
| `ServerInput.Connection.Enqueue` | src/server.cpp:626-639 | The text of an interim response or a failure goes behind what is waiting |
| `ServerInput.Connection.WriteSome` | src/server.cpp:643-649 | A partial write moves exactly the bytes the socket took |
| `ServerInput.Connection.Finish` | src/server.cpp:657-694 | A drained connection is closed exactly when its last response was queued and no stream protocol took over |
| `PulseFrame.EncodeFrame` | src/pulse.cpp:61-80 | Header byte, length in one of three forms, payload |
| `PulseFrame.DecodeFrame` | src/pulse.cpp:82-128 | The decoder loops compute length, mask and payload as specified, with the errors in the order size, missing mask, need more |
| `PulseFrame.NumberOfBigEndian` | src/pulse.cpp:99-101 | Reading a big-endian number back gives the number |
| `PulseFrame.BigEndianAt` | src/pulse.cpp:76-76 | Each byte written by shifting is the corresponding big-endian digit |
| `PulseFrame.MaskTwice` | src/pulse.cpp:123-124 | Masking twice with the same key is the identity |
| `PulseFrame.DecodeUndoesMask` | src/pulse.cpp:82-128 | Decoding a masked frame gives opcode, final flag and payload back and consumes exactly the frame, whatever follows (sections 5.2 and 5.3 of RFC 6455) |
| `PulseFrame.DecodeStable` | src/pulse.cpp:82-128 | A frame or an error decoded from a prefix stays the same on every extension |
| `PulseFrame.PrefixNeedsMore` | src/pulse.cpp:82-128 | A proper prefix of an acceptable masked frame only asks for more |
| `PulseFrame.DecodedIsBelow` | src/pulse.cpp:102-106 | No decoded frame carries 2^63 bytes or more, whatever limit is configured |
| `PulseChannel.DrainExtends` | src/pulse.cpp:151-232 | Draining with more bytes buffered continues where draining without them stopped |
| `PulseChannel.CutsDoNotMatter` | src/pulse.cpp:130-233 | Up to the first close frame or failure, events, pongs and reassembly state are the same for every cut of the stream |
| `PulseChannel.Channel.FeedBytes` | src/pulse.cpp:130-233 | The feed loop refines the recursive drain and reports failure exactly where it does |
| `PulseChannel.Channel.OnFrame` | src/pulse.cpp:164-231 | Each opcode has its effect on reassembly, events, replies and the close state |
| `PulseChannel.Channel.SendStream` | src/pulse.cpp:301-327 | The fragmenting sender queues exactly the frames of the fragments in order, or nothing when it cannot start |
| `PulseChannel.SendingEnds` | src/pulse.cpp:306-311 | The sending loop comes to its end if and only if fragments have a size or there is nothing to send |
| `PulseChannel.Channel.WriteFragment` | src/pulse.cpp:271-287 | The first fragment carries the opcode, later ones zero, the last ends the message |
| `PulseChannel.Channel.SendClose` | src/pulse.cpp:349-361 | A close is requested and its frame queued once the channel is open, with code and reason on the wire |
| `PulseChannel.NextPiece` | src/pulse.cpp:306-311 | The frame written at an offset is the next fragment, and the rest follows |
| `PulseChannel.MessageDelivered` | src/pulse.cpp:151-192 | The masked fragments of one message are delivered as one message, whatever follows |
| `PulseChannel.RoundTrip` | src/pulse.cpp:130-233 | Messages sent through the fragmenting sender, masked with any keys and cut anywhere, are delivered in order, each once and whole, and nothing else happens (sections 5.2 to 5.4 of RFC 6455) |
| `PulseChannel.EmitAllEvents` | src/pulse.cpp:177-190 | With the handlers set, the events delivered are the messages themselves |
| `PulseChannel.ApplyFiresOnce` | src/pulse.cpp:202-218 | Feeding, registering, closing and dropping run close handlers at most once |
| `PulseChannel.FiredForGood` | src/server.cpp:853-874 | Once close handlers have run, no later event runs any |
| `PulseChannel.CloseHandlersRunOnce` | src/server.cpp:853-874 | Over any life that ends with the connection dropped, the close handlers run are those registered when the channel first closed, each once, in registration order |
| `PulseControl.PingAnswered` | src/pulse.cpp:221-224 | A masked ping on an open channel is reported, and answered with a pong of the same payload when that is switched on; nothing else changes (section 5.5.3 of RFC 6455) |
| `PulseControl.PongReported` | src/pulse.cpp:226-228 | A masked pong is reported and changes nothing else |
| `PulseControl.CloseEchoed` | src/pulse.cpp:193-219 | A close frame with a status is echoed byte for byte, and status and reason reach every registered handler once |
| `PulseControl.EmptyCloseEchoed` | src/pulse.cpp:193-219 | One without a status is reported as 1005, which goes out on the wire, too |
| `PulseControl.AbnormalReported` | src/server.cpp:853-874 | A connection that goes away without a close frame is reported as 1006 |
| `PulseControl.ReservedFails` | src/pulse.cpp:229-230 | A frame with a reserved opcode fails and changes nothing |
| `PulseControl.UnmaskedFails` | src/pulse.cpp:107-121 | A frame without a key closes the channel |
| `PulseControl.TooLongFails` | src/pulse.cpp:107-121 | A frame that announces more than the limit closes the channel at its header |
| `PulseControl.ErrorIsFinal` | src/pulse.cpp:140-160 | After a protocol error further reads fail and change nothing |
| `PulseControl.MaskedExample` | src/pulse.cpp:61-128 | The masked example of section 5.7 of RFC 6455, byte for byte |
| `PulseControl.UnmaskedExamples` | src/pulse.cpp:61-80 | Its unmasked, fragmented and ping examples |
| `PulseControl.LongExamples` | src/pulse.cpp:61-80 | Its examples of the two longer length forms |
| `PulseChannel.Channel.ReleaseChannel` | src/server.cpp:853-874 | Dropping the connection closes the channel, discards what is pending and runs the close handlers if nobody did |
| `PulseRooms.Hub.Join` | src/pulse.cpp:430-435 | The channel is added at the end of the room |
| `PulseRooms.Hub.Leave` | src/pulse.cpp:437-447 | Every occurrence of the channel leaves the room; a room left empty disappears |
| `PulseRooms.Hub.LeaveAll` | src/pulse.cpp:449-460 | The walk that erases while iterating leaves the map of the remaining members, in any visiting order |
| `PulseRooms.Hub.BroadcastFrame` | src/pulse.cpp:470-479 | A frame for a room is queued on every open channel in it, once for each time the channel joined, and nothing else changes on any channel |
| `PulseRooms.MembershipsCount` | src/pulse.cpp:430-447 | Joining adds one to how often a channel gets a room's frames, leaving takes it to zero, and neither concerns another channel |
| `PulseRooms.LeftEverywhere` | src/pulse.cpp:449-460 | Afterwards the channel is in no room, no room is empty, and nobody else moved |
| `PulseRooms.LeaveUndoesJoin` | src/pulse.cpp:430-460 | Leaving undoes joining |
| `PulseRooms.App.OnChannelClose` | src/pulse_easy.cpp:144-158 | The close hook runs a copy of the handlers and then releases the connection, whatever the handlers do |
| `PulseRooms.App.ReleaseConnection` | src/pulse_easy.cpp:96-120 | Releasing is idempotent and takes the channel out of the rooms |
| `PulseRooms.HookEndsLife` | src/pulse_easy.cpp:145-158 | After the hook the connection is not live |
| `PulseRooms.HookEmptiesRooms` | src/pulse_easy.cpp:96-158 | After the hook the channel is in no room if and only if its close handlers, read one after the other, never release it, or undo every join that follows the first release by a later leave |
| `PulseRooms.HookCleansUp` | src/pulse_easy.cpp:96-158 | So it is in no room, not even in one a handler joined, if no handler releases it early, and also if none joins |
| `PulseRooms.EarlyReleaseExample` | src/pulse_easy.cpp:96-101 | A handler that releases the connection and then joins a room leaves it there |
| `OutputPipe.NothingLost` | src/server.cpp:726-768 | For every interleaving of enqueues, notifications, flushes and partial writes: what was written before and every byte offered to a session that was not closed, in lock order, is on the wire, unwritten or pending; after closing the wire is a prefix |
| `OutputPipe.HistoryIs` | include/socketify/detail/sse_impl.h:31-41 | What a session has accepted is exactly what the enqueues found it open for, and the first request for closing fixed its place in it |
| `OutputPipe.StaysOpen` | include/socketify/detail/sse_impl.h:31-41 | As long as nobody asks for closing and nothing fails, the session stays open and accepts every byte anybody enqueues |
| `OutputPipe.AllEnqueuedIsWritten` | src/server.cpp:641-768 | In that case all of them are on the wire once no step is left to be done, those enqueued before the connection was adopted included |
| `OutputPipe.NoLostWakeup` | src/detail/loop_epoll.cpp:88-103 | In every reachable open state, pending bytes have a notification under way, a worker bound for the lock section, or write interest; unwritten bytes of an idle worker have write interest |
| `OutputPipe.RequestedCloseIsComplete` | src/server.cpp:760-766 | A worker that is about to close because closing was requested has written everything offered before the request |
| `OutputPipe.EverythingWritten` | src/server.cpp:641-768 | Whatever order notifications, callbacks and partial writes come in: when none is left to come, every byte offered is on the wire, or closing was asked for and every byte offered before that is |
| `OutputPipe.AdvancingWrites` | src/server.cpp:641-768 | From any state that keeps the invariant there are only finitely many such steps, and then all that was accepted is written, or all of it before a requested close |
| `OutputPipe.StuckIsQuiet` | src/server.cpp:641-882 | In every reachable state such a step is possible if and only if the worker is not idle with no notification under way and no write interest to serve |
| `OutputPipe.AdvancingIsBounded` | src/server.cpp:641-882 | A run of such steps is no longer than the work left: unwritten and pending bytes, notifications, and the worker's way back to its loop |
| `OutputPipe.Quiesces` | src/server.cpp:641-768 | From every reachable state such a run leads to a quiet one |
| `OutputPipe.AdvanceClosesInOrder` | src/server.cpp:760-766 | Such a step closes only a connection whose closing was asked for, with everything accepted before on the wire |
| `OutputPipe.StepKeepsInv` | src/server.cpp:704-882 | Every single step of any thread keeps the invariant |
| `OutputPipe.LockSectionConserves` | src/server.cpp:731-743 | Moving or appending the pending bytes under the lock loses, duplicates and reorders none |
| `OutputPipe.Connection.Enqueue` | include/socketify/detail/sse_impl.h:31-41 | Bytes are appended unless the session is closed, and the notifier copied under the lock is called if there is one |
| `OutputPipe.Connection.RequestClose` | src/sse.cpp:59-69 | Closing is asked for unless the session is closed already |
| `OutputPipe.Connection.Flush` | src/server.cpp:809-851 | The flush as written is a run of the worker's steps, for every sequence of socket answers |
| `OutputPipe.Connection.LockAndTake` | src/server.cpp:813-826 | The lock section is one step, by swap or by append |
| `OutputPipe.Connection.CloseConn` | src/server.cpp:930-938 | Closing a connection marks the session closed, drops its notifier and what is pending |
| `RateLimit.Store.Take` | src/ratelimit.cpp:36-77 | Refill, spend and prune in place compute the answer and the new table |
| `RateLimit.Store.Prune` | src/ratelimit.cpp:64-75 | The walk that erases while iterating removes exactly the stale buckets of other keys |
| `RateLimit.WindowBound` | src/ratelimit.cpp:36-77 | In any run the calls admitted for one key in any window number at most capacity plus rate times its length, pruned or not |
| `RateLimit.WithinBudget` | src/ratelimit.cpp:36-61 | From any state, admissions up to a time are paid for by the level and what is refilled |
| `RateLimit.BurstExact` | src/ratelimit.cpp:36-61 | Calls made at one moment are admitted exactly as long as the level holds whole tokens, and each answer says exactly what is left |
| `RateLimit.FreshBurst` | src/ratelimit.cpp:41-43 | A key nobody has used may burst as far as the capacity goes |
| `RateLimit.NeverRefilled` | src/ratelimit.cpp:55-61 | Without a refill a refusal is for good, and is announced as an hour |
| `RateLimit.PruningInvisible` | src/ratelimit.cpp:63-75 | All answers of all runs are the same with pruning on and off |
| `RateLimit.RetryIsExact` | src/ratelimit.cpp:55-61 | After a refusal the next call is admitted if and only if the announced time has passed (and the capacity holds a token at all) |
| `RateLimit.RetryHeaderSuffices` | src/ratelimit.cpp:104-107 | Waiting the whole seconds of Retry-After is enough |
| `RateLimit.RetryHeaderNecessary` | src/ratelimit.cpp:104-107 | Fewer whole seconds are not |
| `MerkleDamgard.ZeroCountIsLeast` | src/detail/utils.cpp:121-122 | The zero padding is the least that leaves room for the bit count (section 5.1.1 of FIPS 180-4) |
| `MerkleDamgard.OneMoreZero` | src/detail/utils.cpp:122-122 | The padding loop ends: (56 - length) modulo 64 gets smaller with each zero and is the number still to come |
| `MerkleDamgard.PaddedLength` | src/detail/utils.cpp:117-125 | A padded message is a whole number of blocks |
| `MerkleDamgard.FoldAppend` | src/detail/utils.cpp:102-115 | Folding over a concatenation of blocks is folding over the parts in turn |
| `MerkleDamgard.BitCount` | src/detail/utils.cpp:118-118 | The byte counter kept modulo 2^64 gives the same bit count field as the true length |
| `MerkleDamgard.BitCountExact` | src/detail/utils.cpp:118-118 | Below 2^61 bytes that field is the true bit count |
| `Sha256.Process` | src/detail/utils.cpp:76-100 | The array loops compute the compression function of section 6.2.2 of FIPS 180-4 |
| `Sha256.Context.Update` | src/detail/utils.cpp:102-115 | The context stands for the message so far: after an update, for the old message and the new bytes, in any buffer position |
| `Sha256.Context.Finish` | src/detail/utils.cpp:117-134 | The digest is the compression function folded over the padded message |
| `Sha256.HashCuts` | src/detail/utils.cpp:69-143 | For every split of the input into updates the digest is that of the whole |
| `Sha256.OneShot` | src/detail/utils.cpp:139-143 | The one-shot hash is the digest of the standard |
| `Sha1.Process` | src/detail/utils.cpp:182-217 | The array loops, with their bitwise or in place of exclusive or, compute the compression function of section 6.1.2 of FIPS 180-4 |
| `Sha1.Context.Update` | src/detail/utils.cpp:219-232 | The context stands for the message so far |
| `Sha1.Context.Finish` | src/detail/utils.cpp:234-251 | The digest is the compression function folded over the padded message |
| `Sha1.HashCuts` | src/detail/utils.cpp:176-260 | For every split of the input into updates the digest is that of the whole |
| `Sha1Example.KnownDigest` | src/detail/utils.cpp:176-260 | The digest of abc is the published one, worked out round by round from the specification: no constant and no rotation can be another |
| `Words.ChOrIsCh` | src/detail/utils.cpp:193-193 | Choosing by bitwise or is choosing by exclusive or |
| `Words.MajOrIsMaj` | src/detail/utils.cpp:199-199 | So is the majority |
| `Hmac.HmacSha256` | src/detail/utils.cpp:145-164 | The key block, the two masked pads and the nested hash are those of RFC 2104 |
| `Hmac.KeyEquivalence` | src/detail/utils.cpp:146-152 | A long key acts as its hash, and zeros at the end of a short key change nothing |
| `HmacExample.KnownAnswer` | src/detail/utils.cpp:69-164 | Test case 2 of RFC 4231 has the published answer, worked out round by round from the specification: no constant, rotation or mask of HMAC and SHA-256 can be another |
| `Base64Url.EncodeUrl` | src/detail/utils.cpp:306-329 | Shifting and masking 24-bit numbers yields the six-bit groups, the last filled with zero bits (section 5 of RFC 4648) |
| `Base64Url.DecodeUrl` | src/detail/utils.cpp:331-356 | The wrapping 32-bit accumulator yields exactly the complete bytes; a bad length or letter is refused |
| `Base64Url.OutputByte` | src/detail/utils.cpp:348-353 | The low bits of the accumulator are the bits not yet output, wrapped or not |
| `Base64Url.DecodeEncode` | src/detail/utils.cpp:306-356 | Decoding an encoding gives the bytes back, for every byte string |
| `Base64Url.EncodeDecode` | src/detail/utils.cpp:306-356 | Encoding what was decoded gives the text back if and only if its unused trailing bits are zero |
| `Base64Url.RefusedExactly` | src/detail/utils.cpp:331-345 | A text is refused if and only if no encoding has its length, or for a letter that no encoding has |
| `Base64Url.LettersAre` | src/detail/utils.cpp:306-345 | The letters are those of table 2 of RFC 4648 |
| `Base64Url.EncodeExamples` | src/detail/utils.cpp:306-329 | Test vectors of section 10 of RFC 4648, unpadded |
| `Base64Url.ConstantTimeEqual` | src/detail/utils.cpp:262-268 | The accumulated difference is zero exactly for equal strings |
| `Splitting.SplitView` | include/socketify/detail/utils.h:64-77 | The loop yields the non-empty pieces between separators |
| `Router.SplitPath` | src/router.cpp:37-51 | So does the path splitter |
| `Router.SplitRender` | src/router.cpp:37-51 | A rendered path splits back into its parts |
| `Router.CompilePattern` | src/router.cpp:14-35 | Patterns compile to static, parameter and wildcard segments; a wildcard ends the pattern |
| `Router.CompileWritten` | src/router.cpp:14-35 | Compiling a written pattern of static texts, :name and a final *name gives back its segments, and what follows a wildcard is dropped |
| `Router.MatchAndBind` | src/router.cpp:71-116 | The two-index loop succeeds if and only if the path matches the segments position by position, and binds what the segments bind |
| `Router.BindingsAre` | src/router.cpp:88-106 | With distinct names every parameter is bound to its own piece, the wildcard to the joined rest |
| `Router.OnlyNamesBound` | src/router.cpp:88-106 | Nothing but the names in the pattern is bound |
| `Router.MatchRendered` | src/router.cpp:71-116 | Matching a pattern rendered with slash-free arguments returns exactly those arguments, the wildcard's joined again |
| `Router.MatchedIsRendered` | src/router.cpp:71-116 | Nothing else matches: a path that does consists of arguments for the segments |
| `Router.JoinedIsText` | src/router.cpp:94-105 | The joined rest of a path is its text without the first slash |
| `Dispatch.FindRoute` | src/router.cpp:145-190 | The first registered route matching path and method is taken with its bindings; without one, a matching path is refused with its methods and no matching path is no route |
| `Dispatch.SortUnique` | src/router.cpp:168-170 | Sorting and removing repetitions leaves each method once, in order |
| `Dispatch.AllowOf` | src/router.cpp:168-175 | The allowed methods are each listed once, sorted, with HEAD added when only GET is there |
| `Dispatch.PrefixIsByParts` | src/router.cpp:58-65 | A pattern under a group prefix has the prefix's parts first among its own, for every pattern and every prefix, with or without a slash at the end |
| `Dispatch.PrefixExactly` | src/router.cpp:58-65 | For paths written from their parts it falls under the prefix if and only if the prefix's parts come first |
| `Dispatch.CollectGroups` | src/router.cpp:198-202 | The middleware of the matching groups, in group order |
| `Dispatch.Dispatcher.CallGlobal` | src/router.cpp:126-219 | The closure over shared counters does what the recursive semantics says, for every finite program of next and end calls, and leaves parameters and Allow list as the lookup found them |
| `Dispatch.Dispatcher.Dispatch` | src/router.cpp:119-226 | The whole dispatch yields the run of the resolved target and reports handled exactly when a route or refusal ran or the response was ended |
| `Dispatch.NextOrderly` | src/router.cpp:126-219 | Every run keeps: the response is ended exactly if the trace says so, and then nothing more happens |
| `Dispatch.NothingStartsAfterEnd` | src/router.cpp:127-214 | Whatever the middleware do, no middleware or handler starts after the response has ended |
| `Dispatch.StagesInOrder` | src/router.cpp:119-226 | When every middleware passes on, the stages of the first serving route start once each: global, group, route, handler |
| `Serving.WrittenRouteServes` | src/router.cpp:145-166 | A route registered with a written pattern serves every path written for it, unless an earlier one does |
| `Serving.OwnMethodServes` | src/router.cpp:152-156 | A request is served only by a route for its method, for any method, or for GET if it is HEAD, and by the first of them |
| `Serving.HeadFallsBack` | src/router.cpp:154-156 | An application without HEAD routes answers HEAD by the route that answers GET |
| `Serving.AnyServes` | src/router.cpp:152-156 | A route for any method serves them all |
| `Serving.GroupPlace` | src/router.cpp:197-203 | The middleware of a covering group stand together, in their order, after those of the groups registered before it |
| `Serving.RoutePlace` | src/router.cpp:204-209 | After all of them come the route's own, and last the handler, and there is nothing else |
| `Serving.RootCovers` | src/router.cpp:58-60 | A group at the root covers every pattern |
| `Serving.PassedOn` | src/router.cpp:126-219 | What every global middleware passes on is a route's, refused and ended, or nobody's |
| `Serving.NobodyServes` | src/router.cpp:166-190 | A request nobody serves is refused, ended and handled if a path matches, and left alone otherwise |
| `Multipart.ExtractBoundary` | src/body.cpp:44-69 | The search loop finds the boundary parameter, quoted or bare, at a parameter position |
| `Multipart.DispositionParam` | src/body.cpp:72-86 | The first piece naming the parameter gives its value, unquoted |
| `Multipart.ReadHeadingLines` | src/body.cpp:112-131 | The inner loop reads the heading up to its empty line; the cursor always advances |
| `Multipart.ParseBody` | src/body.cpp:90-156 | The nested loops over one cursor compute the recursive parse; termination by the bytes left |
| `MultipartRoundTrip.FindPut` | src/body.cpp:134-138 | A pattern whose first character does not recur in it is found right where it was put after text that lacks it: it cannot overlap itself |
| `MultipartRoundTrip.ParamsRead` | src/body.cpp:72-86 | Name and file name come back whatever quotes and equals signs they hold |
| `MultipartRoundTrip.BoundaryRead` | src/body.cpp:44-69 | The boundary of a content type comes back, quoted or bare |
| `MultipartRoundTrip.PartRead` | src/body.cpp:106-152 | One part is read as written and the cursor stands after its closing delimiter |
| `MultipartRoundTrip.MultipartRoundTrip` | src/body.cpp:90-156 | A body written with any parts whose data lacks the closing delimiter comes back as the same files in order and the same fields, with any preamble line and epilogue (section 5.1.1 of RFC 2046) |
| `MultipartRoundTrip.FilesLackClosing` | src/body.cpp:134-138 | No file any body yields holds the closing delimiter |
| `MultipartRefusals.OtherTypesRefused` | src/body.cpp:90-91 | Any other content type is refused |
| `MultipartRefusals.BoundaryIsParameter` | src/body.cpp:44-69 | The boundary is that of the first place where its key stands at the beginning or after a separator, and without such a place the body is refused |
| `MultipartRefusals.NoDelimiterRefused` | src/body.cpp:99-100 | A body without its delimiter is refused |
| `MultipartRefusals.CutOffRefused` | src/body.cpp:106-138 | A body that breaks off in a heading or in the data of a part is refused as a whole, however many parts came before |
| `Where.QuoteIdent` | src/db/schema.cpp:12-30 | Every quote is doubled, per dialect |
| `Where.ReadQuoted` | src/db/schema.cpp:12-30 | Reading a quoted identifier gives the name back and stops exactly at its closing quote, for every name |
| `Where.Query.Filter` | src/db/query.cpp:27-30 | A clause joined by AND is added last |
| `Where.Query.OrFilter` | src/db/query.cpp:32-35 | A clause joined by OR is added last |
| `Where.Query.AppendWhere` | src/db/query.cpp:117-162 | Text and parameters are those of the clauses in order, after what was there |
| `Where.Query.AppendTest` | src/db/query.cpp:125-160 | The branches emit the normalised test: nulls as null tests, lists as placeholders |
| `WhereReader.LexClauses` | src/db/query.cpp:117-162 | The text of any clauses splits into their tokens, whatever their column names hold |
| `WhereReader.TakeTestBack` | src/db/query.cpp:125-160 | The tokens and parameters of a test determine the test and nothing else is taken |
| `WhereReader.WhereRoundTrip` | src/db/query.cpp:117-162 | The dialect's own engine, with its own idea of quotes, reading the emitted text and binding its placeholders from left to right, gets back every connective, column, operator and value, and uses every parameter |
| `WhereRows.RowsSelected` | src/db/query.cpp:117-162 | For every row and every way of comparing values: the dialect's engine, reading the text with AND before OR and null never equal, selects the row if and only if every filter of some group of the query asks for it, as long as no list is without values |
| `WhereReader.EmptyListKeepsColumn` | src/db/query.cpp:137-139 | The text says what is meant if and only if the clause is not a list without values: such a list still tests the column |
| `WhereReader.EmptyInExample` | src/db/query.cpp:138-139 | IN over no values lets zero in |
| `WhereReader.MarksCounted` | src/db/postgres_engine.cpp:20-36 | The question marks in the text number the parameters plus those in column names |
| `WhereReader.EngineSeesItsParams` | src/db/mysql_engine.cpp:92-118 | An engine that takes every question mark for a placeholder finds as many as there are parameters if and only if no column name holds one |
| `WhereReader.MarkInColumnExample` | src/db/mysql_engine.cpp:92-118 | With a column named a?b such an engine expects two values where there is one |
| `Sse.AppendDataLines` | src/sse.cpp:12-25 | The cursor loop emits one data line for each line of the payload, an empty payload included |
| `Sse.SendEvent` | src/sse.cpp:36-49 | Id, event and data lines and the blank line that dispatches them |
| `Sse.StreamRoundTrip` | src/sse.cpp:36-49 | A stream of clean events is read back in order, each once, ids carried over (section 9.2.6 of the HTML Living Standard) |
| `Sse.EventRoundTrip` | src/sse.cpp:36-49 | An event comes through as sent if and only if its name and id have no line break, its id no NUL and its data no carriage return |
| `Sse.ReturnCutsData` | src/sse.cpp:36-49 | A carriage return in the data loses what follows it |
| `Sse.LineFeedLeavesName` | src/sse.cpp:36-49 | A line feed in the name lets the rest of the name arrive as another line, data for instance |
| `Sse.CommentIsSilent` | src/sse.cpp:51-57 | A one-line comment dispatches nothing |
| `HttpParser.Parser.FinishStartLine` | src/detail/http_parser_sm.cpp:114-138 | A complete request line is split at its first two spaces and accepted or refused |
| `HttpParser.Parser.StoreTarget` | src/detail/http_parser_sm.cpp:140-150 | The path ends at the first question mark and the query follows it |
| `HttpParser.Parser.FinishHeaderLine` | src/detail/http_parser_sm.cpp:177-210 | A header line without colon or name is 400; another one is stored |
| `HttpParser.Parser.FinishSizeLine` | src/detail/http_parser_sm.cpp:299-320 | A size line sets what is outstanding, or fails as empty, invalid or too large |
| `HttpParser.Parser.StartLineByte` | src/detail/http_parser_sm.cpp:100-155 | One turn of the request-line loop is one step; empty lines are skipped |
| `HttpParser.Parser.HeadersByte` | src/detail/http_parser_sm.cpp:163-260 | One turn of the header loop is one step |
| `HttpParser.Parser.SizeByte` | src/detail/http_parser_sm.cpp:284-320 | One turn of the size-line loop is one step |
| `HttpParser.Parser.TrailerByte` | src/detail/http_parser_sm.cpp:357-378 | One turn of the trailer loop is one step |
| `HttpParser.Parser.TakeLine` | src/detail/http_parser_sm.cpp:172-175 | The line buffer is emptied and its line returned without a final carriage return |
| `HttpParser.Parser.SetError` | include/socketify/detail/http_parser.h:116-120 | The state is Error with message and status, and nothing else changes |
| `HttpClient.AppendExtra` | src/http_client.cpp:277-280 | User-Agent and Content-Length are added exactly when the caller gave none, the latter only for a body |
| `ByteBuffer.Buffer.Clear` | include/socketify/detail/buffer.h:62-65 | Nothing unread is left |
| `PulseFrame.ReadLength` | src/pulse.cpp:99-101 | The shifting loop reads the big-endian number |
| `PulseFrame.Unmask` | src/pulse.cpp:122-124 | The loop applies the key to every byte by position |
| `PulseFrame.AppendBigEndian` | src/pulse.cpp:74-76 | The shifting loop appends the eight big-endian digits |
| `PulseChannel.Channel.Enqueue` | include/socketify/detail/pulse_impl.h:48-58 | Bytes are appended to what is pending unless the channel is closed |
| `PulseChannel.Channel.RunCloseHandlers` | src/pulse.cpp:204-218 | The registered handlers run in order the first time, and never again |
| `PulseChannel.Channel.OnMessage` | src/pulse.cpp:177-178 | A whole message goes to the handler of its kind if there is one |
| `PulseChannel.Channel.OnClose` | src/pulse.cpp:375-379 | A close handler is added last |
| `PulseChannel.Channel.BeginFragment` | src/pulse.cpp:261-269 | Fails on a closed channel or an unfinished message, and otherwise marks the next fragment as first |
| `PulseChannel.Channel.Send` | src/pulse.cpp:329-337 | A whole message goes out as one final frame |
| `PulseRooms.Filter` | src/pulse.cpp:443-445 | Removing a channel keeps the others in order |
| `PulseRooms.Channels.SendRaw` | src/pulse.cpp:296-299 | An encoded frame is queued as it is on an open channel, and on no other |
| `PulseRooms.TidyLeavesNoRoom` | src/pulse_easy.cpp:96-158 | What a program of handler actions leaves behind for the channel it runs for, followed by the release of the connection: no room if and only if the program is tidy |
| `PulseRooms.App.Adopt` | src/pulse_easy.cpp:161-171 | The connection becomes live with its handlers |
| `PulseRooms.App.RunHandler` | src/pulse_easy.cpp:151-155 | A handler's actions take effect one after the other |
| `PulseRooms.ActKeepsRooms` | src/pulse.cpp:430-460 | Whatever handlers do, no room is kept without members |
| `OutputPipe.Connection.Advance` | src/server.cpp:748-751 | A partial write is one step and moves exactly the bytes the socket took |
| `OutputPipe.Connection.AwaitRoom` | src/server.cpp:753-756 | A blocked write leaves the worker with write interest registered |
| `OutputPipe.Connection.Spent` | src/server.cpp:760-761 | A drained buffer is emptied, which changes nothing that is still to be written |
| `OutputPipe.Connection.Conclude` | src/server.cpp:763-767 | A drained worker closes if that was asked for and otherwise gives up write interest |
| `Sha256.Expand` | src/detail/utils.cpp:77-85 | The array holds the message schedule |
| `Sha256.Context.Absorb` | src/detail/utils.cpp:104-113 | One turn of the loop fills the buffer and processes it when it is full |
| `Sha256.Context.PadZeros` | src/detail/utils.cpp:122-122 | Zeros are added until 56 bytes are buffered, and no more |
| `Sha1.Expand` | src/detail/utils.cpp:183-188 | The array holds the message schedule |
| `Sha1.Select` | src/detail/utils.cpp:191-204 | Function and constant of each of the four round groups |
| `Sha1.Context.Absorb` | src/detail/utils.cpp:221-230 | One turn of the loop fills the buffer and processes it when it is full |
| `Sha1.Context.PadZeros` | src/detail/utils.cpp:239-239 | Zeros are added until 56 bytes are buffered, and no more |
| `Sha1.OneShot` | src/detail/utils.cpp:256-260 | The one-shot hash is the digest of the standard |
| `MerkleDamgard.LengthField` | src/detail/utils.cpp:123-124 | The bit count is written big-endian in eight bytes |
| `Hmac.FillBlock` | src/detail/utils.cpp:146-152 | The key is copied to the front of a block of zeros |
| `Hmac.Masked` | src/detail/utils.cpp:155-155 | Every byte of the block is masked with the constant |
| `Base64Url.AppendQuad` | src/detail/utils.cpp:311-315 | Three bytes become their four letters |
| `Base64Url.AppendTail` | src/detail/utils.cpp:318-327 | One or two bytes left become two or three letters |
| `Base64Url.Push` | src/detail/utils.cpp:348-353 | One letter adds six bits and outputs a byte when there are eight |
| `Router.JoinRest` | src/router.cpp:94-105 | The wildcard's pieces are joined by slashes |
| `Dispatch.Dispatcher.LookUp` | src/router.cpp:145-191 | The lookup decides between route, refusal and no route, as the first serving route does |
| `Dispatch.BuildChain` | src/router.cpp:197-208 | Group middleware, route middleware, handler |
| `Dispatch.Dispatcher.CallChain` | src/router.cpp:213-217 | One call of the chain's next runs at most the stage at the shared counter |
| `Dispatch.GroupsPass` | src/router.cpp:198-202 | If every group's middleware pass on, so do the collected ones |
| `Multipart.CollectParts` | src/body.cpp:106-155 | The outer loop reads part after part up to the final delimiter |
| `Multipart.AddPart` | src/body.cpp:140-152 | A part with file name or content type is a file, another one with a name is a field |
| `Where.Query.AppendList` | src/db/query.cpp:134-150 | A list becomes placeholders with one parameter each; without values it becomes a constant comparison after the column |
| `Where.Query.AppendMarks` | src/db/query.cpp:142-146 | One question mark and one parameter for each value |
| `WhereReader.TakeMarksBack` | src/db/query.cpp:141-147 | The placeholders of a list are counted exactly |
| `Sse.Send` | src/sse.cpp:27-34 | A message without name or id is an event of the default kind |
| `Sse.ReadClean` | src/sse.cpp:36-49 | Whatever the text, a reader dispatches no name or id with a line break and no data with a carriage return |

## Left out

- HttpParser.Parser.GrowHeaderBytes: the header byte counter is unbounded; the source counts in 64 bits.
- HttpParser.Parser.FinishHeaders: the body view is a copy of the storage, so the lifetime of the source's view is not modelled.
- HttpRoundTrip.RequestRoundTrip: for headers without the caller's own Content-Length or Transfer-Encoding and with distinct clean names, as the caller's map is given as a list in iteration order.
- Dechunk.Decode: runs a given number of turns, since the source's loop need not end; that it ends is a lemma where it holds. Texts are shorter than 2^64 bytes.
- ServerInput.Connection.HandleRequest: handlers, decoding of path, query and cookies, and response serialisation are one abstract function from request to response.
- ServerInput.Connection.ProcessInput: responses are buffered whole; the pause while a file is streamed and the re-entry after it (`src/server.cpp:534-537`, `src/server.cpp:701-704`) are not modelled, and neither are the deadlines.
- ServerInput.Connection.FlushOutput: an adopted connection stops here; its output is the subject of `OutputPipe`.
- ServerRuns.AnswersExactly: is about responses; whether an interim 100 line is sent does depend on the cuts, so `Responses` leaves those lines out and `EverythingAccounted` bounds them.
- ServerPipelines.PipelineAnswered: requests with a sized body or none; chunked ones are the subject of `Chunked.ParserUndoes`.
- PulseRooms.Hub.BroadcastFrame: what queues a frame is the channel's lock section; the notification after it is the subject of `OutputPipe`.
- PulseChannel.CutsDoNotMatter: stops at the first close frame, after which the feed loop returns without marking the channel closed and later frames depend on the cuts.
- PulseChannel.Channel.SendStream: asks for a positive fragment size where its loop is entered, as it would not end otherwise (`SendingEnds`), and is for a single writer; concurrent writers of one fragmented message are not modelled.
- PulseChannel.Channel.SendClose: single-threaded; under concurrency the lock is released before the frame is queued (`src/pulse.cpp:355-360`), and that a close frame always goes out is not claimed.
- PulseChannel.Channel.FeedBytes: handlers are numbers in an event list; what a handler does to its own channel while it runs is not modelled.
- PulseChannel.RoundTrip: message size is bounded only through single frames, as in the source.
- OutputPipe.NoLostWakeup: plain sockets only; TLS handshake steps change the registered interest on their own (`src/server.cpp:391-394`).
- OutputPipe.StepKeepsInv: the close request that adopt_pulse_ sets without the lock (`src/server.cpp:804`) is a locked step here.
- OutputPipe.Connection.Flush: the flush called from the event loop; called from `flush_output_` it is covered by the step machine.
- RateLimit.Store.Take: times and tokens are reals, so floating-point rounding is not modelled, and the clock is a parameter.
- Dispatch.Dispatcher.CallGlobal: middleware are finite programs of next and end calls; changing the request's path or method before the lookup, and exceptions, are not modelled.
- Dispatch.SortUnique: one insertion loop in place of the library's sort and unique.
- Multipart.ParseBody: the content type and body are parameters in place of the request object.
- MultipartRoundTrip.MultipartRoundTrip: names and content types without line feeds, names without semicolons, and a boundary without carriage returns.
- Where.Query.AppendWhere: values are nulls, arrays, numbers and strings; other JSON values behave like strings here.
- WhereReader.WhereRoundTrip: covers the WHERE text; the rest of a SELECT is not modelled.
- WhereRows.RowsSelected: how values are compared is a parameter, and a row is a value for each column.
- HttpFraming.HeadDecides: for heads within the header cap; `HttpRefusals.HeadTooLong` is about the others.
- PulseControl.EmptyCloseEchoed: the application may also close with 1005 itself, which `PulseChannel.Channel.SendClose` allows as the source does.
- Sse.StreamRoundTrip: the reader ignores the retry field and a byte order mark.
- Sha256.Context.Update: the hash state is a value replaced as a whole by each block; the buffer is an array updated in place.
- Sockets, epoll, TLS, sendfile, DNS, files and clocks are foreign calls: a write is any partial count, a refusal or an error.
- Database engines, ORM templates, JSON, zlib and regular expressions live in libraries that are not part of this model.
- The WebSocket handshake (accept key, subprotocol choice), padded base64, cookies, CORS, logging, configuration, MIME tables, validation and response setters are settled by reading one branch.
- TtlCache, MemoryStore, media packing and the JSON envelope of the application layer would add only easy members.
